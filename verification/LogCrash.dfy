/** A crash of the writer: the log is cut at some byte. */
module LogCrash {
  import opened Coding
  import opened LogFormat
  import opened LogReader
  import opened LogTheorems

  // The records whose last fragment ends before the cut.
  function Complete(c: Config, p: nat, records: seq<seq<byte>>, cut: nat): (rs: seq<Record>)
    requires c.Ok()
    ensures |rs| <= |records| && forall i :: 0 <= i < |rs| ==> rs[i].data == records[i]
    decreases |records|
  {
    if records == [] || RecordEnd(c, p, records[0]) > cut then []
    else [Record(records[0], Align(c, p))] + Complete(c, RecordEnd(c, p, records[0]), records[1..], cut)
  }

  // The lost headers are those of the fragments that end after the cut.
  ghost predicate TornAt(ps: seq<Piece>, bad: set<nat>, cut: nat) {
    forall i :: 0 <= i < |ps| ==> (ps[i].start in bad <==> ps[i].End() > cut)
  }

  function Torn(ps: seq<Piece>, cut: nat): set<nat> {
    set i | 0 <= i < |ps| && ps[i].End() > cut :: ps[i].start
  }

  lemma {:induction false} StartsDiffer(c: Config, p: nat, ps: seq<Piece>, i: nat, j: nat)
    requires c.Ok() && Chain(c, p, ps) && i < j < |ps|
    ensures ps[i].start < ps[j].start
    decreases |ps|
  {
    AlignFits(c, ps[0].End());
    if i > 0 {
      StartsDiffer(c, ps[0].End(), ps[1..], i - 1, j - 1);
    } else if j > 1 {
      StartsDiffer(c, ps[0].End(), ps[1..], 0, j - 1);
      assert ps[1..][0] == ps[1] && ps[1..][j - 1] == ps[j];
    }
  }

  lemma TornIsExact(c: Config, p: nat, ps: seq<Piece>, cut: nat)
    requires c.Ok() && Chain(c, p, ps)
    ensures TornAt(ps, Torn(ps, cut), cut)
  {
    forall i, j | 0 <= i < |ps| && 0 <= j < |ps| && ps[i].start == ps[j].start ensures i == j {
      if i < j {
        StartsDiffer(c, p, ps, i, j);
      } else if j < i {
        StartsDiffer(c, p, ps, j, i);
      }
    }
  }

  // ------------------------------------------------------------------ a cut log is a damaged log

  lemma TornHeader(c: Config, file: seq<byte>, cut: nat, init: nat, p: nat, x: Piece)
    requires c.Ok() && Linked(c, p, x) && Intact(c, file, x) && cut <= |file| && x.End() > cut
    ensures Rejected(c, file[..cut], x.start) && ReadAt(c, file[..cut], init, p) == Eof
  {
    AlignFits(c, p);
    var torn := file[..cut];
    var end := BlockEnd(c, torn, x.start);
    assert Partial(c, torn, x.start) && end == cut;
    if end - x.start >= HEADER_SIZE {
      TornLength(c, file, cut, x);
    }
  }

  // The length in a whole header tells that the payload is cut off.
  lemma TornLength(c: Config, file: seq<byte>, cut: nat, x: Piece)
    requires c.Ok() && x.start % c.blockSize + HEADER_SIZE + |x.payload| <= c.blockSize
    requires Intact(c, file, x) && x.start + HEADER_SIZE <= cut <= |file|
    ensures LengthOf(file[..cut][x.start..cut]) == |x.payload|
  {
    var buffer := file[..cut][x.start..cut];
    var physical := Physical(c, x.kind, x.payload);
    var n := |x.payload|;
    assert file[x.start..x.End()] == physical;
    assert buffer[4] == file[x.start + 4] == physical[4] == n % 256;
    assert buffer[5] == file[x.start + 5] == physical[5] == n / 256 % 256;
  }

  lemma StillIntact(c: Config, file: seq<byte>, cut: nat, x: Piece)
    requires Intact(c, file, x) && x.End() <= cut <= |file|
    ensures Intact(c, file[..cut], x)
  {
    assert file[..cut][x.start..x.End()] == file[x.start..x.End()];
  }

  lemma {:induction false} CutIsDamage(c: Config, file: seq<byte>, cut: nat, p: nat,
                                       ps: seq<Piece>, bad: set<nat>, inTail: bool)
    requires c.Ok() && Chain(c, p, ps) && cut <= |file| && TornAt(ps, bad, cut)
    requires forall i :: 0 <= i < |ps| ==> Intact(c, file, ps[i])
    requires inTail ==> p > cut
    ensures Damaged(c, file[..cut], ps, bad, inTail)
    decreases |ps|
  {
    hide Intact, Rejected;
    if ps != [] {
      var x := ps[0];
      AlignFits(c, p);
      if x.End() > cut {
        TornHeader(c, file, cut, 0, p, x);
      } else {
        StillIntact(c, file, cut, x);
      }
      CutIsDamage(c, file, cut, x.End(), ps[1..], bad, TailGoesOn(c, ps, bad));
    }
  }

  lemma {:induction false} EndsAfter(c: Config, p: nat, ps: seq<Piece>, i: nat)
    requires c.Ok() && Chain(c, p, ps) && i < |ps|
    ensures p < ps[i].End() <= ChainEnd(p, ps)
    ensures i == |ps| - 1 ==> ps[i].End() == ChainEnd(p, ps)
    decreases |ps|
  {
    AlignFits(c, p);
    if i > 0 {
      EndsAfter(c, ps[0].End(), ps[1..], i - 1);
    } else if |ps| > 1 {
      EndsAfter(c, ps[0].End(), ps[1..], |ps| - 2);
    }
  }

  lemma WholeBeforeCut(c: Config, p: nat, ps: seq<Piece>, bad: set<nat>, cut: nat)
    requires c.Ok() && Chain(c, p, ps) && TornAt(ps, bad, cut) && ps != []
    ensures Whole(ps, bad) <==> ChainEnd(p, ps) <= cut
  {
    EndsAfter(c, p, ps, |ps| - 1);
    forall i | 0 <= i < |ps| ensures ps[i].End() <= ChainEnd(p, ps) {
      EndsAfter(c, p, ps, i);
    }
  }

  lemma {:induction false} NoneAfterCut(c: Config, p: nat, records: seq<seq<byte>>, bad: set<nat>, cut: nat)
    requires c.Ok() && p > cut && TornAt(AllPieces(c, p, records), bad, cut)
    ensures Survivors(c, p, records, bad, 0) == []
    decreases |records|
  {
    if records != [] {
      var ps, q := Pieces(c, p, records[0], true), RecordEnd(c, p, records[0]);
      PiecesChain(c, p, records[0], true);
      EndsAfter(c, p, ps, |ps| - 1);
      SplitTorn(ps, AllPieces(c, q, records[1..]), bad, cut);
      WholeBeforeCut(c, p, ps, bad, cut);
      NoneAfterCut(c, q, records[1..], bad, cut);
    }
  }

  lemma SplitTorn(ps: seq<Piece>, qs: seq<Piece>, bad: set<nat>, cut: nat)
    requires TornAt(ps + qs, bad, cut)
    ensures TornAt(ps, bad, cut) && TornAt(qs, bad, cut)
  {
    forall i | 0 <= i < |ps| ensures ps[i].start in bad <==> ps[i].End() > cut {
      assert (ps + qs)[i] == ps[i];
    }
    forall i | 0 <= i < |qs| ensures qs[i].start in bad <==> qs[i].End() > cut {
      assert (ps + qs)[|ps| + i] == qs[i];
    }
  }

  lemma {:induction false} SurvivorsOfCut(c: Config, p: nat, records: seq<seq<byte>>, bad: set<nat>, cut: nat)
    requires c.Ok() && TornAt(AllPieces(c, p, records), bad, cut)
    ensures Survivors(c, p, records, bad, 0) == Complete(c, p, records, cut)
    decreases |records|
  {
    if records != [] {
      var ps, q := Pieces(c, p, records[0], true), RecordEnd(c, p, records[0]);
      PiecesChain(c, p, records[0], true);
      SplitTorn(ps, AllPieces(c, q, records[1..]), bad, cut);
      WholeBeforeCut(c, p, ps, bad, cut);
      if q > cut {
        NoneAfterCut(c, q, records[1..], bad, cut);
      } else {
        SurvivorsOfCut(c, q, records[1..], bad, cut);
      }
    }
  }

  lemma WrittenLog(c: Config, records: seq<seq<byte>>)
    requires c.Ok()
    ensures forall i ::
              0 <= i < |AllPieces(c, 0, records)| ==> Intact(c, LogBytes(c, records), AllPieces(c, 0, records)[i])
  {
    var ps := AllPieces(c, 0, records);
    AllPiecesChain(c, 0, records);
    forall i | 0 <= i < |ps| ensures Intact(c, LogBytes(c, records), ps[i]) {
      WrittenIntact(c, [], ps, i);
      assert [] + BytesOf(c, 0, ps) == BytesOf(c, 0, ps);
    }
  }

  /** Recovery is all or nothing: from a log cut at any byte the reader returns exactly the records whose last
      fragment ends before the cut, which are the first ones written.
   */
  lemma CutReturnsCompleteRecords(c: Config, records: seq<seq<byte>>, cut: nat)
    requires c.Ok() && cut <= |LogBytes(c, records)|
    ensures Records(0, Events(c, LogBytes(c, records)[..cut], 0, 0), IDLE) == Complete(c, 0, records, cut)
  {
    var ps, file := AllPieces(c, 0, records), LogBytes(c, records);
    AllPiecesChain(c, 0, records);
    WrittenLog(c, records);
    TornIsExact(c, 0, ps, cut);
    CutIsDamage(c, file, cut, 0, ps, Torn(ps, cut), false);
    RecoversExactly(c, records, file[..cut], Torn(ps, cut), 0);
    assert InitialBlock(c, 0) == 0 && IDLE.(resync := false) == IDLE;
    SurvivorsOfCut(c, 0, records, Torn(ps, cut), cut);
  }

  // ------------------------------------------------------------------ no reports

  // The fragments of whole records follow each other in order.
  ghost predicate Orderly(ps: seq<Piece>, inFrag: bool)
    decreases |ps|
  {
    ps != [] ==>
      && FULL_TYPE <= ps[0].kind <= LAST_TYPE
      && (inFrag <==> ps[0].kind == MIDDLE_TYPE || ps[0].kind == LAST_TYPE)
      && Orderly(ps[1..], ps[0].kind == FIRST_TYPE || ps[0].kind == MIDDLE_TYPE)
  }

  lemma {:induction false} PiecesOrderly(c: Config, p: nat, data: seq<byte>, begin: bool, more: seq<Piece>)
    requires c.Ok() && Orderly(more, false)
    ensures Orderly(Pieces(c, p, data, begin) + more, !begin)
    decreases |data|, if Avail(c, p) == 0 then 1 else 0
  {
    var x, n, rest := PiecesUnfold(c, p, data, begin);
    hide Pieces, Avail;
    assert ([x] + rest + more)[1..] == rest + more;
    if n < |data| {
      PiecesOrderly(c, x.End(), data[n..], false, more);
    } else {
      assert rest + more == more;
    }
  }

  lemma {:induction false} AllPiecesOrderly(c: Config, p: nat, records: seq<seq<byte>>)
    requires c.Ok()
    ensures Orderly(AllPieces(c, p, records), false)
    decreases |records|
  {
    if records != [] {
      var q := RecordEnd(c, p, records[0]);
      AllPiecesOrderly(c, q, records[1..]);
      PiecesOrderly(c, p, records[0], true, AllPieces(c, q, records[1..]));
    }
  }

  lemma {:induction false} OrderlyUnreported(c: Config, file: seq<byte>, cut: nat, p: nat, ps: seq<Piece>, a: Assembly)
    requires c.Ok() && Chain(c, p, ps) && cut <= |file| <= ChainEnd(p, ps) && Orderly(ps, a.inFrag) && !a.resync
    requires forall i :: 0 <= i < |ps| ==> Intact(c, file, ps[i])
    ensures Reports(0, Events(c, file[..cut], 0, p), a) == []
    decreases |ps|
  {
    hide Intact, Report;
    var torn := file[..cut];
    if ps == [] {
      PastEnd(c, torn, 0, p);
    } else {
      var x, e := ps[0], ReadAt(c, torn, 0, p);
      if x.End() > cut {
        TornHeader(c, file, cut, 0, p, x);
      } else {
        StillIntact(c, file, cut, x);
        IntactParses(c, torn, 0, p, x);
        hide ReadAt;
        var next := After(0, a, e);
        assert Events(c, torn, 0, p) == [e] + Events(c, torn, 0, x.End());
        assert !next.resync && (next.inFrag <==> x.kind == FIRST_TYPE || x.kind == MIDDLE_TYPE);
        OrderlyUnreported(c, file, cut, x.End(), ps[1..], next);
        QuietStep(e, Events(c, torn, 0, x.End()), a);
      }
    }
  }

  // A fragment that fits the state reports nothing.
  lemma QuietStep(e: Event, es: seq<Event>, a: Assembly)
    requires e.Frag? && 1 <= e.kind <= 4 && !a.resync && (a.inFrag <==> e.kind == 3 || e.kind == 4)
    ensures Reports(0, [e] + es, a) == Reports(0, es, After(0, a, e))
  {
    assert ([e] + es)[1..] == es;
  }

  /** A crash is not corruption: nothing is reported for a log cut at any byte. */
  lemma CutReportsNothing(c: Config, records: seq<seq<byte>>, cut: nat)
    requires c.Ok() && cut <= |LogBytes(c, records)|
    ensures Reports(0, Events(c, LogBytes(c, records)[..cut], 0, 0), IDLE) == []
  {
    var ps := AllPieces(c, 0, records);
    AllPiecesChain(c, 0, records);
    AllPiecesOrderly(c, 0, records);
    BytesLength(c, 0, ps);
    WrittenLog(c, records);
    OrderlyUnreported(c, LogBytes(c, records), cut, 0, ps, IDLE);
  }
}
