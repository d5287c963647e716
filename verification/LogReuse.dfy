/** Going on with a log file that a crash has cut.  What is appended to it is found if no fragment is cut off, and is
    lost if the payload of a fragment is, as long as the file stays shorter than what that fragment's header announces.
 */
module LogReuse {
  import opened Coding
  import opened LogFormat
  import opened LogReader
  import opened LogTheorems
  import opened LogWriter
  import opened LogCrash
  import opened LogTorn
  import opened Wrappers

  // ------------------------------------------------------------------ the payload of a fragment is cut off

  // Of the fragments that end after the cut one has its whole header before it; the file of this size ends before
  // that fragment does, and the others start after it.
  ghost predicate CutBy(ps: seq<Piece>, cut: nat, size: nat) {
    forall i :: 0 <= i < |ps| && ps[i].End() > cut ==>
      size < ps[i].End() && (ps[i].start + HEADER_SIZE <= cut || ps[i].start >= size)
  }

  lemma CutHeader(c: Config, file: seq<byte>, cut: nat, more: seq<byte>, p: nat, x: Piece)
    requires c.Ok() && Linked(c, p, x) && Intact(c, file, x) && cut <= |file| && cut + |more| < x.End()
    requires x.start + HEADER_SIZE <= cut || x.start >= cut + |more|
    ensures Rejected(c, file[..cut] + more, x.start)
  {
    AlignFits(c, p);
    var now := file[..cut] + more;
    var end := BlockEnd(c, now, x.start);
    assert Partial(c, now, x.start) && end == |now|;
    if end - x.start >= HEADER_SIZE {
      TornLength(c, file, cut, x);
      var buffer := now[x.start..end];
      assert buffer[4] == file[..cut][x.start..cut][4] && buffer[5] == file[..cut][x.start..cut][5];
    }
  }

  lemma {:induction false} AppendedIsDamage(c: Config, file: seq<byte>, cut: nat, more: seq<byte>, p: nat,
                                            ps: seq<Piece>, bad: set<nat>, inTail: bool)
    requires c.Ok() && Chain(c, p, ps) && cut <= |file| && TornAt(ps, bad, cut) && CutBy(ps, cut, cut + |more|)
    requires forall i :: 0 <= i < |ps| ==> Intact(c, file, ps[i])
    requires inTail ==> p > cut
    ensures Damaged(c, file[..cut] + more, ps, bad, inTail)
    decreases |ps|
  {
    hide Intact, Rejected;
    if ps != [] {
      var x := ps[0];
      AlignFits(c, p);
      if x.End() > cut {
        CutHeader(c, file, cut, more, p, x);
      } else {
        AppendedIntact(c, file, cut, more, x);
      }
      AppendedIsDamage(c, file, cut, more, x.End(), ps[1..], bad, TailGoesOn(c, ps, bad));
    }
  }

  lemma AppendedIntact(c: Config, file: seq<byte>, cut: nat, more: seq<byte>, x: Piece)
    requires Intact(c, file, x) && x.End() <= cut <= |file|
    ensures Intact(c, file[..cut] + more, x)
  {
    assert (file[..cut] + more)[x.start..x.End()] == file[x.start..x.End()];
  }

  lemma {:induction false} EndsBeforeNext(c: Config, p: nat, ps: seq<Piece>, i: nat, j: nat)
    requires c.Ok() && Chain(c, p, ps) && i < j < |ps|
    ensures ps[i].End() <= ps[j].start
    decreases |ps|
  {
    AlignFits(c, ps[0].End());
    if i > 0 {
      EndsBeforeNext(c, ps[0].End(), ps[1..], i - 1, j - 1);
    } else if j > 1 {
      EndsBeforeNext(c, ps[0].End(), ps[1..], 0, j - 1);
      assert ps[1..][0] == ps[1] && ps[1..][j - 1] == ps[j];
    }
  }

  lemma CutsOne(c: Config, ps: seq<Piece>, i: nat, cut: nat, size: nat)
    requires c.Ok() && Chain(c, 0, ps) && i < |ps| && ps[i].start + HEADER_SIZE <= cut <= size < ps[i].End()
    ensures CutBy(ps, cut, size)
  {
    forall j | 0 <= j < |ps| && ps[j].End() > cut
      ensures size < ps[j].End() && (ps[j].start + HEADER_SIZE <= cut || ps[j].start >= size)
    {
      if j < i {
        EndsBeforeNext(c, 0, ps, j, i);
      } else if i < j {
        EndsBeforeNext(c, 0, ps, i, j);
      }
    }
  }

  /** The log ends inside the payload of fragment i.  Whatever is appended to it, the reader returns only the records
      that were complete before the cut, until the file is as long as the header of that fragment says.
   */
  lemma CutPayloadHidesWhatFollows(c: Config, records: seq<seq<byte>>, i: nat, cut: nat, more: seq<byte>)
    requires c.Ok() && i < |AllPieces(c, 0, records)| && cut <= |LogBytes(c, records)|
    requires var x := AllPieces(c, 0, records)[i]; x.start + HEADER_SIZE <= cut && cut + |more| < x.End()
    ensures Records(0, Events(c, LogBytes(c, records)[..cut] + more, 0, 0), IDLE) == Complete(c, 0, records, cut)
  {
    var ps, file := AllPieces(c, 0, records), LogBytes(c, records);
    AllPiecesChain(c, 0, records);
    hide Chain, Damaged, AllPieces, Events, Records, Survivors, Complete, Intact;
    WrittenLog(c, records);
    TornIsExact(c, 0, ps, cut);
    CutsOne(c, ps, i, cut, cut + |more|);
    AppendedIsDamage(c, file, cut, more, 0, ps, Torn(ps, cut), false);
    BytesLength(c, 0, ps);
    EndsAfter(c, 0, ps, i);
    RecoversExactly(c, records, file[..cut] + more, Torn(ps, cut), 0);
    StartsAtZero(c);
    SurvivorsOfCut(c, 0, records, Torn(ps, cut), cut);
  }

  /** So a record can be acknowledged and lost without any failing call: the writer goes on where the file ends, and
      AddRecord succeeds.
   */
  method ReusedCutLosesRecord(c: Config, records: seq<seq<byte>>, ghost i: nat, cut: nat, data: seq<byte>)
    returns (ok: bool, file: seq<byte>)
    requires c.Ok() && i < |AllPieces(c, 0, records)| && cut <= |LogBytes(c, records)|
    requires var x := AllPieces(c, 0, records)[i];
             x.start + HEADER_SIZE <= cut && cut + HEADER_SIZE + |data| < x.End()
    ensures ok && |file| == cut + HEADER_SIZE + |data|
    ensures Records(0, Events(c, file, 0, 0), IDLE) == Complete(c, 0, records, cut)
  {
    hide RecordBytes, Records, Events, Complete, AllPieces;
    var w := new Writer.Reopen(c, n => None, LogBytes(c, records)[..cut]);
    ok := w.AddRecord(data);
    file := w.dest;
    OneFragment(c, records, i, cut, data);
    CutPayloadHidesWhatFollows(c, records, i, cut, RecordBytes(c, cut, data));
  }

  // The appended record fits the block the cut is in.
  lemma OneFragment(c: Config, records: seq<seq<byte>>, i: nat, cut: nat, data: seq<byte>)
    requires c.Ok() && i < |AllPieces(c, 0, records)|
    requires var x := AllPieces(c, 0, records)[i];
             x.start + HEADER_SIZE <= cut && cut + HEADER_SIZE + |data| < x.End()
    ensures |RecordBytes(c, cut, data)| == HEADER_SIZE + |data|
  {
    var ps := AllPieces(c, 0, records);
    var x := ps[i];
    AllPiecesChain(c, 0, records);
    PieceFits(c, 0, ps, i);
    ModAdd(c, x.start, cut - x.start);
    hide AllPieces, Physical;
    assert Align(c, cut) == cut && Avail(c, cut) >= |data|;
    TailUnfold(c, cut, data, true);
  }

  lemma {:induction false} PieceFits(c: Config, p: nat, ps: seq<Piece>, i: nat)
    requires c.Ok() && Chain(c, p, ps) && i < |ps|
    ensures ps[i].start % c.blockSize + HEADER_SIZE + |ps[i].payload| <= c.blockSize
    decreases |ps|
  {
    if i > 0 {
      PieceFits(c, ps[0].End(), ps[1..], i - 1);
    }
  }

  // ------------------------------------------------------------------ no fragment is cut

  // The cut lies after k whole fragments, at most in the padding before the next one.
  ghost predicate CutBetween(c: Config, ps: seq<Piece>, k: nat, cut: nat)
    requires c.Ok()
  {
    && k <= |ps| && ChainEnd(0, ps[..k]) <= cut <= Align(c, ChainEnd(0, ps[..k]))
    && (k == |ps| ==> cut == ChainEnd(0, ps))
  }

  lemma ZerosAdd(m: nat, n: nat)
    ensures Zeros(m) + Zeros(n) == Zeros(m + n)
    decreases m
  {
    if m > 0 {
      ZerosAdd(m - 1, n);
      assert [0] + Zeros(m - 1) + Zeros(n) == [0] + (Zeros(m - 1) + Zeros(n));
    } else {
      assert [] + Zeros(n) == Zeros(n);
    }
  }

  lemma {:induction false} ChainSplit(c: Config, p: nat, ps: seq<Piece>, k: nat)
    requires c.Ok() && Chain(c, p, ps) && k <= |ps|
    ensures Chain(c, p, ps[..k]) && Chain(c, ChainEnd(p, ps[..k]), ps[k..])
    ensures ChainEnd(p, ps) == ChainEnd(ChainEnd(p, ps[..k]), ps[k..])
    decreases |ps|
  {
    if k > 0 {
      ChainSplit(c, ps[0].End(), ps[1..], k - 1);
      assert ps[..k][1..] == ps[1..][..k - 1] && ps[1..][k - 1..] == ps[k..];
    } else {
      assert ps[k..] == ps;
    }
  }

  // The bytes before the cut: the whole fragments, and some of the padding.
  lemma CutBytes(c: Config, ps: seq<Piece>, k: nat, cut: nat)
    requires c.Ok() && Chain(c, 0, ps) && CutBetween(c, ps, k, cut)
    ensures cut <= |BytesOf(c, 0, ps)|
    ensures BytesOf(c, 0, ps)[..cut] == BytesOf(c, 0, ps[..k]) + Zeros(cut - ChainEnd(0, ps[..k]))
  {
    hide Physical, Zeros, Align;
    var qs, rest := ps[..k], ps[k..];
    var e := ChainEnd(0, qs);
    ChainSplit(c, 0, ps, k);
    assert ps == qs + rest;
    BytesAppend(c, 0, qs, rest);
    BytesLength(c, 0, qs);
    BytesLength(c, 0, ps);
    if k < |ps| {
      var pad := rest[0].start - e;
      ZerosAdd(cut - e, pad - (cut - e));
      Prefix(BytesOf(c, 0, qs), Zeros(cut - e), Zeros(pad - (cut - e)),
             Physical(c, rest[0].kind, rest[0].payload), BytesOf(c, rest[0].End(), rest[1..]));
    } else {
      NoZeros();
    }
  }

  lemma Prefix(a: seq<byte>, b: seq<byte>, d: seq<byte>, e: seq<byte>, f: seq<byte>)
    ensures (a + (b + d + e + f))[..|a| + |b|] == a + b
  {
  }

  // Appended records are laid out as if the padding had not been cut.
  lemma ReusedBytes(c: Config, ps: seq<Piece>, k: nat, cut: nat, rs: seq<Piece>)
    requires c.Ok() && Chain(c, 0, ps) && CutBetween(c, ps, k, cut) && Chain(c, cut, rs) && rs != []
    ensures Chain(c, 0, ps[..k] + rs)
    ensures cut <= |BytesOf(c, 0, ps)|
    ensures BytesOf(c, 0, ps)[..cut] + BytesOf(c, cut, rs) == BytesOf(c, 0, ps[..k] + rs)
  {
    hide Physical, Zeros;
    var qs := ps[..k];
    var e := ChainEnd(0, qs);
    CutBytes(c, ps, k, cut);
    ChainSplit(c, 0, ps, k);
    SameAlign(c, e, cut);
    ChainAppend(c, 0, qs, rs);
    BytesAppend(c, 0, qs, rs);
    AlignFits(c, cut);
    ZerosAdd(cut - e, rs[0].start - cut);
    Regroup(BytesOf(c, 0, qs), Zeros(cut - e), Zeros(rs[0].start - cut),
            Physical(c, rs[0].kind, rs[0].payload), BytesOf(c, rs[0].End(), rs[1..]));
  }

  lemma SameAlign(c: Config, e: nat, cut: nat)
    requires c.Ok() && e <= cut <= Align(c, e)
    ensures Align(c, cut) == Align(c, e)
  {
    AlignFits(c, e);
    if Align(c, e) != e && cut < Align(c, e) {
      ModAdd(c, e, cut - e);
    }
  }

  lemma Regroup(a: seq<byte>, b: seq<byte>, d: seq<byte>, e: seq<byte>, f: seq<byte>)
    ensures a + b + (d + e + f) == a + (b + d + e + f)
  {
  }

  // A fragment that starts a record ends whatever was being put together.
  lemma StartsAfresh(e: Event, es: seq<Event>, a: Assembly)
    requires e.Frag? && (e.kind == 1 || e.kind == 2) && !a.resync
    ensures Records(0, [e] + es, a) == Records(0, [e] + es, IDLE)
  {
    hide Report;
    RecordsStep(0, e, es, a, []);
    RecordsStep(0, e, es, IDLE, []);
  }

  // The first j fragments of a record, but not all of them, yield nothing.
  lemma {:induction false} BeginningIsDropped(c: Config, p: nat, data: seq<byte>, begin: bool, j: nat, e: Event,
                                              es: seq<Event>, a: Assembly)
    requires c.Ok() && j < |Pieces(c, p, data, begin)| && e.Frag? && (e.kind == 1 || e.kind == 2)
    requires !a.resync && (begin ==> a == IDLE) && (!begin ==> a.inFrag)
    ensures Records(0, Seen(Pieces(c, p, data, begin)[..j], {}, 0) + ([e] + es), a) == Records(0, [e] + es, IDLE)
    decreases j
  {
    var ps := Pieces(c, p, data, begin);
    if j == 0 {
      assert ps[..0] == [] && Seen([], {}, 0) + ([e] + es) == [e] + es;
      StartsAfresh(e, es, a);
    } else {
      var x, n, rest := PiecesUnfold(c, p, data, begin);
      assert n < |data|;
      var part, x0 := rest[..j - 1], SeenOne(x, {}, 0);
      assert ps[..j] == [x] + part;
      SeenUnfold(x, part, {}, 0, [e] + es);
      hide Pieces;
      RecordsStep(0, x0, Seen(part, {}, 0) + ([e] + es), a, []);
      var b := After(0, a, x0);
      assert Step(0, a, x0).Continue? && !b.resync && b.inFrag;
      BeginningIsDropped(c, x.End(), data[n..], false, j - 1, e, es, b);
    }
  }

  // The fragments before the cut give the complete records.
  lemma {:induction false} WholeFragments(c: Config, p: nat, records: seq<seq<byte>>, k: nat, cut: nat, e: Event,
                                          es: seq<Event>)
    requires c.Ok() && k <= |AllPieces(c, p, records)| && e.Frag? && (e.kind == 1 || e.kind == 2)
    requires TornAt(AllPieces(c, p, records)[..k], {}, cut)
    requires forall i :: k <= i < |AllPieces(c, p, records)| ==> AllPieces(c, p, records)[i].End() > cut
    ensures Records(0, Seen(AllPieces(c, p, records)[..k], {}, 0) + ([e] + es), IDLE)
         == Complete(c, p, records, cut) + Records(0, [e] + es, IDLE)
    decreases |records|
  {
    hide Records, Seen, Pieces, ChainEnd, Chain;
    var ps := AllPieces(c, p, records);
    if records == [] {
      NothingSeen([e] + es);
      assert ps[..k] == [];
    } else {
      var qs, q := Pieces(c, p, records[0], true), RecordEnd(c, p, records[0]);
      var more := AllPieces(c, q, records[1..]);
      PiecesChain(c, p, records[0], true);
      EndsAfter(c, p, qs, |qs| - 1);
      assert ps == qs + more && ps[|qs| - 1] == qs[|qs| - 1];
      if k < |qs| {
        assert ps[..k] == qs[..k];
        BeginningIsDropped(c, p, records[0], true, k, e, es, IDLE);
      } else {
        var part := more[..k - |qs|];
        assert ps[..k] == qs + part && ps[..k][|qs| - 1] == qs[|qs| - 1];
        SplitTorn(qs, part, {}, cut);
        assert forall i :: k - |qs| <= i < |more| ==> more[i] == ps[|qs| + i];
        WholeFragments(c, q, records[1..], k - |qs|, cut, e, es);
        AppendOne(Record(records[0], Align(c, p)), Complete(c, q, records[1..], cut), Records(0, [e] + es, IDLE));
        OneRecord(c, p, records[0], part, [e] + es);
      }
    }
  }

  lemma NothingSeen(es: seq<Event>)
    ensures Seen([], {}, 0) + es == es
  {
  }

  lemma AppendOne(x: Record, a: seq<Record>, b: seq<Record>)
    ensures [x] + (a + b) == [x] + a + b
  {
  }

  lemma OneRecord(c: Config, p: nat, data: seq<byte>, part: seq<Piece>, es: seq<Event>)
    requires c.Ok()
    ensures Records(0, Seen(Pieces(c, p, data, true) + part, {}, 0) + es, IDLE)
         == [Record(data, Align(c, p))] + Records(0, Seen(part, {}, 0) + es, IDLE)
  {
    var qs := Pieces(c, p, data, true);
    assert qs[0].start == Align(c, p);
    PiecesChain(c, p, data, true);
    AllSeenIsWhole(c, p, qs, {}, 0);
    SeenAppend(qs, part, {}, 0);
    RecordAssembles(c, 0, p, data, {}, Seen(part, {}, 0) + es);
    assert Seen(qs, {}, 0) + Seen(part, {}, 0) + es == Seen(qs, {}, 0) + (Seen(part, {}, 0) + es);
  }

  lemma EndsAround(c: Config, ps: seq<Piece>, k: nat, cut: nat)
    requires c.Ok() && Chain(c, 0, ps) && CutBetween(c, ps, k, cut)
    ensures TornAt(ps[..k], {}, cut) && forall i :: k <= i < |ps| ==> ps[i].End() > cut
  {
    ChainSplit(c, 0, ps, k);
    forall i | 0 <= i < k ensures ps[..k][i].End() <= cut {
      EndsAfter(c, 0, ps[..k], i);
    }
    forall i | k <= i < |ps| ensures ps[i].End() > cut {
      assert ps[k..][0] == ps[k] && ps[k].start == Align(c, ChainEnd(0, ps[..k]));
      if k < i {
        EndsBeforeNext(c, 0, ps, k, i);
      }
    }
  }

  lemma AllIntact(c: Config, ps: seq<Piece>)
    requires c.Ok() && Chain(c, 0, ps)
    ensures Left(c, BytesOf(c, 0, ps), 0, ps, {})
  {
    hide Intact, Damaged;
    forall i | 0 <= i < |ps| ensures Intact(c, BytesOf(c, 0, ps), ps[i]) {
      WrittenIntact(c, [], ps, i);
      assert [] + BytesOf(c, 0, ps) == BytesOf(c, 0, ps);
    }
    IntactUndamaged(c, BytesOf(c, 0, ps), ps);
    BytesLength(c, 0, ps);
  }

  /** The log ends between two fragments.  The reader returns the records that were complete before the cut and all that
      was appended after it.
   */
  lemma WholeFragmentsKeepWhatFollows(c: Config, records: seq<seq<byte>>, k: nat, cut: nat, data: seq<byte>)
    requires c.Ok() && CutBetween(c, AllPieces(c, 0, records), k, cut)
    ensures cut <= |LogBytes(c, records)|
    ensures Records(0, Events(c, LogBytes(c, records)[..cut] + RecordBytes(c, cut, data), 0, 0), IDLE)
         == Complete(c, 0, records, cut) + [Record(data, Align(c, cut))]
  {
    hide AllPieces, Pieces, Chain, BytesOf, Events, Records, Seen, SeenOne, Left, Complete, CutBetween, KindOf, Avail;
    var ps, rs := AllPieces(c, 0, records), Pieces(c, cut, data, true);
    AllPiecesChain(c, 0, records);
    PiecesChain(c, cut, data, true);
    CutWithin(c, ps, k, cut);
    ReusedBytes(c, ps, k, cut, rs);
    var all := ps[..k] + rs;
    var x, n, rest := PiecesUnfold(c, cut, data, true);
    AllIntact(c, all);
    ReadsAsSeen(c, BytesOf(c, 0, all), 0, 0, all, {}, IDLE);
    SeenAppend(ps[..k], rs, {}, 0);
    var e := SeenOne(x, {}, 0);
    EndsAround(c, ps, k, cut);
    LastRecord(c, cut, data, x, rest);
    FirstEvent(x, n == |data|);
    WholeFragments(c, 0, records, k, cut, e, Seen(rest, {}, 0));
  }

  lemma CutWithin(c: Config, ps: seq<Piece>, k: nat, cut: nat)
    requires c.Ok() && CutBetween(c, ps, k, cut)
    ensures k <= |ps|
  {
  }

  lemma FirstEvent(x: Piece, end: bool)
    requires x.kind == KindOf(true, end)
    ensures SeenOne(x, {}, 0).Frag? && (SeenOne(x, {}, 0).kind == 1 || SeenOne(x, {}, 0).kind == 2)
  {
  }

  lemma LastRecord(c: Config, cut: nat, data: seq<byte>, x: Piece, rest: seq<Piece>)
    requires c.Ok() && Pieces(c, cut, data, true) == [x] + rest
    ensures Seen([x] + rest, {}, 0) == [SeenOne(x, {}, 0)] + Seen(rest, {}, 0)
    ensures Records(0, Seen([x] + rest, {}, 0), IDLE) == [Record(data, Align(c, cut))]
  {
    assert ([x] + rest)[1..] == rest;
    OneRecord(c, cut, data, [], []);
    assert [x] + rest + [] == [x] + rest && Seen([x] + rest, {}, 0) + [] == Seen([x] + rest, {}, 0);
    assert Records(0, Seen([], {}, 0) + [], IDLE) == [];
  }

  /** Reusing a log is safe if it ends with a whole fragment, or in the padding after one: what is appended is found. */
  method ReuseKeepsRecord(c: Config, records: seq<seq<byte>>, ghost k: nat, cut: nat, data: seq<byte>)
    returns (ok: bool, file: seq<byte>)
    requires c.Ok() && CutBetween(c, AllPieces(c, 0, records), k, cut) && cut <= |LogBytes(c, records)|
    ensures ok
    ensures Records(0, Events(c, file, 0, 0), IDLE) == Complete(c, 0, records, cut) + [Record(data, Align(c, cut))]
  {
    hide RecordBytes, Records, Events, Complete, AllPieces, CutBetween;
    var w := new Writer.Reopen(c, n => None, LogBytes(c, records)[..cut]);
    ok := w.AddRecord(data);
    file := w.dest;
    WholeFragmentsKeepWhatFollows(c, records, k, cut, data);
  }
}
