/** What the reader returns from a damaged or truncated log: exactly the records that lost nothing. */
module LogTheorems {
  import opened Coding
  import opened LogFormat
  import opened LogReader

  // ------------------------------------------------------------------ damage

  // A header at p that the reader does not accept: cut off, too long, empty, or failing its checksum.
  predicate Rejected(c: Config, file: seq<byte>, p: nat)
    requires c.Ok()
  {
    var end := BlockEnd(c, file, p);
    || end - p < HEADER_SIZE
    || (var buffer := file[p..end];
        var length := LengthOf(buffer);
        || HEADER_SIZE + length > |buffer|
        || (TypeOf(buffer[6]) == 0 && length == 0)
        || (c.checksum && ChecksumFails(c, buffer, length)))
  }

  predicate SameBlock(c: Config, p: nat, q: nat)
    requires c.Ok()
  {
    c.BlockStart(p) == c.BlockStart(q)
  }

  // The file differs from the log only in lost fragments, whose headers are at the positions in bad:
  // from some fragment on, the whole tail of a block is lost, and the first lost header is rejected.
  // In tail says that an earlier fragment of the same block is lost.
  ghost predicate Damaged(c: Config, file: seq<byte>, ps: seq<Piece>, bad: set<nat>, inTail: bool)
    requires c.Ok()
    decreases |ps|
  {
    ps != [] ==>
      && (inTail ==> ps[0].start in bad)
      && (ps[0].start in bad && !inTail ==> Rejected(c, file, ps[0].start))
      && (ps[0].start !in bad ==> Intact(c, file, ps[0]))
      && Damaged(c, file, ps[1..], bad, TailGoesOn(c, ps, bad))
  }

  predicate TailGoesOn(c: Config, ps: seq<Piece>, bad: set<nat>)
    requires c.Ok() && ps != []
  {
    ps[0].start in bad && |ps| > 1 && SameBlock(c, ps[0].start, ps[1].start)
  }

  // The records that lost nothing and start at or after the initial offset.
  function Survivors(c: Config, p: nat, records: seq<seq<byte>>, bad: set<nat>, init: nat): seq<Record>
    requires c.Ok()
    decreases |records|
  {
    if records == [] then []
    else
      var ps := Pieces(c, p, records[0], true);
      (if Whole(ps, bad) && ps[0].start >= init then [Record(records[0], ps[0].start)] else [])
      + Survivors(c, RecordEnd(c, p, records[0]), records[1..], bad, init)
  }

  predicate Whole(ps: seq<Piece>, bad: set<nat>) {
    forall i :: 0 <= i < |ps| ==> ps[i].start !in bad
  }

  // ------------------------------------------------------------------ reading one fragment

  lemma IntactParses(c: Config, file: seq<byte>, init: nat, p: nat, x: Piece)
    requires c.Ok() && Linked(c, p, x) && Intact(c, file, x)
    ensures ReadAt(c, file, init, p) == if x.start < init then Bad([], x.End()) else Frag(x.kind, x.payload, x.End())
  {
    hide Parse, Physical;
    AlignFits(c, p);
    var end := BlockEnd(c, file, x.start);
    assert x.End() <= end <= |file|;
    var buffer := file[x.start..end];
    HeaderParses(c, init, x.start, x.kind, x.payload, buffer, Partial(c, file, x.start));
    if x.start != p {
      assert !Partial(c, file, p);
    }
  }

  lemma HeaderParses(c: Config, init: nat, p: nat, kind: byte, payload: seq<byte>, buffer: seq<byte>, last: bool)
    requires 1 <= kind <= 4 && |payload| <= 0xffff && HEADER_SIZE + |payload| <= |buffer|
    requires buffer[..HEADER_SIZE + |payload|] == Physical(c, kind, payload)
    ensures Parse(c, init, p, buffer, last)
         == if p < init then Bad([], p + HEADER_SIZE + |payload|) else Frag(kind, payload, p + HEADER_SIZE + |payload|)
  {
    var n := |payload|;
    var physical := Physical(c, kind, payload);
    assert buffer[4] == physical[4] == n % 256 && buffer[5] == physical[5] == n / 256 % 256 &&
           buffer[6] == physical[6] == kind;
    assert LengthOf(buffer) == n;
    assert buffer[HEADER_SIZE..HEADER_SIZE + n] == physical[HEADER_SIZE..] == payload;
    assert buffer[..4] == physical[..4] == Fixed32(c.crc(kind, payload));
    Fixed32RoundTrip(c.crc(kind, payload), []);
    assert Fixed32(c.crc(kind, payload)) + [] == Fixed32(c.crc(kind, payload));
  }

  // A rejected header ends the file or costs the rest of its block.
  lemma RejectedIsBad(c: Config, file: seq<byte>, init: nat, p: nat, x: Piece)
    requires c.Ok() && Linked(c, p, x) && Rejected(c, file, x.start)
    ensures var e := ReadAt(c, file, init, p);
            (e.Eof? && Partial(c, file, x.start)) || (e.Bad? && e.next == BlockEnd(c, file, x.start))
  {
    AlignFits(c, p);
  }

  // ------------------------------------------------------------------ reading a damaged log

  // What the reader sees of fragments, one event each.
  function Seen(ps: seq<Piece>, bad: set<nat>, init: nat): seq<Event>
    decreases |ps|
  {
    if ps == [] then [] else [SeenOne(ps[0], bad, init)] + Seen(ps[1..], bad, init)
  }

  function SeenOne(x: Piece, bad: set<nat>, init: nat): Event {
    if x.start in bad || x.start < init then Bad([], x.End()) else Frag(x.kind, x.payload, x.End())
  }

  // Once the file ends inside the block of a lost fragment, everything after it is lost.
  lemma {:induction false} AllLost(c: Config, file: seq<byte>, p: nat, ps: seq<Piece>,
                                   bad: set<nat>, init: nat, inTail: bool, a: Assembly)
    requires c.Ok() && Chain(c, p, ps) && Damaged(c, file, ps, bad, inTail)
    requires ps != [] && (inTail || |file| <= ps[0].start)
    requires |file| < c.BlockStart(ps[0].start) + c.blockSize
    ensures Records(init, Seen(ps, bad, init), a) == []
    decreases |ps|
  {
    hide Rejected, Report;
    var x := ps[0];
    assert x.start in bad;
    assert Seen(ps, bad, init)[1..] == Seen(ps[1..], bad, init);
    if |ps| > 1 {
      var y := ps[1];
      AlignFits(c, x.End());
      ModAdd(c, x.start, HEADER_SIZE + |x.payload|);
      if !SameBlock(c, x.start, y.start) {
        LaterBlock(c, x, y);
      }
      AllLost(c, file, x.End(), ps[1..], bad, init, TailGoesOn(c, ps, bad), IDLE);
    }
  }

  // A fragment in another block than the one before it starts its block, which is the next one.
  lemma LaterBlock(c: Config, x: Piece, y: Piece)
    requires c.Ok() && x.start % c.blockSize + HEADER_SIZE + |x.payload| <= c.blockSize && Linked(c, x.End(), y)
    requires !SameBlock(c, x.start, y.start)
    ensures y.start == c.BlockStart(x.start) + c.blockSize && y.start % c.blockSize == 0
  {
    AlignFits(c, x.End());
    ModAdd(c, x.start, HEADER_SIZE + |x.payload|);
  }

  // The state after an event, whether or not it completes a record.
  function After(init: nat, a: Assembly, e: Event): Assembly {
    match Step(init, a, e)
    case Continue(b, _) => b
    case Return(_, _) => IDLE
    case Stop => IDLE
  }

  lemma SameStep(init: nat, e: Event, es: seq<Event>, fs: seq<Event>, a: Assembly)
    requires Records(init, es, After(init, a, e)) == Records(init, fs, After(init, a, e))
    ensures Records(init, [e] + es, a) == Records(init, [e] + fs, a)
  {
    hide Step;
    RecordsStep(init, e, es, a, []);
    RecordsStep(init, e, fs, a, []);
  }

  lemma BadStep(init: nat, e: Event, es: seq<Event>, a: Assembly)
    requires e.Bad?
    ensures Records(init, [e] + es, a) == Records(init, es, IDLE)
  {
    assert ([e] + es)[1..] == es;
  }

  // What is left of a log from position p on.
  ghost predicate Left(c: Config, file: seq<byte>, p: nat, ps: seq<Piece>, bad: set<nat>)
    requires c.Ok()
  {
    Chain(c, p, ps) && Damaged(c, file, ps, bad, false) && |file| <= ChainEnd(p, ps)
  }

  lemma LeftUnfold(c: Config, file: seq<byte>, init: nat, p: nat, ps: seq<Piece>, bad: set<nat>)
    requires c.Ok() && Left(c, file, p, ps, bad)
    ensures ps == [] ==> Events(c, file, init, p) == [] == Seen(ps, bad, init)
    ensures ps != [] ==>
              Linked(c, p, ps[0]) && Seen(ps, bad, init) == [SeenOne(ps[0], bad, init)] + Seen(ps[1..], bad, init)
    ensures ps != [] && ps[0].start !in bad ==> Intact(c, file, ps[0]) && Left(c, file, ps[0].End(), ps[1..], bad)
    ensures ps != [] && ps[0].start in bad ==> Rejected(c, file, ps[0].start)
  {
    hide Rejected, Intact, Linked;
  }

  // From the header of the first fragment on, the file reads as its fragments say.
  lemma {:induction false} ReadsAsSeen(c: Config, file: seq<byte>, init: nat, p: nat,
                                       ps: seq<Piece>, bad: set<nat>, a: Assembly)
    requires c.Ok() && Left(c, file, p, ps, bad)
    ensures Records(init, Events(c, file, init, p), a) == Records(init, Seen(ps, bad, init), a)
    decreases |ps|, 2
  {
    LeftUnfold(c, file, init, p, ps, bad);
    if ps != [] {
      if ps[0].start in bad {
        ReadsLost(c, file, init, p, ps, bad, a);
      } else {
        var x := ps[0];
        IntactParses(c, file, init, p, x);
        hide Left, Rejected, Intact, Linked, Seen, ReadAt, Records, After;
        var e := ReadAt(c, file, init, p);
        assert Events(c, file, init, p) == [e] + Events(c, file, init, x.End());
        ReadsAsSeen(c, file, init, x.End(), ps[1..], bad, After(init, a, e));
        SameStep(init, e, Events(c, file, init, x.End()), Seen(ps[1..], bad, init), a);
      }
    }
  }

  lemma {:induction false} ReadsLost(c: Config, file: seq<byte>, init: nat, p: nat,
                                     ps: seq<Piece>, bad: set<nat>, a: Assembly)
    requires c.Ok() && Left(c, file, p, ps, bad) && ps != [] && ps[0].start in bad
    ensures Records(init, Events(c, file, init, p), a) == Records(init, Seen(ps, bad, init), a)
    decreases |ps|, 1
  {
    LeftUnfold(c, file, init, p, ps, bad);
    RejectedIsBad(c, file, init, p, ps[0]);
    hide Rejected, Intact, Linked, Seen, ReadAt, Records, Left, LeftInTail;
    var x, e := ps[0], ReadAt(c, file, init, p);
    if Partial(c, file, x.start) {
      LostToTheEnd(c, file, init, p, ps, bad, a);
    } else {
      ToTail(c, file, p, ps, bad);
      assert Events(c, file, init, p) == [e] + Events(c, file, init, e.next);
      BadStep(init, e, Events(c, file, init, e.next), a);
      BadStep(init, SeenOne(x, bad, init), Seen(ps[1..], bad, init), a);
      SkipsTail(c, file, init, p, ps, bad);
    }
  }

  lemma ToTail(c: Config, file: seq<byte>, p: nat, ps: seq<Piece>, bad: set<nat>)
    requires c.Ok() && Left(c, file, p, ps, bad) && ps != [] && ps[0].start in bad && !Partial(c, file, ps[0].start)
    ensures LeftInTail(c, file, p, ps, bad)
  {
  }

  lemma LostToTheEnd(c: Config, file: seq<byte>, init: nat, p: nat, ps: seq<Piece>, bad: set<nat>, a: Assembly)
    requires c.Ok() && Left(c, file, p, ps, bad)
    requires ps != [] && ps[0].start in bad && Partial(c, file, ps[0].start)
    requires var e := ReadAt(c, file, init, p); e.Eof? || (e.Bad? && e.next == BlockEnd(c, file, ps[0].start))
    ensures Records(init, Events(c, file, init, p), a) == [] == Records(init, Seen(ps, bad, init), a)
  {
    hide Rejected, Report, Intact, Linked;
    var e := ReadAt(c, file, init, p);
    AllLostFrom(c, file, p, ps, bad, init, a);
    if e.Bad? {
      assert ReadAt(c, file, init, e.next) == Eof;
      assert Events(c, file, init, p) == [e] + [];
    }
  }

  lemma AllLostFrom(c: Config, file: seq<byte>, p: nat, ps: seq<Piece>, bad: set<nat>, init: nat, a: Assembly)
    requires c.Ok() && Chain(c, p, ps) && Damaged(c, file, ps, bad, false)
    requires ps != [] && ps[0].start in bad && Partial(c, file, ps[0].start)
    ensures Records(init, Seen(ps, bad, init), a) == []
  {
    assert Damaged(c, file, ps, bad, true);
    AllLost(c, file, p, ps, bad, init, true, a);
  }

  // After a rejected header the reader goes on with the next block, whose first fragment is the next
  // one not lost with it.
  lemma {:induction false} SkipsTail(c: Config, file: seq<byte>, init: nat, p: nat, ps: seq<Piece>, bad: set<nat>)
    requires c.Ok() && LeftInTail(c, file, p, ps, bad)
    ensures Records(init, Events(c, file, init, c.BlockStart(ps[0].start) + c.blockSize), IDLE)
         == Records(init, Seen(ps[1..], bad, init), IDLE)
    decreases |ps|, 0
  {
    hide Rejected, Intact, Step, Left, Events, Chain, Damaged;
    var x, rest := ps[0], ps[1..];
    var end := c.BlockStart(x.start) + c.blockSize;
    if rest == [] {
      TailOver(c, file, p, ps, bad);
      PastEnd(c, file, init, end);
    } else {
      if SameBlock(c, x.start, rest[0].start) {
        TailSameBlock(c, file, p, ps, bad);
        BadStep(init, SeenOne(rest[0], bad, init), Seen(rest[1..], bad, init), IDLE);
        SkipsTail(c, file, init, x.End(), rest, bad);
      } else {
        TailNextBlock(c, file, p, ps, bad);
        ReadsAsSeen(c, file, init, end, rest, bad, IDLE);
      }
    }
  }

  // What is left when the first fragment is lost and the file goes on after its block.
  ghost predicate LeftInTail(c: Config, file: seq<byte>, p: nat, ps: seq<Piece>, bad: set<nat>)
    requires c.Ok()
  {
    && Chain(c, p, ps) && |file| <= ChainEnd(p, ps)
    && ps != [] && ps[0].start in bad && !Partial(c, file, ps[0].start)
    && Damaged(c, file, ps[1..], bad, TailGoesOn(c, ps, bad))
  }

  lemma TailOver(c: Config, file: seq<byte>, p: nat, ps: seq<Piece>, bad: set<nat>)
    requires c.Ok() && LeftInTail(c, file, p, ps, bad) && ps[1..] == []
    ensures |file| <= c.BlockStart(ps[0].start) + c.blockSize
  {
    hide Rejected, Intact, Damaged, Align;
    assert ChainEnd(ps[0].End(), ps[1..]) == ps[0].End();
  }

  lemma TailSameBlock(c: Config, file: seq<byte>, p: nat, ps: seq<Piece>, bad: set<nat>)
    requires c.Ok() && LeftInTail(c, file, p, ps, bad)
    requires ps[1..] != [] && SameBlock(c, ps[0].start, ps[1].start)
    ensures ps[1].start in bad && LeftInTail(c, file, ps[0].End(), ps[1..], bad)
  {
    hide Rejected, Intact, Align, Linked;
  }

  lemma TailNextBlock(c: Config, file: seq<byte>, p: nat, ps: seq<Piece>, bad: set<nat>)
    requires c.Ok() && LeftInTail(c, file, p, ps, bad)
    requires ps[1..] != [] && !SameBlock(c, ps[0].start, ps[1].start)
    ensures Left(c, file, c.BlockStart(ps[0].start) + c.blockSize, ps[1..], bad)
  {
    assert Chain(c, ps[0].End(), ps[1..]);
    assert ps[1..][0] == ps[1];
    RelinkNextBlock(c, p, ps[0], ps[1]);
    hide Rejected, Intact, Align, Linked;
    Rechain(c, ps[0].End(), c.BlockStart(ps[0].start) + c.blockSize, ps[1..]);
  }

  lemma RelinkNextBlock(c: Config, p: nat, x: Piece, y: Piece)
    requires c.Ok() && Linked(c, p, x) && Linked(c, x.End(), y) && !SameBlock(c, x.start, y.start)
    ensures Linked(c, c.BlockStart(x.start) + c.blockSize, y)
  {
    LaterBlock(c, x, y);
  }

  lemma Rechain(c: Config, p: nat, q: nat, ps: seq<Piece>)
    requires c.Ok() && Chain(c, p, ps) && ps != [] && Linked(c, q, ps[0])
    ensures Chain(c, q, ps) && ChainEnd(q, ps) == ChainEnd(p, ps)
  {
  }

  lemma PastEnd(c: Config, file: seq<byte>, init: nat, p: nat)
    requires c.Ok() && |file| <= p
    ensures Events(c, file, init, p) == []
  {
  }

  // ------------------------------------------------------------------ assembling records

  predicate AllSeen(ps: seq<Piece>, bad: set<nat>, init: nat)
    decreases |ps|
  {
    ps == [] || (SeenOne(ps[0], bad, init).Frag? && AllSeen(ps[1..], bad, init))
  }

  lemma PiecesUnfold(c: Config, p: nat, data: seq<byte>, begin: bool) returns (x: Piece, n: nat, rest: seq<Piece>)
    requires c.Ok()
    ensures n <= |data| && x.payload == data[..n] && x.kind == KindOf(begin, n == |data|)
    ensures Pieces(c, p, data, begin) == [x] + rest
    ensures rest == if n == |data| then [] else Pieces(c, x.End(), data[n..], false)
    ensures n == |data| || n > 0 || (Avail(c, p) == 0 && Avail(c, x.End()) > 0)
  {
    var ps := Pieces(c, p, data, begin);
    x, n, rest := ps[0], |ps[0].payload|, ps[1..];
    if Avail(c, p) == 0 { AvailAfterEmpty(c, p); }
  }

  lemma SeenUnfold(x: Piece, ps: seq<Piece>, bad: set<nat>, init: nat, more: seq<Event>)
    ensures Seen([x] + ps, bad, init) + more == [SeenOne(x, bad, init)] + (Seen(ps, bad, init) + more)
    ensures AllSeen([x] + ps, bad, init) <==> SeenOne(x, bad, init).Frag? && AllSeen(ps, bad, init)
  {
    assert ([x] + ps)[1..] == ps;
  }

  // The later fragments of a record whose start is lost yield nothing.
  lemma {:induction false} TailIgnored(c: Config, init: nat, p: nat, data: seq<byte>, bad: set<nat>, more: seq<Event>)
    requires c.Ok()
    ensures Records(init, Seen(Pieces(c, p, data, false), bad, init) + more, IDLE) == Records(init, more, IDLE)
    decreases |data|, if Avail(c, p) == 0 then 1 else 0
  {
    var x, n, rest := PiecesUnfold(c, p, data, false);
    SeenUnfold(x, rest, bad, init, more);
    var e := SeenOne(x, bad, init);
    assert Step(init, IDLE, e).Continue? && Step(init, IDLE, e).state == IDLE;
    RecordsStep(init, e, Seen(rest, bad, init) + more, IDLE, []);
    hide Step, Pieces, Records, Avail;
    if n < |data| {
      TailIgnored(c, init, x.End(), data[n..], bad, more);
    } else {
      assert Seen(rest, bad, init) + more == more;
    }
  }

  // The later fragments of a record complete it when none of them is lost.
  lemma {:induction false} TailAssembles(c: Config, init: nat, p: nat, data: seq<byte>, bad: set<nat>,
                                         scratch: seq<byte>, offset: nat, more: seq<Event>)
    requires c.Ok()
    ensures Records(init, Seen(Pieces(c, p, data, false), bad, init) + more, Assembly(false, true, scratch, offset)) ==
              (if AllSeen(Pieces(c, p, data, false), bad, init) then [Record(scratch + data, offset)] else [])
              + Records(init, more, IDLE)
    decreases |data|, if Avail(c, p) == 0 then 1 else 0
  {
    hide Step, Pieces, Records, Avail, SeenOne, Seen, AllSeen, KindOf;
    var a := Assembly(false, true, scratch, offset);
    var x, n, rest := PiecesUnfold(c, p, data, false);
    SeenUnfold(x, rest, bad, init, more);
    var e := SeenOne(x, bad, init);
    RecordsStep(init, e, Seen(rest, bad, init) + more, a, []);
    TailStep(init, x, n == |data|, bad, scratch, offset);
    SeenNone(bad, init, more);
    if n < |data| {
      if e.Bad? {
        TailIgnored(c, init, x.End(), data[n..], bad, more);
      } else {
        AppendSplit(scratch, data, n);
        TailAssembles(c, init, x.End(), data[n..], bad, scratch + data[..n], offset, more);
      }
    } else {
      assert data[..n] == data;
    }
  }

  lemma AppendSplit(s: seq<byte>, data: seq<byte>, n: nat)
    requires n <= |data|
    ensures s + data[..n] + data[n..] == s + data
  {
  }

  lemma SeenNone(bad: set<nat>, init: nat, more: seq<Event>)
    ensures AllSeen([], bad, init) && Seen([], bad, init) + more == more
  {
  }

  lemma TailStep(init: nat, x: Piece, end: bool, bad: set<nat>, scratch: seq<byte>, offset: nat)
    requires x.kind == KindOf(false, end)
    ensures var a, e := Assembly(false, true, scratch, offset), SeenOne(x, bad, init);
            && (e.Frag? || e.Bad?)
            && if e.Bad? then Step(init, a, e).Continue? && Step(init, a, e).state == IDLE
               else if end then Step(init, a, e) == Return(Record(scratch + x.payload, offset), [])
               else Step(init, a, e) == Continue(Assembly(false, true, scratch + x.payload, offset), [])
  {
  }

  lemma RecordAssembles(c: Config, init: nat, p: nat, data: seq<byte>, bad: set<nat>, more: seq<Event>)
    requires c.Ok()
    ensures Records(init, Seen(Pieces(c, p, data, true), bad, init) + more, IDLE) ==
              (if AllSeen(Pieces(c, p, data, true), bad, init) then [Record(data, Pieces(c, p, data, true)[0].start)]
               else [])
              + Records(init, more, IDLE)
  {
    var x, n, rest := PiecesUnfold(c, p, data, true);
    SeenUnfold(x, rest, bad, init, more);
    var e := SeenOne(x, bad, init);
    RecordsStep(init, e, Seen(rest, bad, init) + more, IDLE, []);
    assert if e.Bad? then Step(init, IDLE, e).Continue? && Step(init, IDLE, e).state == IDLE
           else if n == |data| then Step(init, IDLE, e) == Return(Record(data[..n], x.start), [])
           else Step(init, IDLE, e) == Continue(Assembly(false, true, data[..n], x.start), []);
    hide Step, Pieces, Records, Avail;
    if n < |data| {
      if e.Bad? {
        TailIgnored(c, init, x.End(), data[n..], bad, more);
      } else {
        assert data[..n] + data[n..] == data;
        TailAssembles(c, init, x.End(), data[n..], bad, data[..n], x.start, more);
      }
    } else {
      assert data[..n] == data;
      assert Seen(rest, bad, init) + more == more;
    }
  }

  lemma {:induction false} AllSeenIsWhole(c: Config, p: nat, ps: seq<Piece>, bad: set<nat>, init: nat)
    requires c.Ok() && Chain(c, p, ps)
    ensures AllSeen(ps, bad, init) <==> Whole(ps, bad) && (ps == [] || ps[0].start >= init)
    decreases |ps|
  {
    if ps != [] {
      AlignFits(c, ps[0].End());
      AllSeenIsWhole(c, ps[0].End(), ps[1..], bad, init);
      assert ps[1..] != [] ==> ps[1].start >= ps[0].start;
      assert Whole(ps, bad) <==> ps[0].start !in bad && Whole(ps[1..], bad) by {
        assert forall i :: 0 < i < |ps| ==> ps[i] == ps[1..][i - 1];
      }
    }
  }

  lemma {:induction false} SeenAppend(ps: seq<Piece>, qs: seq<Piece>, bad: set<nat>, init: nat)
    ensures Seen(ps + qs, bad, init) == Seen(ps, bad, init) + Seen(qs, bad, init)
    decreases |ps|
  {
    if ps == [] {
      assert ps + qs == qs;
    } else {
      SeenAppend(ps[1..], qs, bad, init);
      assert (ps + qs)[1..] == ps[1..] + qs;
    }
  }

  lemma {:induction false} RecordsAssemble(c: Config, init: nat, p: nat, records: seq<seq<byte>>, bad: set<nat>)
    requires c.Ok()
    ensures Records(init, Seen(AllPieces(c, p, records), bad, init), IDLE) == Survivors(c, p, records, bad, init)
    decreases |records|
  {
    if records != [] {
      var ps, q := Pieces(c, p, records[0], true), RecordEnd(c, p, records[0]);
      SeenAppend(ps, AllPieces(c, q, records[1..]), bad, init);
      RecordAssembles(c, init, p, records[0], bad, Seen(AllPieces(c, q, records[1..]), bad, init));
      RecordsAssemble(c, init, q, records[1..], bad);
      PiecesChain(c, p, records[0], true);
      AllSeenIsWhole(c, p, ps, bad, init);
    }
  }

  // ------------------------------------------------------------------ the initial offset

  // Resynchronising only silences reports.
  lemma {:induction false} ResyncChangesNothing(init: nat, es: seq<Event>)
    ensures Records(init, es, IDLE.(resync := true)) == Records(init, es, IDLE)
    decreases |es|
  {
    hide Report;
    if es != [] {
      ResyncChangesNothing(init, es[1..]);
    }
  }

  // Index of the first fragment at or after a position.
  function FirstFrom(ps: seq<Piece>, s: nat): (k: nat)
    ensures k <= |ps| && (k < |ps| ==> ps[k].start >= s) && forall i :: 0 <= i < k ==> ps[i].start < s
    decreases |ps|
  {
    if ps == [] || ps[0].start >= s then 0 else 1 + FirstFrom(ps[1..], s)
  }

  // Fragments never straddle a block boundary, so reading can begin at one.
  lemma {:induction false} StartAtBlock(c: Config, file: seq<byte>, p: nat, ps: seq<Piece>,
                                        bad: set<nat>, inTail: bool, s: nat)
    requires c.Ok() && Chain(c, p, ps) && Damaged(c, file, ps, bad, inTail) && |file| <= ChainEnd(p, ps)
    requires p <= s && s % c.blockSize == 0
    requires inTail ==> ps != [] && ps[0].start < s
    ensures Left(c, file, s, ps[FirstFrom(ps, s)..], bad)
    decreases |ps|
  {
    hide Rejected, Intact;
    AlignFits(c, s);
    if ps != [] && ps[0].start < s {
      var x := ps[0];
      EndsInBlock(c, p, x, s);
      assert TailGoesOn(c, ps, bad) ==> ps[1].start < s by {
        if TailGoesOn(c, ps, bad) {
          SameBlockBefore(c, x.start, ps[1].start, s);
        }
      }
      StartAtBlock(c, file, x.End(), ps[1..], bad, TailGoesOn(c, ps, bad), s);
      assert ps[FirstFrom(ps, s)..] == ps[1..][FirstFrom(ps[1..], s)..];
    } else if ps != [] {
      RelinkAtBlock(c, p, ps[0], s);
      Rechain(c, p, s, ps);
    }
  }

  lemma BlockMultiple(c: Config, s: nat)
    requires c.Ok() && s % c.blockSize == 0
    ensures s == c.blockSize * (s / c.blockSize)
  {
  }

  // A position before a block boundary has its whole block before it.
  lemma BlockBefore(c: Config, p: nat, s: nat)
    requires c.Ok() && s % c.blockSize == 0 && p < s
    ensures c.BlockStart(p) + c.blockSize <= s
  {
    var b := c.blockSize;
    assert p == b * (p / b) + p % b && s == b * (s / b);
    if p / b >= s / b {
      MulMonotone(b, s / b, p / b);
    }
    MulMonotone(b, p / b + 1, s / b);
    assert b * (p / b + 1) == b * (p / b) + b;
  }

  lemma EndsInBlock(c: Config, p: nat, x: Piece, s: nat)
    requires c.Ok() && Linked(c, p, x) && s % c.blockSize == 0 && x.start < s
    ensures x.End() <= s
  {
    BlockBefore(c, x.start, s);
  }

  lemma SameBlockBefore(c: Config, p: nat, q: nat, s: nat)
    requires c.Ok() && s % c.blockSize == 0 && p < s && SameBlock(c, p, q)
    ensures q < s
  {
    BlockBefore(c, p, s);
  }

  lemma RelinkAtBlock(c: Config, p: nat, x: Piece, s: nat)
    requires c.Ok() && Linked(c, p, x) && p <= s <= x.start && s % c.blockSize == 0
    ensures Linked(c, s, x)
  {
    AlignFits(c, p);
    if p < s {
      BlockBefore(c, p, s);
    }
  }

  lemma InitialBlockFacts(c: Config, init: nat, x: Piece)
    requires c.Ok() && x.start % c.blockSize + HEADER_SIZE <= c.blockSize
    ensures InitialBlock(c, init) % c.blockSize == 0
    ensures x.start < InitialBlock(c, init) ==> x.start < init
  {
    BlockStartAligned(c, init);
    ModAdd(c, c.BlockStart(init), c.blockSize);
    var s := InitialBlock(c, init);
    if init <= x.start < s {
      ModAdd(c, init, x.start - init);
    }
  }

  lemma {:induction false} SkippedUnseen(c: Config, p: nat, ps: seq<Piece>, bad: set<nat>, init: nat)
    requires c.Ok() && Chain(c, p, ps)
    ensures Records(init, Seen(ps, bad, init), IDLE)
         == Records(init, Seen(ps[FirstFrom(ps, InitialBlock(c, init))..], bad, init), IDLE)
    decreases |ps|
  {
    var s := InitialBlock(c, init);
    if ps != [] && ps[0].start < s {
      InitialBlockFacts(c, init, ps[0]);
      BadStep(init, SeenOne(ps[0], bad, init), Seen(ps[1..], bad, init), IDLE);
      SkippedUnseen(c, ps[0].End(), ps[1..], bad, init);
      assert ps[FirstFrom(ps, s)..] == ps[1..][FirstFrom(ps[1..], s)..];
    } else {
      assert ps[0..] == ps;
    }
  }

  /** No spliced records.  Whatever block tails are lost, and wherever reading is asked to start, the reader
      returns exactly the records that lost no fragment and start at or after the initial offset, each with
      the offset of its first fragment.
   */
  lemma RecoversExactly(c: Config, records: seq<seq<byte>>, file: seq<byte>, bad: set<nat>, init: nat)
    requires c.Ok() && |file| <= |LogBytes(c, records)|
    requires Damaged(c, file, AllPieces(c, 0, records), bad, false)
    ensures Records(init, Events(c, file, init, InitialBlock(c, init)), IDLE.(resync := init > 0))
         == Survivors(c, 0, records, bad, init)
  {
    var ps, s := AllPieces(c, 0, records), InitialBlock(c, init);
    AllPiecesChain(c, 0, records);
    BytesLength(c, 0, ps);
    InitialBlockFacts(c, init, Piece(0, FULL_TYPE, []));
    StartAtBlock(c, file, 0, ps, bad, false, s);
    ResyncChangesNothing(init, Events(c, file, init, s));
    ReadsAsSeen(c, file, init, s, ps[FirstFrom(ps, s)..], bad, IDLE);
    SkippedUnseen(c, 0, ps, bad, init);
    RecordsAssemble(c, init, 0, records, bad);
  }
}
