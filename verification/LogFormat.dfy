/** The log file format: records cut into fragments, none of which crosses a block boundary. */
module LogFormat {
  import opened Coding

  // A checksum of 4 bytes, a length of 2 and a type of 1.
  const HEADER_SIZE: nat := 7

  const FULL_TYPE: byte := 1
  const FIRST_TYPE: byte := 2
  const MIDDLE_TYPE: byte := 3
  const LAST_TYPE: byte := 4

  // The block size, whether the reader verifies checksums, and the checksum of a type and payload.
  datatype Config = Config(blockSize: nat, checksum: bool, crc: (byte, seq<byte>) -> nat)
  {
    predicate Ok() { HEADER_SIZE < blockSize <= HEADER_SIZE + 0xffff }

    // Start of the block that holds position p.
    function BlockStart(p: nat): nat
      requires blockSize > 0
    {
      p - p % blockSize
    }
  }

  lemma ModAdd(c: Config, p: nat, n: nat)
    requires c.Ok() && p % c.blockSize + n <= c.blockSize
    ensures p % c.blockSize + n < c.blockSize ==>
              (p + n) % c.blockSize == p % c.blockSize + n && c.BlockStart(p + n) == c.BlockStart(p)
    ensures p % c.blockSize + n == c.blockSize ==> (p + n) % c.blockSize == 0
  {
    var b := c.blockSize;
    assert p == b * (p / b) + p % b;
    if p % b + n < b {
      DivModUnique(p + n, b, p / b, p % b + n);
    } else {
      assert b * (p / b + 1) == b * (p / b) + b;
      DivModUnique(p + n, b, p / b + 1, 0);
    }
  }

  lemma BlockStartAligned(c: Config, p: nat)
    requires c.Ok()
    ensures c.BlockStart(p) >= 0 && c.BlockStart(p) % c.blockSize == 0
  {
    var b := c.blockSize;
    assert p == b * (p / b) + p % b;
    assert p / b >= 0;
    MulNonNegative(b, p / b);
    DivModUnique(p - p % b, b, p / b, 0);
  }

  lemma MulNonNegative(a: nat, b: nat)
    ensures a * b >= 0
  {
  }

  // Where the next header goes: a header never starts in the last six bytes of a block.
  function Align(c: Config, p: nat): (a: nat)
    requires c.Ok()
  {
    if c.blockSize - p % c.blockSize < HEADER_SIZE then p - p % c.blockSize + c.blockSize else p
  }

  lemma AlignFits(c: Config, p: nat)
    requires c.Ok()
    ensures p <= Align(c, p) < p + HEADER_SIZE && Align(c, p) % c.blockSize + HEADER_SIZE <= c.blockSize
    ensures Align(c, p) == p || (Align(c, p) % c.blockSize == 0 && Align(c, p) == c.BlockStart(p) + c.blockSize)
    ensures Align(c, Align(c, p)) == Align(c, p)
  {
    if Align(c, p) != p {
      ModAdd(c, p, c.blockSize - p % c.blockSize);
    }
  }

  // A fragment with its header at start.
  datatype Piece = Piece(start: nat, kind: byte, payload: seq<byte>)
  {
    function End(): nat { start + HEADER_SIZE + |payload| }
  }

  // The payload a fragment can take when the next header goes at Align(p).
  function Avail(c: Config, p: nat): (n: nat)
    requires c.Ok()
  {
    AlignFits(c, p);
    c.blockSize - Align(c, p) % c.blockSize - HEADER_SIZE
  }

  function KindOf(begin: bool, end: bool): byte {
    if begin && end then FULL_TYPE else if begin then FIRST_TYPE else if end then LAST_TYPE else MIDDLE_TYPE
  }

  lemma AvailAfterEmpty(c: Config, p: nat)
    requires c.Ok() && Avail(c, p) == 0
    ensures Avail(c, Align(c, p) + HEADER_SIZE) > 0
  {
    AlignFits(c, p);
    ModAdd(c, Align(c, p), HEADER_SIZE);
  }

  // The fragments of a record (or of its tail) written from position p.
  function Pieces(c: Config, p: nat, data: seq<byte>, begin: bool): (ps: seq<Piece>)
    requires c.Ok()
    ensures |ps| > 0
    decreases |data|, if Avail(c, p) == 0 then 1 else 0
  {
    var n := if |data| < Avail(c, p) then |data| else Avail(c, p);
    var piece := Piece(Align(c, p), KindOf(begin, n == |data|), data[..n]);
    if n == |data| then [piece]
    else
      assert Avail(c, p) == 0 ==> Avail(c, piece.End()) > 0 by {
        if Avail(c, p) == 0 { AvailAfterEmpty(c, p); }
      }
      [piece] + Pieces(c, piece.End(), data[n..], false)
  }

  function RecordEnd(c: Config, p: nat, data: seq<byte>): nat
    requires c.Ok()
  {
    ChainEnd(p, Pieces(c, p, data, true))
  }

  // The fragments of a list of records written from position p.
  function AllPieces(c: Config, p: nat, records: seq<seq<byte>>): seq<Piece>
    requires c.Ok()
    decreases |records|
  {
    if records == [] then []
    else Pieces(c, p, records[0], true) + AllPieces(c, RecordEnd(c, p, records[0]), records[1..])
  }

  // ------------------------------------------------------------------ bytes

  function Header(c: Config, kind: byte, payload: seq<byte>): (h: seq<byte>)
    ensures |h| == HEADER_SIZE
  {
    Fixed32(c.crc(kind, payload)) + [|payload| % 256, |payload| / 256 % 256, kind]
  }

  function Zeros(n: int): (z: seq<byte>)
    ensures |z| == if n < 0 then 0 else n
  {
    if n <= 0 then [] else [0] + Zeros(n - 1)
  }

  // A physical record: header and payload.
  function Physical(c: Config, kind: byte, payload: seq<byte>): (r: seq<byte>)
    ensures |r| == HEADER_SIZE + |payload|
  {
    Header(c, kind, payload) + payload
  }

  // The bytes of fragments written from position p, block trailers filled with zeros.
  function BytesOf(c: Config, p: nat, ps: seq<Piece>): seq<byte>
    decreases |ps|
  {
    if ps == [] then []
    else Zeros(ps[0].start - p) + Physical(c, ps[0].kind, ps[0].payload) + BytesOf(c, ps[0].End(), ps[1..])
  }

  // A record, or what is left of it, written from position p.
  function TailBytes(c: Config, p: nat, data: seq<byte>, begin: bool): seq<byte>
    requires c.Ok()
  {
    BytesOf(c, p, Pieces(c, p, data, begin))
  }

  function RecordBytes(c: Config, p: nat, record: seq<byte>): seq<byte>
    requires c.Ok()
  {
    TailBytes(c, p, record, true)
  }

  // A log that holds these records.
  function LogBytes(c: Config, records: seq<seq<byte>>): seq<byte>
    requires c.Ok()
  {
    BytesOf(c, 0, AllPieces(c, 0, records))
  }

  // ------------------------------------------------------------------ layout

  // Each fragment starts where the one before it allows and stays inside its block.
  ghost predicate Chain(c: Config, p: nat, ps: seq<Piece>)
    requires c.Ok()
    decreases |ps|
  {
    ps != [] ==> Linked(c, p, ps[0]) && Chain(c, ps[0].End(), ps[1..])
  }

  predicate Linked(c: Config, p: nat, piece: Piece)
    requires c.Ok()
  {
    && piece.start == Align(c, p) && piece.start % c.blockSize + HEADER_SIZE + |piece.payload| <= c.blockSize
    && FULL_TYPE <= piece.kind <= LAST_TYPE
  }

  function ChainEnd(p: nat, ps: seq<Piece>): nat
    decreases |ps|
  {
    if ps == [] then p else ChainEnd(ps[0].End(), ps[1..])
  }

  lemma {:induction false} ChainAppend(c: Config, p: nat, ps: seq<Piece>, qs: seq<Piece>)
    requires c.Ok() && Chain(c, p, ps) && Chain(c, ChainEnd(p, ps), qs)
    ensures Chain(c, p, ps + qs) && ChainEnd(p, ps + qs) == ChainEnd(ChainEnd(p, ps), qs)
    decreases |ps|
  {
    if ps == [] {
      assert ps + qs == qs;
    } else {
      ChainAppend(c, ps[0].End(), ps[1..], qs);
      assert (ps + qs)[1..] == ps[1..] + qs;
    }
  }

  lemma {:induction false} PiecesChain(c: Config, p: nat, data: seq<byte>, begin: bool)
    requires c.Ok()
    ensures Chain(c, p, Pieces(c, p, data, begin))
    decreases |data|, if Avail(c, p) == 0 then 1 else 0
  {
    AlignFits(c, p);
    var ps := Pieces(c, p, data, begin);
    var n := |ps[0].payload|;
    if n < |data| {
      if Avail(c, p) == 0 { AvailAfterEmpty(c, p); }
      PiecesChain(c, ps[0].End(), data[n..], false);
      assert ps[1..] == Pieces(c, ps[0].End(), data[n..], false);
    } else {
      assert ps[1..] == [];
    }
  }

  lemma {:induction false} AllPiecesChain(c: Config, p: nat, records: seq<seq<byte>>)
    requires c.Ok()
    ensures Chain(c, p, AllPieces(c, p, records))
    decreases |records|
  {
    if records != [] {
      PiecesChain(c, p, records[0], true);
      AllPiecesChain(c, RecordEnd(c, p, records[0]), records[1..]);
      ChainAppend(c, p, Pieces(c, p, records[0], true), AllPieces(c, RecordEnd(c, p, records[0]), records[1..]));
    }
  }

  lemma {:induction false} BytesAppend(c: Config, p: nat, ps: seq<Piece>, qs: seq<Piece>)
    ensures BytesOf(c, p, ps + qs) == BytesOf(c, p, ps) + BytesOf(c, ChainEnd(p, ps), qs)
    decreases |ps|
  {
    if ps == [] {
      assert ps + qs == qs;
    } else {
      BytesAppend(c, ps[0].End(), ps[1..], qs);
      assert (ps + qs)[1..] == ps[1..] + qs;
      ConcatAssoc(Zeros(ps[0].start - p) + Physical(c, ps[0].kind, ps[0].payload),
                  BytesOf(c, ps[0].End(), ps[1..]), BytesOf(c, ChainEnd(p, ps), qs));
    }
  }

  lemma ConcatAssoc(a: seq<byte>, b: seq<byte>, d: seq<byte>)
    ensures a + (b + d) == a + b + d
  {
  }

  lemma {:induction false} BytesLength(c: Config, p: nat, ps: seq<Piece>)
    requires c.Ok() && Chain(c, p, ps)
    ensures ChainEnd(p, ps) >= p && |BytesOf(c, p, ps)| == ChainEnd(p, ps) - p
    decreases |ps|
  {
    if ps != [] {
      AlignFits(c, p);
      BytesLength(c, ps[0].End(), ps[1..]);
    }
  }

  // The fragment's header and payload are in the file at its position.
  predicate Intact(c: Config, file: seq<byte>, piece: Piece) {
    && piece.End() <= |file|
    && file[piece.start..piece.End()] == Physical(c, piece.kind, piece.payload)
  }

  lemma MiddleSlice(a: seq<byte>, b: seq<byte>, d: seq<byte>)
    ensures (a + b + d)[|a|..|a| + |b|] == b
  {
  }

  // Writing fragments from the end of a prefix puts each of them in the file.
  lemma {:induction false} WrittenIntact(c: Config, before: seq<byte>, ps: seq<Piece>, i: nat)
    requires c.Ok() && Chain(c, |before|, ps) && i < |ps|
    ensures Intact(c, before + BytesOf(c, |before|, ps), ps[i])
    decreases |ps|
  {
    hide Physical;
    var p, x := |before|, ps[0];
    AlignFits(c, p);
    var body := Physical(c, x.kind, x.payload);
    var pre := before + Zeros(x.start - p);
    var rest := BytesOf(c, x.End(), ps[1..]);
    assert before + BytesOf(c, p, ps) == pre + body + rest;
    if i == 0 {
      MiddleSlice(pre, body, rest);
    } else {
      WrittenIntact(c, pre + body, ps[1..], i - 1);
    }
  }
}
