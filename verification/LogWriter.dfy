/** The log writer: appends records to a file as fragments. */
module LogWriter {
  import opened Coding
  import opened LogFormat
  import opened Wrappers

  class Writer {
    const c: Config
    // How the file behaves: the n-th call of it succeeds, or stores so many bytes and reports an error.
    const faults: nat -> Option<nat>
    var calls: nat
    var dest: seq<byte>
    var blockOffset: nat       // where in its block the writer takes itself to be
    ghost var pos: nat         // where the writer takes the end of the file to be
    ghost var failures: nat    // calls that failed

    // As long as no call failed, the writer knows where the file ends.
    ghost predicate Valid()
      reads this
    {
      && c.Ok() && blockOffset <= c.blockSize && pos % c.blockSize == blockOffset % c.blockSize
      && (failures == 0 ==> pos == |dest|)
    }

    // No call fails from now on.
    ghost predicate Healthy()
      reads this`calls
    {
      forall n :: n >= calls ==> faults(n).None?
    }

    lemma ConfigOk()
      requires Valid()
      ensures c.Ok()
    {
    }

    // A writer for an empty file.
    constructor (c: Config, faults: nat -> Option<nat>)
      requires c.Ok()
      ensures Valid() && this.c == c && this.faults == faults && dest == [] && pos == 0 && failures == 0 && calls == 0
      ensures blockOffset == 0
    {
      this.c, this.faults, calls := c, faults, 0;
      dest := [];
      blockOffset, pos, failures := 0, 0, 0;
      new;
      assert 0 % c.blockSize == 0;
    }

    // A writer that goes on with an existing file.
    constructor Reopen(c: Config, faults: nat -> Option<nat>, dest: seq<byte>)
      requires c.Ok()
      ensures Valid() && this.c == c && this.faults == faults
      ensures this.dest == dest && pos == |dest| && failures == 0 && calls == 0
    {
      this.c, this.faults, calls := c, faults, 0;
      this.dest := dest;
      blockOffset, pos, failures := |dest| % c.blockSize, |dest|, 0;
      new;
      SmallMod(blockOffset, c.blockSize);
    }

    // One call of the file: Append, or Flush with nothing to store.
    method Store(bytes: seq<byte>) returns (ok: bool)
      modifies this`calls, this`dest, this`failures
      ensures calls == old(calls) + 1 && (ok <==> faults(old(calls)).None?)
      ensures ok ==> dest == old(dest) + bytes && failures == old(failures)
      ensures !ok ==> failures == old(failures) + 1
      ensures !ok ==> var n := faults(old(calls)).value;
                      dest == old(dest) + if n <= |bytes| then bytes[..n] else bytes
      ensures old(Healthy()) ==> ok && Healthy()
    {
      match faults(calls) {
        case None =>
          dest := dest + bytes;
          ok := true;
        case Some(n) =>
          dest := dest + bytes[..if n < |bytes| then n else |bytes|];
          failures := failures + 1;
          ok := false;
      }
      calls := calls + 1;
    }

    /** AddRecord.  It succeeds exactly if no call failed but one that fills the end of a block.  Without a failed call
        the file grows by exactly the bytes of the record, laid out from where the writer takes the file to end; that is
        where it ends as long as no call has failed before.
     */
    method AddRecord(slice: seq<byte>) returns (ok: bool)
      requires Valid()
      modifies this
      ensures Valid() && failures >= old(failures) && (!ok ==> failures > old(failures))
      ensures failures == old(failures) ==>
                dest == old(dest) + RecordBytes(c, old(pos), slice) &&
                    pos == old(pos) + |RecordBytes(c, old(pos), slice)|
      ensures old(Healthy()) ==> failures == old(failures)
      ensures ok <==> forall k :: old(calls) + Trailers(c, old(blockOffset)) <= k < calls ==> faults(k).None?
      ensures !ok ==> calls > old(calls) + Trailers(c, old(blockOffset)) && faults(calls - 1).Some?
      ensures faults(old(calls)) == Some(0) && old(blockOffset) + HEADER_SIZE + |slice| <= c.blockSize ==>
                !ok && dest == old(dest) && pos == old(pos) + HEADER_SIZE + |slice| && calls == old(calls) + 1
    {
      hide TailBytes, Align, Avail, Valid, Healthy;
      ConfigOk();
      var ptr, begin := 0, true;
      ghost var total, end := dest + RecordBytes(c, pos, slice), pos + |RecordBytes(c, pos, slice)|;
      assert slice[0..] == slice;
      ok := true;
      ghost var from := calls + Trailers(c, blockOffset);
      while true
        invariant Valid() && 0 <= ptr <= |slice| && failures >= old(failures)
        invariant failures == old(failures) ==> total == dest + TailBytes(c, pos, slice[ptr..], begin)
                                                && end == pos + |TailBytes(c, pos, slice[ptr..], begin)|
        invariant old(Healthy()) ==> Healthy() && failures == old(failures)
        invariant (ptr == 0 && calls == old(calls) && dest == old(dest) && pos == old(pos) &&
                   blockOffset == old(blockOffset))
                  || !(faults(old(calls)) == Some(0) && old(blockOffset) + HEADER_SIZE + |slice| <= c.blockSize)
        invariant if begin then calls == old(calls) && blockOffset == old(blockOffset)
                  else blockOffset == c.blockSize && calls >= from
        invariant forall k :: from <= k < calls ==> faults(k).None?
        decreases |slice| - ptr, if Avail(c, pos) == 0 then 1 else 0
      {
        var n;
        ok, n := AddFragment(slice[ptr..], begin);
        assert slice[ptr..][n..] == slice[ptr + n..];
        ptr := ptr + n;
        begin := false;
        if !ok || ptr == |slice| {
          break;
        }
      }
    }

    // One round of AddRecord: writes as much of the data as the block takes.
    method AddFragment(data: seq<byte>, begin: bool) returns (ok: bool, fragmentLength: nat)
      requires Valid()
      modifies this
      ensures Valid() && fragmentLength <= |data| && failures >= old(failures) && (!ok ==> failures > old(failures))
      ensures failures == old(failures) ==> var rest := if fragmentLength == |data| then []
                                                        else TailBytes(c, pos, data[fragmentLength..], false);
                old(dest) + TailBytes(c, old(pos), data, begin) == dest + rest
                && old(pos) + |TailBytes(c, old(pos), data, begin)| == pos + |rest|
      ensures fragmentLength < |data| ==> blockOffset == c.blockSize
      ensures var t := Trailers(c, old(blockOffset));
              && (ok <==> forall k :: old(calls) + t <= k < old(calls) + t + 3 ==> faults(k).None?)
              && (ok ==> calls == old(calls) + t + 3) && (!ok ==> calls > old(calls) + t && faults(calls - 1).Some?)
      ensures fragmentLength == |data| || fragmentLength > 0 || (Avail(c, old(pos)) == 0 < Avail(c, pos))
      ensures old(Healthy()) ==> Healthy() && failures == old(failures)
      ensures faults(old(calls)) == Some(0) && old(blockOffset) + HEADER_SIZE + |data| <= c.blockSize ==>
                !ok && fragmentLength == |data| && dest == old(dest) && pos == old(pos) + HEADER_SIZE + |data|
                && calls == old(calls) + 1
    {
      hide TailBytes, Align, Avail, Physical, Zeros;
      ghost var p := pos;
      var left := |data|;
      var leftover := c.blockSize - blockOffset;
      if leftover < HEADER_SIZE {
        SwitchBlock(leftover);
      } else {
        TrailerStep(c, pos, blockOffset);
        assert dest + Zeros(0) == dest;
      }
      AvailFormula(c, p);
      var avail := c.blockSize - blockOffset - HEADER_SIZE;
      fragmentLength := if left < avail then left else avail;
      var end := left == fragmentLength;
      var kind;
      if begin && end {
        kind := FULL_TYPE;
      } else if begin {
        kind := FIRST_TYPE;
      } else if end {
        kind := LAST_TYPE;
      } else {
        kind := MIDDLE_TYPE;
      }
      assert kind == KindOf(begin, end);
      FragmentStep(c, p, old(dest), data, begin);
      ok := EmitPhysicalRecord(kind, data[..fragmentLength]);
    }

    // Switch to a new block, filling the trailer.  Whether that succeeded is not looked at.
    method SwitchBlock(leftover: nat)
      requires Valid() && leftover == c.blockSize - blockOffset < HEADER_SIZE
      modifies this
      ensures Valid() && blockOffset == 0 == pos % c.blockSize && pos == Align(c, old(pos)) && failures >= old(failures)
      ensures failures == old(failures) ==> dest == old(dest) + Zeros(Align(c, old(pos)) - old(pos))
      ensures old(Healthy()) ==> Healthy() && failures == old(failures)
      ensures calls == old(calls) + if leftover > 0 then 1 else 0
    {
      TrailerStep(c, pos, blockOffset);
      if leftover > 0 {
        var _ := Store(Zeros(leftover));
      }
      blockOffset := 0;
      pos := pos + leftover;
    }

    // The calls for one physical record: header, payload, and the flush.
    method StoreRecord(buf: seq<byte>, payload: seq<byte>) returns (ok: bool)
      modifies this`calls, this`dest, this`failures
      ensures failures == old(failures) + if ok then 0 else 1
      ensures ok <==> forall k :: old(calls) <= k < old(calls) + 3 ==> faults(k).None?
      ensures calls <= old(calls) + 3 && forall k :: old(calls) <= k < calls - 1 ==> faults(k).None?
      ensures if ok then calls == old(calls) + 3 else calls > old(calls) && faults(calls - 1).Some?
      ensures ok ==> dest == old(dest) + (buf + payload)
      ensures faults(old(calls)) == Some(0) ==> !ok && dest == old(dest) && calls == old(calls) + 1
      ensures old(Healthy()) ==> ok && Healthy()
    {
      ghost var before := dest;
      ok := Store(buf);
      if ok {
        ok := Store(payload);
        if ok {
          assert dest == before + (buf + payload);
          ok := Store([]);
        }
      }
    }

    // The block offset moves on whether the bytes were stored or not.
    method EmitPhysicalRecord(kind: byte, payload: seq<byte>) returns (ok: bool)
      requires Valid() && blockOffset + HEADER_SIZE + |payload| <= c.blockSize && blockOffset == pos % c.blockSize
      modifies this
      ensures Valid() && pos == old(pos) + HEADER_SIZE + |payload|
      ensures blockOffset == old(blockOffset) + HEADER_SIZE + |payload|
      ensures failures == old(failures) + if ok then 0 else 1
      ensures ok <==> forall k :: old(calls) <= k < old(calls) + 3 ==> faults(k).None?
      ensures calls <= old(calls) + 3 && forall k :: old(calls) <= k < calls - 1 ==> faults(k).None?
      ensures if ok then calls == old(calls) + 3 else calls > old(calls) && faults(calls - 1).Some?
      ensures failures == old(failures) ==> dest == old(dest) + Physical(c, kind, payload)
      ensures faults(old(calls)) == Some(0) ==> !ok && dest == old(dest) && calls == old(calls) + 1
      ensures old(Healthy()) ==> Healthy() && failures == old(failures)
    {
      // The header: checksum, length in two bytes, type
      var buf := Fixed32(c.crc(kind, payload)) + [|payload| % 256, |payload| / 256 % 256, kind];
      ModAdd(c, pos, HEADER_SIZE + |payload|);
      SmallMod(blockOffset + HEADER_SIZE + |payload|, c.blockSize);
      ok := StoreRecord(buf, payload);
      blockOffset := blockOffset + HEADER_SIZE + |payload|;
      pos := pos + HEADER_SIZE + |payload|;
    }
  }

  // Calls that fill the end of a block; only the first fragment of a record may have one before it.
  function Trailers(c: Config, blockOffset: nat): nat {
    if 0 < c.blockSize - blockOffset < HEADER_SIZE then 1 else 0
  }

  lemma SmallMod(x: nat, b: nat)
    requires b > 0 && x <= b
    ensures x < b ==> x % b == x
    ensures x == b ==> x % b == 0
  {
    if x == b {
      DivModUnique(x, b, 1, 0);
    } else {
      DivModUnique(x, b, 0, x);
    }
  }

  // The offset in the block, which may also stand at the very end of a full block, decides alignment.
  lemma TrailerStep(c: Config, p: nat, offset: nat)
    requires c.Ok() && offset <= c.blockSize && p % c.blockSize == offset % c.blockSize
    ensures Zeros(0) == []
    ensures var leftover := c.blockSize - offset;
            if leftover < HEADER_SIZE then Align(c, p) == p + leftover && Align(c, p) % c.blockSize == 0
            else Align(c, p) == p && p % c.blockSize == offset
  {
    SmallMod(offset, c.blockSize);
    AlignFits(c, p);
  }

  lemma AvailFormula(c: Config, p: nat)
    requires c.Ok()
    ensures Avail(c, p) == c.blockSize - Align(c, p) % c.blockSize - HEADER_SIZE
    ensures |Zeros(Align(c, p) - p)| == Align(c, p) - p
  {
    AlignFits(c, p);
  }

  // One round of the loop, from position p of a file that so far is before.
  lemma FragmentStep(c: Config, p: nat, before: seq<byte>, data: seq<byte>, begin: bool)
    requires c.Ok()
    ensures var n := if |data| < Avail(c, p) then |data| else Avail(c, p);
            var q := Align(c, p) + HEADER_SIZE + n;
            var next := before + Zeros(Align(c, p) - p) + Physical(c, KindOf(begin, n == |data|), data[..n]);
            var rest := if n == |data| then [] else TailBytes(c, q, data[n..], false);
            && before + TailBytes(c, p, data, begin) == next + rest
            && p + |TailBytes(c, p, data, begin)| == q + |rest|
            && (Avail(c, p) == 0 && n < |data| ==> Avail(c, q) > 0)
  {
    hide Physical, TailBytes;
    AlignFits(c, p);
    var n := if |data| < Avail(c, p) then |data| else Avail(c, p);
    var x := Piece(Align(c, p), KindOf(begin, n == |data|), data[..n]);
    if Avail(c, p) == 0 {
      AvailAfterEmpty(c, p);
    }
    TailUnfold(c, p, data, begin);
    ConcatAssoc3(before, Zeros(x.start - p), Physical(c, x.kind, x.payload), if n == |data| then []
                 else TailBytes(c, x.End(), data[n..], false));
  }

  lemma TailUnfold(c: Config, p: nat, data: seq<byte>, begin: bool)
    requires c.Ok()
    ensures var n := if |data| < Avail(c, p) then |data| else Avail(c, p);
            var x := Piece(Align(c, p), KindOf(begin, n == |data|), data[..n]);
            TailBytes(c, p, data, begin) == Zeros(x.start - p) + Physical(c, x.kind, x.payload)
                                              + (if n == |data| then [] else TailBytes(c, x.End(), data[n..], false))
  {
    hide Physical, Zeros;
    var ps := Pieces(c, p, data, begin);
    var n := |ps[0].payload|;
    if n < |data| {
      assert ps[1..] == Pieces(c, ps[0].End(), data[n..], false);
    } else {
      assert ps[1..] == [];
      assert BytesOf(c, ps[0].End(), ps[1..]) == [];
    }
  }

  lemma ConcatAssoc3(a: seq<byte>, z: seq<byte>, b: seq<byte>, d: seq<byte>)
    ensures a + (z + b + d) == a + z + b + d
  {
  }

  /** Closing a fully written log and reopening it changes nothing: the bytes are those of one run. */
  lemma ReopenIsTransparent(c: Config, first: seq<seq<byte>>, record: seq<byte>)
    requires c.Ok()
    ensures LogBytes(c, first) + RecordBytes(c, |LogBytes(c, first)|, record) == LogBytes(c, first + [record])
  {
    AllPiecesChain(c, 0, first);
    BytesLength(c, 0, AllPieces(c, 0, first));
    AllPiecesAppend(c, 0, first, record);
    BytesAppend(c, 0, AllPieces(c, 0, first), Pieces(c, ChainEnd(0, AllPieces(c, 0, first)), record, true));
  }

  lemma {:induction false} AllPiecesAppend(c: Config, p: nat, records: seq<seq<byte>>, last: seq<byte>)
    requires c.Ok()
    ensures AllPieces(c, p, records + [last]) ==
              AllPieces(c, p, records) + Pieces(c, ChainEnd(p, AllPieces(c, p, records)), last, true)
    decreases |records|
  {
    var all := records + [last];
    if records == [] {
      assert all[1..] == [];
      assert AllPieces(c, p, all) == Pieces(c, p, last, true) + [];
    } else {
      var q := RecordEnd(c, p, records[0]);
      AllPiecesAppend(c, q, records[1..], last);
      assert all[1..] == records[1..] + [last];
      PiecesChain(c, p, records[0], true);
      AllPiecesChain(c, q, records[1..]);
      ChainAppend(c, p, Pieces(c, p, records[0], true), AllPieces(c, q, records[1..]));
    }
  }
}
