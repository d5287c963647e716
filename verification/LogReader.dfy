/** The log reader.  Two layers: physical records out of blocks, and logical records out of fragments.
    The functions say what a file means to the reader; the class does what the code does.
 */
module LogReader {
  import opened Coding
  import opened LogFormat

  const EOF: nat := 5
  const BAD_RECORD: nat := 6

  // ------------------------------------------------------------------ physical records

  // What one call of ReadPhysicalRecord finds, and the position after it; drops are the sizes reported.
  datatype Event = Frag(kind: nat, payload: seq<byte>, next: nat) | Bad(drops: seq<nat>, next: nat) | Eof

  // The end of the bytes the file has in the block of p.
  function BlockEnd(c: Config, file: seq<byte>, p: nat): int
    requires c.Ok()
  {
    if Partial(c, file, p) then |file| else c.BlockStart(p) + c.blockSize
  }

  // The file ends inside the block of p.
  predicate Partial(c: Config, file: seq<byte>, p: nat)
    requires c.Ok()
  {
    c.BlockStart(p) + c.blockSize > |file|
  }

  // The type byte is a signed char that is converted to unsigned int.
  function TypeOf(b: byte): nat {
    if b < 128 then b else TWO32 - 256 + b
  }

  // ReportDrop compares in 64-bit arithmetic the position before the dropped bytes with the initial offset.
  function Report(init: nat, pos: nat, bytes: nat): seq<nat> {
    if (pos - bytes) % TWO64 >= init then [bytes] else []
  }

  // The physical record at the front of buffer, which holds what the file has of a block from p on;
  // last tells whether the file ends in this block.
  function Parse(c: Config, init: nat, p: nat, buffer: seq<byte>, last: bool): (e: Event)
    requires |buffer| >= HEADER_SIZE
    ensures e.Bad? ==> p < e.next <= p + |buffer|
    ensures e.Frag? ==> p + HEADER_SIZE + |e.payload| == e.next <= p + |buffer| && init <= p
  {
    var length: nat := LengthOf(buffer);
    var kind := TypeOf(buffer[6]);
    var end := p + |buffer|;
    var next := p + HEADER_SIZE + length;
    if next > end then (if last then Eof else Bad(Report(init, end, |buffer|), end))
    else if kind == 0 && length == 0 then Bad([], end)
    else if c.checksum && ChecksumFails(c, buffer, length) then Bad(Report(init, end, |buffer|), end)
    else if p < init then Bad([], next)
    else Frag(kind, buffer[HEADER_SIZE..HEADER_SIZE + length], next)
  }

  function LengthOf(header: seq<byte>): nat
    requires |header| >= HEADER_SIZE
  {
    header[4] + 256 * (header[5] as int)
  }

  predicate ChecksumFails(c: Config, buffer: seq<byte>, length: nat)
    requires HEADER_SIZE + length <= |buffer|
  {
    DecodeFixed32(buffer) != c.crc(buffer[6], buffer[HEADER_SIZE..HEADER_SIZE + length]) % TWO32
  }

  function ParseAt(c: Config, file: seq<byte>, init: nat, p: nat): Event
    requires c.Ok() && p + HEADER_SIZE <= BlockEnd(c, file, p) <= |file|
  {
    Parse(c, init, p, file[p..BlockEnd(c, file, p)], Partial(c, file, p))
  }

  // The next physical record when the reader has consumed everything before p.
  function ReadAt(c: Config, file: seq<byte>, init: nat, p: nat): (e: Event)
    requires c.Ok()
    ensures e.Bad? ==> p < e.next <= |file|
    ensures e.Frag? ==> p + HEADER_SIZE + |e.payload| <= e.next <= |file|
    ensures e.Frag? ==> init <= e.next - HEADER_SIZE - |e.payload|
  {
    var end := BlockEnd(c, file, p);
    if p >= |file| then Eof
    else if end - p >= HEADER_SIZE then ParseAt(c, file, init, p)
    else if Partial(c, file, p) || |file| - end < HEADER_SIZE then Eof
    else
      // The padding at the end of a block
      NextBlock(c, file, p);
      ParseAt(c, file, init, end)
  }

  lemma NextBlock(c: Config, file: seq<byte>, p: nat)
    requires c.Ok() && !Partial(c, file, p)
    ensures var end := BlockEnd(c, file, p); p < end && end % c.blockSize == 0 && c.BlockStart(end) == end
  {
    BlockStartAligned(c, p);
    ModAdd(c, p, c.blockSize - p % c.blockSize);
  }

  // All physical records from position p on.
  function Events(c: Config, file: seq<byte>, init: nat, p: nat): seq<Event>
    requires c.Ok()
    decreases |file| - p
  {
    var e := ReadAt(c, file, init, p);
    if e.Eof? then [] else [e] + Events(c, file, init, e.next)
  }

  // ------------------------------------------------------------------ logical records

  datatype Record = Record(data: seq<byte>, offset: nat)

  // Where ReadRecord is in putting a record together; the offset is that of its first fragment.
  datatype Assembly = Assembly(resync: bool, inFrag: bool, scratch: seq<byte>, offset: nat)

  const IDLE := Assembly(false, false, [], 0)

  datatype Effect = Continue(state: Assembly, drops: seq<nat>) | Return(record: Record, drops: seq<nat>) | Stop

  function StartOf(payload: seq<byte>, next: nat): nat {
    if next >= HEADER_SIZE + |payload| then next - HEADER_SIZE - |payload| else 0
  }

  // One physical record.
  function Step(init: nat, a: Assembly, e: Event): Effect {
    match e
    case Eof => Stop
    case Bad(drops, next) => Continue(IDLE, drops + if a.inFrag then Report(init, next, |a.scratch|) else [])
    case Frag(kind, payload, next) =>
      var partial := if a.inFrag && a.scratch != [] then Report(init, next, |a.scratch|) else [];
      if a.resync && kind == 3 then Continue(a, [])
      else if a.resync && kind == 4 then Continue(a.(resync := false), [])
      else if kind == 1 then Return(Record(payload, StartOf(payload, next)), partial)
      else if kind == 2 then Continue(Assembly(false, true, payload, StartOf(payload, next)), partial)
      else if kind == 3 && a.inFrag then Continue(Assembly(false, true, a.scratch + payload, a.offset), [])
      else if kind == 4 && a.inFrag then Return(Record(a.scratch + payload, a.offset), [])
      else if kind == 3 || kind == 4 then Continue(IDLE, Report(init, next, |payload|))
      else if kind == EOF then Stop
      else if kind == BAD_RECORD then Continue(IDLE, if a.inFrag then Report(init, next, |a.scratch|) else [])
      else Continue(IDLE, Report(init, next, |payload| + if a.inFrag then |a.scratch| else 0))
  }

  // The records ReadRecord returns.
  function Records(init: nat, es: seq<Event>, a: Assembly): seq<Record>
    decreases |es|
  {
    if es == [] then []
    else match Step(init, a, es[0])
         case Stop => []
         case Return(record, _) => [record] + Records(init, es[1..], IDLE)
         case Continue(b, _) => Records(init, es[1..], b)
  }

  // The sizes ReadRecord reports as corrupt.
  function Reports(init: nat, es: seq<Event>, a: Assembly): seq<nat>
    decreases |es|
  {
    if es == [] then []
    else match Step(init, a, es[0])
         case Stop => []
         case Return(_, drops) => drops + Reports(init, es[1..], IDLE)
         case Continue(b, drops) => drops + Reports(init, es[1..], b)
  }

  // Start of the first block that can hold a header at or after the initial offset.
  function InitialBlock(c: Config, init: nat): nat
    requires c.Ok()
  {
    if init % c.blockSize > c.blockSize - 6 then init - init % c.blockSize + c.blockSize else init - init % c.blockSize
  }

  // ------------------------------------------------------------------ the reader

  class Reader {
    const c: Config
    const file: seq<byte>
    const initialOffset: nat
    var filePos: nat               // position of the underlying sequential file
    var buffer: seq<byte>
    var eof: bool                  // last read was short
    var lastRecordOffset: nat
    var endOfBufferOffset: nat     // where in the file the buffer ends
    var resyncing: bool
    var drops: seq<nat>            // what the reporter was told

    constructor (c: Config, file: seq<byte>, initialOffset: nat)
      requires c.Ok()
      ensures Valid() && this.c == c && this.file == file && this.initialOffset == initialOffset && drops == []
      ensures lastRecordOffset == 0 && resyncing == (initialOffset > 0)
      ensures Pos() == InitialBlock(c, initialOffset)
    {
      this.c, this.file, this.initialOffset := c, file, initialOffset;
      filePos, buffer, eof, lastRecordOffset, endOfBufferOffset := 0, [], false, 0, 0;
      resyncing, drops := initialOffset > 0, [];
      new;
      assert 0 % c.blockSize == 0;
    }

    // The buffer holds the rest of a block, and eof tells whether the file ends in it.
    ghost predicate BufferOk()
      reads this
    {
      && c.Ok() && |buffer| <= endOfBufferOffset
      && (!eof ==> endOfBufferOffset % c.blockSize == 0 && filePos == endOfBufferOffset)
      && (buffer == [] && eof ==> endOfBufferOffset >= |file|)
      && (buffer != [] ==> Buffered(c, file, endOfBufferOffset - |buffer|, endOfBufferOffset, buffer, eof))
    }

    ghost predicate Valid()
      reads this
    {
      && BufferOk()
      && (lastRecordOffset < initialOffset ==>
            lastRecordOffset == 0 && endOfBufferOffset == 0 && buffer == [] && !eof && filePos == 0)
    }

    // Nothing that was read is left, and no more will be read.
    ghost predicate Ended()
      reads this
    {
      c.Ok() && eof && buffer == []
    }

    // Everything before this position is consumed or skipped.
    ghost function Pos(): nat
      requires Valid()
      reads this
    {
      if lastRecordOffset < initialOffset then InitialBlock(c, initialOffset) else endOfBufferOffset - |buffer|
    }

    // The records still to be returned, and the drops still to be reported.
    ghost function Pending(): seq<Record>
      requires Valid()
      reads this
    {
      Records(initialOffset, Events(c, file, initialOffset, Pos()), IDLE.(resync := resyncing))
    }

    ghost function PendingDrops(): seq<nat>
      requires Valid()
      reads this
    {
      Reports(initialOffset, Events(c, file, initialOffset, Pos()), IDLE.(resync := resyncing))
    }

    /** Returns the next record, or false at the end and, unless a fragment of the type that stands for the end is met,
        ever after.  What is still pending always accounts for the rest.
     */
    method ReadRecord() returns (ok: bool, record: seq<byte>)
      requires Valid() || Ended()
      modifies this
      ensures old(Valid()) && ok ==> Valid() && old(Pending()) == [Record(record, lastRecordOffset)] + Pending()
      ensures old(Valid()) && ok ==> drops + PendingDrops() == old(drops + PendingDrops())
      ensures old(Valid()) && !ok ==> old(Pending()) == [] && drops == old(drops + PendingDrops())
      ensures !ok ==> Ended() || exists p :: EndType(c, file, initialOffset, p)
      ensures old(Ended()) ==> !ok && Ended() && drops == old(drops)
    {
      hide BlockEnd, Partial, Buffered, Records, Reports, Events, EndType, ReadAt;
      ghost var started := Valid();
      ghost var pending, reports := if started then Pending() else [], if started then drops + PendingDrops() else [];
      if lastRecordOffset < initialOffset {
        SkipToInitialBlock();
      }
      var scratch: seq<byte>, inFragmentedRecord, prospectiveOffset: nat := [], false, 0;
      while true
        invariant |buffer| <= endOfBufferOffset && (inFragmentedRecord ==> prospectiveOffset >= initialOffset)
        invariant lastRecordOffset == old(lastRecordOffset) && (!inFragmentedRecord ==> scratch == [])
        invariant started ==>
                    && BufferOk()
                    && AccountsNow(State(resyncing, inFragmentedRecord, scratch, prospectiveOffset), pending, reports)
        invariant (!started ==> Ended()) && (old(Ended()) ==> Ended() && drops == old(drops))
        decreases |file| - (endOfBufferOffset - |buffer|)
      {
        var stop;
        stop, ok, record, inFragmentedRecord, scratch, prospectiveOffset :=
          ReadFragment(inFragmentedRecord, scratch, prospectiveOffset, pending, reports);
        if stop {
          return;
        }
      }
    }

    ghost predicate AccountsNow(a: Assembly, pending: seq<Record>, reports: seq<nat>)
      requires BufferOk()
      reads this
    {
      Accounts(c, file, initialOffset, endOfBufferOffset - |buffer|, a, drops, pending, reports)
    }

    // One round of ReadRecord's loop.
    method ReadFragment(inFrag0: bool, scratch0: seq<byte>, prospective0: nat,
                        ghost pending: seq<Record>, ghost reports: seq<nat>)
      returns (stop: bool, ok: bool, record: seq<byte>, inFragmentedRecord: bool,
               scratch: seq<byte>, prospectiveOffset: nat)
      requires |buffer| <= endOfBufferOffset && (!inFrag0 ==> scratch0 == [])
      requires inFrag0 ==> prospective0 >= initialOffset
      requires Ended() ||
               (BufferOk() && AccountsNow(State(resyncing, inFrag0, scratch0, prospective0), pending, reports))
      modifies this
      ensures |buffer| <= endOfBufferOffset && (!inFragmentedRecord ==> scratch == [])
      ensures inFragmentedRecord ==> prospectiveOffset >= initialOffset
      ensures old(BufferOk() && AccountsNow(State(resyncing, inFrag0, scratch0, prospective0), pending, reports)) ==>
                && BufferOk()
                && (stop && ok ==>
                      && !resyncing && lastRecordOffset >= initialOffset
                      && AccountsNow(IDLE, pending[if pending == [] then 0 else 1..], reports)
                      && pending != [] && pending[0] == Record(record, lastRecordOffset))
                && (stop && !ok ==> pending == [] && drops == reports)
                && (!stop ==>
                      AccountsNow(State(resyncing, inFragmentedRecord, scratch, prospectiveOffset), pending, reports))
      ensures !stop ==> lastRecordOffset == old(lastRecordOffset)
      ensures !stop ==> old(endOfBufferOffset - |buffer|) < endOfBufferOffset - |buffer| <= |file|
      ensures stop && !ok ==> Ended() || EndType(c, file, initialOffset, old(endOfBufferOffset - |buffer|))
      ensures old(Ended()) ==> stop && !ok && Ended() && drops == old(drops)
    {
      hide Step, Parse, Report, BlockEnd, Partial, Buffered, ReadAt, Events;
      ghost var counts := BufferOk() &&
          AccountsNow(State(resyncing, inFrag0, scratch0, prospective0), pending, reports);
      ghost var e, told := if Ended() then Eof else ReadAt(c, file, initialOffset, endOfBufferOffset - |buffer|), drops;
      StopsAtEnd(initialOffset, State(resyncing, inFrag0, scratch0, prospective0), e);
      if counts {
        NothingAfter(c, file, initialOffset, endOfBufferOffset - |buffer|);
        StepAccounts(c, file, initialOffset, endOfBufferOffset - |buffer|,
                     State(resyncing, inFrag0, scratch0, prospective0), drops, pending, reports);
      }
      var recordType, fragment := ReadPhysicalRecord();
      stop, ok, record, inFragmentedRecord, scratch, prospectiveOffset :=
        Assemble(recordType, fragment, inFrag0, scratch0, prospective0, e, told);
    }

    // The body of ReadRecord's loop after the physical record is read; e is what was read.
    method Assemble(recordType: nat, fragment: seq<byte>, inFrag0: bool, scratch0: seq<byte>, prospective0: nat,
                    ghost e: Event, ghost told: seq<nat>)
      returns (stop: bool, ok: bool, record: seq<byte>, inFragmentedRecord: bool,
               scratch: seq<byte>, prospectiveOffset: nat)
      requires |buffer| <= endOfBufferOffset && (!inFrag0 ==> scratch0 == [])
      requires match e
               case Eof => recordType == EOF && drops == told
               case Bad(ds, next) => recordType == BAD_RECORD && drops == told + ds &&
                   endOfBufferOffset - |buffer| == next
               case Frag(kind, payload, next) =>
                 && recordType == kind && fragment == payload && drops == told && endOfBufferOffset - |buffer| == next
                 && next >= HEADER_SIZE + |payload| && StartOf(payload, next) >= initialOffset
      requires inFrag0 ==> prospective0 >= initialOffset
      modifies this`resyncing, this`lastRecordOffset, this`drops
      ensures !inFragmentedRecord ==> scratch == []
      ensures inFragmentedRecord ==> prospectiveOffset >= initialOffset
      ensures match Step(initialOffset, State(old(resyncing), inFrag0, scratch0, prospective0), e)
              case Stop => stop && !ok && drops == told && lastRecordOffset == old(lastRecordOffset)
              case Return(r, ds) => stop && ok && !resyncing && r == Record(record, lastRecordOffset) &&
                  drops == told + ds
                                    && lastRecordOffset >= initialOffset
              case Continue(a, ds) =>
                && !stop && a == State(resyncing, inFragmentedRecord, scratch, prospectiveOffset) && drops == told + ds
                && lastRecordOffset == old(lastRecordOffset)
    {
      stop, ok, record := false, false, [];
      inFragmentedRecord, scratch, prospectiveOffset := inFrag0, scratch0, prospective0;
      var pos := endOfBufferOffset - |buffer|;
      if resyncing {
        if recordType == 3 {
          return;
        } else if recordType == 4 {
          resyncing := false;
          return;
        } else {
          resyncing := false;
        }
      }
      if recordType == 1 {
        if inFragmentedRecord && scratch != [] {
          drops := drops + Report(initialOffset, pos, |scratch|);
        }
        scratch, inFragmentedRecord := [], false;
        record := fragment;
        lastRecordOffset := pos - HEADER_SIZE - |fragment|;
        stop, ok := true, true;
      } else if recordType == 2 {
        if inFragmentedRecord && scratch != [] {
          drops := drops + Report(initialOffset, pos, |scratch|);
        }
        prospectiveOffset := pos - HEADER_SIZE - |fragment|;
        scratch, inFragmentedRecord := fragment, true;
      } else if recordType == 3 {
        if !inFragmentedRecord {
          drops := drops + Report(initialOffset, pos, |fragment|);
        } else {
          scratch := scratch + fragment;
        }
      } else if recordType == 4 {
        if !inFragmentedRecord {
          drops := drops + Report(initialOffset, pos, |fragment|);
        } else {
          record := scratch + fragment;
          lastRecordOffset := prospectiveOffset;
          stop, ok := true, true;
        }
      } else if recordType == EOF {
        // The writer may have died between two fragments: ignore the record
        scratch, inFragmentedRecord := [], false;
        stop := true;
      } else if recordType == BAD_RECORD {
        if inFragmentedRecord {
          drops := drops + Report(initialOffset, pos, |scratch|);
          scratch, inFragmentedRecord := [], false;
        }
      } else {
        drops := drops + Report(initialOffset, pos, |fragment| + if inFragmentedRecord then |scratch| else 0);
        scratch, inFragmentedRecord := [], false;
      }
    }

    method SkipToInitialBlock()
      requires (Valid() || Ended()) && lastRecordOffset < initialOffset
      modifies this`filePos, this`endOfBufferOffset
      ensures (old(Valid()) ==> BufferOk()) && (old(Ended()) ==> Ended())
      ensures buffer == [] && endOfBufferOffset == InitialBlock(c, initialOffset)
    {
      var offsetInBlock := initialOffset % c.blockSize;
      var blockStart := initialOffset - offsetInBlock;
      BlockStartAligned(c, initialOffset);
      ModAdd(c, blockStart, c.blockSize);

      // Too near the end of its block for a record
      if offsetInBlock > c.blockSize - 6 {
        blockStart := blockStart + c.blockSize;
      }
      endOfBufferOffset := blockStart;

      // Start reading at that block
      if blockStart > 0 {
        filePos := filePos + blockStart;
      }
    }

    // Reads the next block (or what is left of the file) into the buffer.
    method ReadBlock()
      requires BufferOk() && !eof && |buffer| < HEADER_SIZE
      modifies this`filePos, this`buffer, this`endOfBufferOffset, this`eof
      ensures BufferOk() && (|buffer| < HEADER_SIZE ==> eof)
      ensures Filled(c, file, old(endOfBufferOffset - |buffer|), endOfBufferOffset, buffer, eof)
    {
      ghost var p, held := endOfBufferOffset - |buffer|, buffer;
      // The block was complete, so what is left of it is padding
      var n := if filePos >= |file| then 0 else if |file| - filePos < c.blockSize then |file| - filePos
          else c.blockSize;
      LoadedBlock(c, file, filePos, n);
      buffer := if n == 0 then [] else file[filePos..filePos + n];
      filePos := filePos + n;
      endOfBufferOffset := endOfBufferOffset + n;
      if |buffer| < c.blockSize {
        eof := true;
      }
      if held != [] {
        NextBlock(c, file, p);
      }
    }

    method ReadPhysicalRecord() returns (recordType: nat, fragment: seq<byte>)
      requires |buffer| <= endOfBufferOffset && (BufferOk() || Ended())
      modifies this`filePos, this`buffer, this`endOfBufferOffset, this`eof, this`drops
      ensures |buffer| <= endOfBufferOffset && (old(BufferOk()) ==> BufferOk())
      ensures old(Ended()) ==> recordType == EOF && drops == old(drops) && Ended()
      ensures old(BufferOk()) ==>
              var e := ReadAt(c, file, initialOffset, old(endOfBufferOffset - |buffer|));
              match e
              case Eof => recordType == EOF && drops == old(drops) && Ended()
              case Bad(ds, next) => recordType == BAD_RECORD && drops == old(drops) + ds &&
                  endOfBufferOffset - |buffer| == next
              case Frag(kind, payload, next) =>
                && recordType == kind && fragment == payload && drops == old(drops)
                && endOfBufferOffset - |buffer| == next
    {
      hide Parse, ReadAt, Buffered, BlockEnd, Partial;
      fragment := [];
      ghost var p := endOfBufferOffset - |buffer|;
      if |buffer| < HEADER_SIZE && !eof {
        ReadBlock();
      }
      ghost var end, held := endOfBufferOffset, buffer;
      ghost var filled := old(BufferOk());
      if filled {
        BufferDecides(c, file, initialOffset, p, end, held, eof);
      }
      // A full block holds a header, so one refill is enough.
      if |buffer| < HEADER_SIZE {
        // A header cut off by the end of the file is taken for a crash
        buffer := [];
        recordType := EOF;
        return;
      }
      recordType, fragment := ParseHeader();
      SuffixBuffered(c, file, end, held, eof, buffer);
    }

    method ParseHeader() returns (recordType: nat, fragment: seq<byte>)
      requires |buffer| >= HEADER_SIZE && |buffer| <= endOfBufferOffset
      modifies this`buffer, this`drops
      ensures |buffer| <= |old(buffer)| && buffer == old(buffer)[|old(buffer)| - |buffer|..]
      ensures match Parse(c, initialOffset, old(endOfBufferOffset - |buffer|), old(buffer), eof)
              case Eof => recordType == EOF && drops == old(drops) && eof && buffer == []
              case Bad(ds, next) => recordType == BAD_RECORD && drops == old(drops) + ds &&
                  endOfBufferOffset - |buffer| == next
              case Frag(kind, payload, next) =>
                && recordType == kind && fragment == payload && drops == old(drops)
                && endOfBufferOffset - |buffer| == next
    {
      fragment := [];
      var header := buffer;
      var length: nat := header[4] + 256 * (header[5] as int);
      var kind := TypeOf(header[6]);
      if HEADER_SIZE + length > |buffer| {
        var dropSize := |buffer|;
        buffer := [];
        if !eof {
          drops := drops + Report(initialOffset, endOfBufferOffset, dropSize);
          return BAD_RECORD, fragment;
        }
        // The same for a payload
        return EOF, fragment;
      }
      if kind == 0 && length == 0 {
        // Zero length record, as in preallocated file regions
        buffer := [];
        return BAD_RECORD, fragment;
      }
      if c.checksum {
        var expected := DecodeFixed32(header);
        var actual := c.crc(header[6], header[HEADER_SIZE..HEADER_SIZE + length]) % TWO32;
        if actual != expected {
          // The length cannot be trusted either, so the whole block goes
          var dropSize := |buffer|;
          buffer := [];
          drops := drops + Report(initialOffset, endOfBufferOffset, dropSize);
          return BAD_RECORD, fragment;
        }
      }
      buffer := buffer[HEADER_SIZE + length..];
      // The fragment lies before the offset asked for
      if endOfBufferOffset - |buffer| - HEADER_SIZE - length < initialOffset {
        return BAD_RECORD, fragment;
      }
      return kind, header[HEADER_SIZE..HEADER_SIZE + length];
    }
  }

  // A fragment whose type is the number that stands for the end of the file.
  predicate EndType(c: Config, file: seq<byte>, init: nat, p: nat) {
    c.Ok() && var e := ReadAt(c, file, init, p); e.Frag? && e.kind == EOF
  }

  lemma StopsAtEnd(init: nat, a: Assembly, e: Event)
    ensures Step(init, a, e).Stop? <==> e.Eof? || (e.Frag? && e.kind == EOF)
  {
  }

  lemma NothingAfter(c: Config, file: seq<byte>, init: nat, p: nat)
    requires c.Ok()
    ensures p >= |file| ==> ReadAt(c, file, init, p) == Eof
  {
  }

  function State(resyncing: bool, inFrag: bool, scratch: seq<byte>, prospective: nat): Assembly {
    Assembly(resyncing, inFrag, scratch, if inFrag then prospective else 0)
  }

  // What is told so far and what will follow from position p in state a make up the whole.
  ghost predicate Accounts(c: Config, file: seq<byte>, init: nat, p: nat, a: Assembly, told: seq<nat>,
                           pending: seq<Record>, reports: seq<nat>)
    requires c.Ok()
  {
    && Records(init, Events(c, file, init, p), a) == pending
    && told + Reports(init, Events(c, file, init, p), a) == reports
  }

  lemma StepAccounts(c: Config, file: seq<byte>, init: nat, p: nat, a: Assembly, told: seq<nat>,
                     pending: seq<Record>, reports: seq<nat>)
    requires c.Ok() && Accounts(c, file, init, p, a, told, pending, reports)
    ensures var e := ReadAt(c, file, init, p);
            match Step(init, a, e)
            case Stop => pending == [] && told == reports
            case Return(r, ds) =>
              && !e.Eof? && pending == [r] + Records(init, Events(c, file, init, e.next), IDLE)
              && told + ds + Reports(init, Events(c, file, init, e.next), IDLE) == reports
            case Continue(b, ds) => !e.Eof? && Accounts(c, file, init, e.next, b, told + ds, pending, reports)
  {
    var e := ReadAt(c, file, init, p);
    hide ReadAt, Report;
    assert e.Eof? ==> Step(init, a, e).Stop?;
    hide Step;
    if !e.Eof? {
      var rest := Events(c, file, init, e.next);
      assert Events(c, file, init, p) == [e] + rest;
      assert ([e] + rest)[1..] == rest;
      hide Events;
      RecordsStep(init, e, rest, a, told);
    }
  }

  lemma RecordsStep(init: nat, e: Event, rest: seq<Event>, a: Assembly, told: seq<nat>)
    ensures Records(init, [e] + rest, a) == match Step(init, a, e)
                                            case Stop => []
                                            case Return(r, _) => [r] + Records(init, rest, IDLE)
                                            case Continue(b, _) => Records(init, rest, b)
    ensures told + Reports(init, [e] + rest, a) == match Step(init, a, e)
                                                   case Stop => told
                                                   case Return(_, ds) => told + ds + Reports(init, rest, IDLE)
                                                   case Continue(b, ds) => told + ds + Reports(init, rest, b)
  {
    hide Step;
    assert ([e] + rest)[1..] == rest;
    match Step(init, a, e)
    case Stop =>
    case Return(r, ds) =>
      assert told + ds + Reports(init, rest, IDLE) == told + (ds + Reports(init, rest, IDLE));
    case Continue(b, ds) =>
      assert told + ds + Reports(init, rest, b) == told + (ds + Reports(init, rest, b));
  }

  // What is in the buffer between positions p and end.
  ghost predicate Buffered(c: Config, file: seq<byte>, p: nat, end: nat, buffer: seq<byte>, eof: bool)
    requires c.Ok()
  {
    p < end == BlockEnd(c, file, p) <= |file| && buffer == file[p..end] && (eof <==> Partial(c, file, p))
  }

  // After a refill for a reader at position p, if one was needed.
  ghost predicate Filled(c: Config, file: seq<byte>, p: nat, end: nat, buffer: seq<byte>, eof: bool)
    requires c.Ok()
  {
    && |buffer| <= end
    && (buffer == [] ==> end >= |file|)
    && (buffer != [] ==> Buffered(c, file, end - |buffer|, end, buffer, eof))
    && (end - |buffer| == p ||
        (end - |buffer| == BlockEnd(c, file, p) < p + HEADER_SIZE && p < |file| && !Partial(c, file, p)))
    && (|buffer| < HEADER_SIZE ==> eof)
  }

  lemma BufferDecides(c: Config, file: seq<byte>, init: nat, p: nat, end: nat, buffer: seq<byte>, eof: bool)
    requires c.Ok() && Filled(c, file, p, end, buffer, eof)
    ensures ReadAt(c, file, init, p) == if |buffer| < HEADER_SIZE then Eof
            else Parse(c, init, end - |buffer|, buffer, eof)
    ensures |buffer| < HEADER_SIZE ==> end >= |file|
  {
    if end - |buffer| != p {
      NextBlock(c, file, p);
    }
  }

  lemma SuffixBuffered(c: Config, file: seq<byte>, end: nat, buffer: seq<byte>, eof: bool, rest: seq<byte>)
    requires c.Ok() && |buffer| <= end && buffer != [] && Buffered(c, file, end - |buffer|, end, buffer, eof)
    requires |rest| <= |buffer| && rest == buffer[|buffer| - |rest|..]
    ensures rest != [] ==> Buffered(c, file, end - |rest|, end, rest, eof)
    ensures eof ==> end >= |file|
  {
    var p := end - |buffer|;
    if rest != [] {
      ModAdd(c, p, |buffer| - |rest|);
    }
  }

  lemma LoadedBlock(c: Config, file: seq<byte>, p: nat, n: nat)
    requires c.Ok() && p % c.blockSize == 0
    requires n == if p >= |file| then 0 else if |file| - p < c.blockSize then |file| - p else c.blockSize
    ensures n > 0 ==> p < |file| && Buffered(c, file, p, p + n, file[p..p + n], n < c.blockSize)
    ensures n == c.blockSize ==> (p + n) % c.blockSize == 0
  {
    ModAdd(c, p, c.blockSize);
  }
}
