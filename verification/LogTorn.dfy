/** What a failed append costs: a log file in which some call failed may lose records that were acknowledged later, and
    one in which none failed loses nothing.
 */
module LogTorn {
  import opened Coding
  import opened LogFormat
  import opened LogReader
  import opened LogTheorems
  import opened LogWriter
  import opened Wrappers
  import LogCrash

  // ------------------------------------------------------------------ no call failed

  lemma {:induction false} AllSurvive(c: Config, p: nat, records: seq<seq<byte>>)
    requires c.Ok()
    ensures var rs := Survivors(c, p, records, {}, 0);
            |rs| == |records| && forall i :: 0 <= i < |records| ==> rs[i].data == records[i]
    decreases |records|
  {
    hide Pieces;
    if records != [] {
      AllSurvive(c, RecordEnd(c, p, records[0]), records[1..]);
    }
  }

  lemma {:induction false} IntactUndamaged(c: Config, file: seq<byte>, ps: seq<Piece>)
    requires c.Ok() && forall i :: 0 <= i < |ps| ==> Intact(c, file, ps[i])
    ensures Damaged(c, file, ps, {}, false)
    decreases |ps|
  {
    hide Intact;
    if ps != [] {
      IntactUndamaged(c, file, ps[1..]);
    }
  }

  /** A log none of whose calls failed gives back all its records. */
  lemma IntactLogReadsBack(c: Config, records: seq<seq<byte>>)
    requires c.Ok()
    ensures var rs := Records(0, Events(c, LogBytes(c, records), 0, 0), IDLE);
            |rs| == |records| && forall i :: 0 <= i < |records| ==> rs[i].data == records[i]
  {
    hide Damaged, Survivors, AllPieces, Events, Records, Intact;
    LogCrash.WrittenLog(c, records);
    IntactUndamaged(c, LogBytes(c, records), AllPieces(c, 0, records));
    RecoversExactly(c, records, LogBytes(c, records), {}, 0);
    StartsAtZero(c);
    AllSurvive(c, 0, records);
  }

  lemma StartsAtZero(c: Config)
    requires c.Ok()
    ensures InitialBlock(c, 0) == 0 && IDLE.(resync := 0 > 0) == IDLE
  {
    SmallMod(0, c.blockSize);
  }

  // ------------------------------------------------------------------ one call failed

  // The fragments of a record that fills the block from position m and goes on for m - 1 bytes in the next.
  lemma TwoPieces(c: Config, m: nat, data: seq<byte>)
    requires c.Ok() && HEADER_SIZE <= m && m + HEADER_SIZE < c.blockSize && |data| == c.blockSize - 8
    ensures var n := c.blockSize - m - HEADER_SIZE;
            RecordBytes(c, m, data) == Physical(c, FIRST_TYPE, data[..n]) + Physical(c, LAST_TYPE, data[n..])
  {
    hide Physical, Zeros;
    var n := c.blockSize - m - HEADER_SIZE;
    SmallMod(m, c.blockSize);
    SmallMod(c.blockSize, c.blockSize);
    assert Align(c, m) == m && Avail(c, m) == n;
    SmallMod(0, c.blockSize);
    assert Align(c, c.blockSize) == c.blockSize && Avail(c, c.blockSize) == c.blockSize - HEADER_SIZE;
    TailUnfold(c, m, data, true);
    TailUnfold(c, c.blockSize, data[n..], false);
    NoZeros();
    assert data[n..][..|data| - n] == data[n..];
    TwoParts(Physical(c, FIRST_TYPE, data[..n]), Physical(c, LAST_TYPE, data[n..]));
  }

  lemma NoZeros()
    ensures Zeros(0) == []
  {
  }

  lemma TwoParts(a: seq<byte>, b: seq<byte>)
    ensures [] + a + ([] + b + []) == a + b
  {
  }

  // The reader's block ends m bytes after the second header, which claims m - 1 bytes of payload: too many.
  lemma MisalignedReadsNothing(c: Config, m: nat, data: seq<byte>)
    requires c.Ok() && HEADER_SIZE <= m && m + HEADER_SIZE < c.blockSize && |data| == c.blockSize - 8
    ensures Records(0, Events(c, RecordBytes(c, m, data), 0, 0), IDLE) == []
  {
    hide Physical, Parse, RecordBytes, Report;
    var n := c.blockSize - m - HEADER_SIZE;
    var file := RecordBytes(c, m, data);
    var first, last := Physical(c, FIRST_TYPE, data[..n]), Physical(c, LAST_TYPE, data[n..]);
    TwoPieces(c, m, data);
    assert file == first + last && |file| == c.blockSize + 6;
    FirstReads(c, file, first, last, data[..n]);
    var p := c.blockSize - m;
    SecondIsBad(c, file, p, first, last, data[n..]);
    SmallMod(c.blockSize, c.blockSize);
    assert ReadAt(c, file, 0, c.blockSize).Eof?;
    assert Events(c, file, 0, c.blockSize) == [];
    var e1 := ReadAt(c, file, 0, p);
    assert Events(c, file, 0, p) == [e1] + Events(c, file, 0, c.blockSize) == [e1];
    var e0 := ReadAt(c, file, 0, 0);
    assert Events(c, file, 0, 0) == [e0, e1];
    TwoEvents(e0.payload, e0.next, e1);
  }

  lemma TwoEvents(payload: seq<byte>, next: nat, e: Event)
    requires e.Bad?
    ensures Records(0, [Frag(FIRST_TYPE as int, payload, next), e], IDLE) == []
  {
    hide Report;
    var es := [Frag(FIRST_TYPE as int, payload, next), e];
    assert es[1..] == [e] && [e][1..] == [];
    assert Records(0, es, IDLE) == Records(0, [e], Assembly(false, true, payload, StartOf(payload, next)));
  }

  lemma FirstReads(c: Config, file: seq<byte>, first: seq<byte>, last: seq<byte>, payload: seq<byte>)
    requires c.Ok() && file == first + last
    requires first == Physical(c, FIRST_TYPE, payload) && |file| > c.blockSize > |first|
    ensures ReadAt(c, file, 0, 0) == Frag(FIRST_TYPE as int, payload, |first|)
  {
    hide Physical, Parse;
    SmallMod(0, c.blockSize);
    var buffer := file[0..c.blockSize];
    assert buffer[..|first|] == first;
    HeaderParses(c, 0, 0, FIRST_TYPE, payload, buffer, false);
  }

  lemma SecondIsBad(c: Config, file: seq<byte>, p: nat, first: seq<byte>, last: seq<byte>, payload: seq<byte>)
    requires c.Ok() && file == first + last && p == |first| && last == Physical(c, LAST_TYPE, payload)
    requires p + HEADER_SIZE <= c.blockSize < |file| && p + HEADER_SIZE + |payload| > c.blockSize && |payload| <= 0xffff
    ensures ReadAt(c, file, 0, p).Bad? && ReadAt(c, file, 0, p).next == c.blockSize
  {
    SmallMod(p, c.blockSize);
    var buffer := file[p..c.blockSize];
    assert buffer[4] == last[4] && buffer[5] == last[5];
    assert LengthOf(buffer) == |payload|;
  }

  /** An acknowledged record is lost: the header of the first record cannot be stored, and the record appended next,
      which fits the log writer's block and the next one, is misplaced by what the writer believes to have stored.
   */
  method AcknowledgedButLost(c: Config, failed: seq<byte>, data: seq<byte>)
      returns (first: bool, second: bool, file: seq<byte>)
    requires c.Ok() && 2 * HEADER_SIZE + |failed| < c.blockSize && |data| == c.blockSize - 8
    ensures !first && second && |file| > |data|
    ensures Records(0, Events(c, file, 0, 0), IDLE) == []
  {
    hide RecordBytes, Records, Events, Physical, Fixed32, Writer.Valid;
    var w := new Writer(c, n => if n == 0 then Some(0) else None);
    first := w.AddRecord(failed);
    ghost var m := w.pos;
    second := w.AddRecord(data);
    file := w.dest;
    assert [] + RecordBytes(c, m, data) == RecordBytes(c, m, data);
    MisalignedReadsNothing(c, m, data);
    TwoPieces(c, m, data);
  }
}
