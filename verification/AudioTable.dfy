/** The audio module's link table: a two-byte count behind filler, then six-byte records that
    straddle the frames they arrive in (`audio_decoder.py`). */
module AudioTable {
  import opened Wrappers
  import opened Bits
  import opened Blocks

  const RECORD: nat := 6
  const COUNT_ADDRESS: nat := 4998
  const TABLE_ADDRESS: nat := 5000
  const MAX_RECORDS: nat := 1864
  const LAST_BLOCK: nat := (5000 + 1864 * 6 - 1) / 16
  const HEADER_OFFSET: nat := 6
  const FIRST_BLOCK: nat := 4998 / 16

  function CountHeader(stream: seq<Byte>, index: nat): Option<nat> {
    if index + 2 > |stream| then None
    else
      var count := Word16(stream[index], stream[index + 1]);
      if 0 < count <= MAX_RECORDS then Some(count) else None
  }

  predicate AllFiller(s: seq<Byte>) {
    forall i :: 0 <= i < |s| ==> s[i] == 0xFF
  }

  function LeadingFiller(stream: seq<Byte>, from: nat): (i: nat)
    requires from <= |stream|
    ensures from <= i <= |stream| && (i < |stream| ==> stream[i] != 0xFF)
    ensures forall j :: from <= j < i ==> stream[j] == 0xFF
    decreases |stream| - from
  {
    if from < |stream| && stream[from] == 0xFF then LeadingFiller(stream, from + 1) else from
  }

  function HeaderIndex(stream: seq<Byte>): Option<nat> {
    if |stream| >= HEADER_OFFSET + 2 && AllFiller(stream[..HEADER_OFFSET]) && CountHeader(stream, HEADER_OFFSET).Some?
    then Some(HEADER_OFFSET)
    else
      var index := LeadingFiller(stream, 0);
      if index + 2 > |stream| then None else Some(index)
  }

  /** `_header_index` */
  method FindHeader(stream: seq<Byte>) returns (r: Option<nat>)
    ensures r == HeaderIndex(stream)
  {
    if |stream| >= HEADER_OFFSET + 2 && AllFiller(stream[..HEADER_OFFSET]) && CountHeader(stream, HEADER_OFFSET).Some? {
      return Some(HEADER_OFFSET);
    }
    var index := 0;
    while index < |stream| && stream[index] == 0xFF
      invariant index <= |stream| && LeadingFiller(stream, index) == LeadingFiller(stream, 0)
    {
      index := index + 1;
    }
    if index + 2 > |stream| {
      return None;
    }
    return Some(index);
  }

  function Clamp(s: seq<Byte>, a: nat, b: nat): seq<Byte>
    requires a <= b
  {
    if a > |s| then [] else if b > |s| then s[a..] else s[a..b]
  }

  /** The records `i` to `count` of a table body that are there in full. */
  function FullRecords(body: seq<Byte>, i: nat, count: nat): seq<seq<Byte>>
    requires i <= count
    decreases count - i
  {
    if i == count then []
    else
      var record := Clamp(body, 6 * i, 6 * (i + 1));
      (if |record| == RECORD then [record] else []) + FullRecords(body, i + 1, count)
  }

  /** `split_link_table`: the table of a stream read in one piece. */
  function SplitLinkTable(stream: seq<Byte>): seq<seq<Byte>> {
    match HeaderIndex(stream)
    case None => []
    case Some(index) =>
      match CountHeader(stream, index)
      case None => []
      case Some(count) => FullRecords(stream[index + 2..], 0, count)
  }

  // ---- the streaming decoder -------------------------------------------------------------------

  datatype State = State(headerSeen: bool, recordsLeft: Option<nat>, currentBlock: Option<nat>,
                         lastDataBlock: Option<nat>, partialBytes: nat, extensionFrom: Option<nat>)

  const FRESH: State := State(false, None, None, None, 0, None)

  datatype Analysis = Analysis(chunks: seq<seq<Byte>>, remainder: seq<Byte>)

  /** At most `left` records off the front of a stream, and what is left of both. */
  function Take(stream: seq<Byte>, left: nat): (seq<seq<Byte>>, seq<Byte>, nat)
    decreases left
  {
    if |stream| < RECORD || left == 0 then ([], stream, left)
    else
      var (more, rest, n) := Take(stream[RECORD..], left - 1);
      ([stream[..RECORD]] + more, rest, n)
  }

  function Emit(s: State, stream: seq<Byte>, left: nat): (State, Analysis) {
    var (chunks, rest, n) := Take(stream, left);
    var remainder := if n > 0 then rest else [];
    (s.(headerSeen := true, recordsLeft := Some(n), partialBytes := |remainder|), Analysis(chunks, remainder))
  }

  /** `analyze_frame_payload` on a frame of `data` (its checksum cut off). */
  function Frame(s: State, buffer: seq<Byte>, data: seq<Byte>): (State, Analysis)
    requires s.headerSeen ==> s.recordsLeft.Some?
  {
    var stream := buffer + data;
    var s := s.(lastDataBlock := s.currentBlock);
    if s.headerSeen then Emit(s, stream, s.recordsLeft.value)
    else
      match HeaderIndex(stream)
      case None => (s, Analysis([], stream))
      case Some(index) =>
        match CountHeader(stream, index)
        case None => (s, Analysis([], []))
        case Some(count) => Emit(s, stream[index + 2..], count)
  }

  /** `extension_passes`: the blocks still to read, as a first and last one. */
  function Extension(s: State): Option<(nat, nat)>
    requires s.headerSeen ==> s.recordsLeft.Some?
  {
    if !s.headerSeen || s.recordsLeft == Some(0) || s.lastDataBlock.None? then None
    else
      var first := s.lastDataBlock.value + 1;
      if s.extensionFrom.Some? && first <= s.extensionFrom.value then None
      else
        var missing := s.recordsLeft.value * 6 - s.partialBytes;
        var pending := if missing < 1 then 1 else missing;
        var blocks := (pending + 15) / 16 + 1;
        var last := if first + blocks - 1 <= LAST_BLOCK then first + blocks - 1 else LAST_BLOCK;
        if last < first then None else Some((first, last))
  }

  lemma TakeNext(stream: seq<Byte>, idx: nat, left: nat)
    requires idx + RECORD <= |stream| && left > 0
    ensures var (chunks, rest, remaining) := Take(stream[idx + RECORD..], left - 1);
      Take(stream[idx..], left) == ([stream[idx..idx + RECORD]] + chunks, rest, remaining)
  {
    assert stream[idx..][..RECORD] == stream[idx..idx + RECORD];
    assert stream[idx..][RECORD..] == stream[idx + RECORD..];
  }

  lemma TakeEnds(rest: seq<Byte>, left: nat)
    requires |rest| < RECORD || left == 0
    ensures Take(rest, left) == ([], rest, left)
  {
  }

  class AudioDecoder {
    var headerSeen: bool
    var recordsLeft: Option<nat>
    var currentBlock: Option<nat>
    var lastDataBlock: Option<nat>
    var partialBytes: nat
    var extensionFrom: Option<nat>

    ghost predicate Valid()
      reads this
    {
      headerSeen ==> recordsLeft.Some?
    }

    function Value(): State
      reads this
    {
      State(headerSeen, recordsLeft, currentBlock, lastDataBlock, partialBytes, extensionFrom)
    }

    constructor ()
      ensures Valid() && Value() == FRESH
    {
      headerSeen, recordsLeft, currentBlock, lastDataBlock, partialBytes, extensionFrom := false, None, None, None, 0, None;
    }

    method SetCurrentBlock(subByte: Byte, register: Byte)
      requires Valid()
      modifies this`currentBlock
      ensures Valid() && currentBlock == Some(256 * (subByte as int) + register)
    {
      currentBlock := Some(256 * (subByte as int) + register);
    }

    method ExtensionPasses() returns (sections: seq<(nat, seq<nat>)>)
      requires Valid()
      modifies this`extensionFrom
      ensures Valid()
      ensures match old(Extension(Value()))
        case None => sections == [] && extensionFrom == old(extensionFrom)
        case Some((first, last)) => sections == Sections(first, last) && extensionFrom == Some(first)
    {
      hide Sections;
      if !headerSeen || recordsLeft == Some(0) || lastDataBlock.None? {
        return [];
      }
      var first := lastDataBlock.value + 1;
      if extensionFrom.Some? && first <= extensionFrom.value {
        return [];
      }
      var missing := recordsLeft.value * 6 - partialBytes;
      var pending := if missing < 1 then 1 else missing;
      var blocks := (pending + 15) / 16 + 1;
      var last := if first + blocks - 1 <= LAST_BLOCK then first + blocks - 1 else LAST_BLOCK;
      if last < first {
        return [];
      }
      extensionFrom := Some(first);
      sections := BlocksToSections(first, last);
    }

    method AnalyzeFramePayload(buffer: seq<Byte>, payloadAndCrc: seq<Byte>) returns (r: Option<Analysis>)
      requires Valid()
      modifies this
      ensures Valid()
      ensures |payloadAndCrc| < 3 ==> r == None && Value() == old(Value())
      ensures |payloadAndCrc| >= 3 ==> r.Some?
      ensures |payloadAndCrc| >= 3 ==> (Value(), r.value) == Frame(old(Value()), buffer, payloadAndCrc[..|payloadAndCrc| - 3])
    {
      hide HeaderIndex, Take;
      if |payloadAndCrc| < 3 {
        return None;
      }
      var stream := buffer + payloadAndCrc[..|payloadAndCrc| - 3];
      lastDataBlock := currentBlock;
      if !headerSeen {
        var index := FindHeader(stream);
        if index.None? {
          return Some(Analysis([], stream));
        }
        var count := CountHeader(stream, index.value);
        if count.None? {
          return Some(Analysis([], []));
        }
        headerSeen, recordsLeft := true, count;
        stream := stream[index.value + 2..];
      }
      var chunks: seq<seq<Byte>> := [];
      var idx := 0;
      ghost var left := recordsLeft.value;
      assert stream[0..] == stream;
      while idx + RECORD <= |stream| && recordsLeft.value > 0
        invariant idx <= |stream| && recordsLeft.Some? && headerSeen
        invariant currentBlock == old(currentBlock) && lastDataBlock == old(currentBlock)
        invariant extensionFrom == old(extensionFrom)
        invariant Take(stream, left).0 == chunks + Take(stream[idx..], recordsLeft.value).0
        invariant Take(stream, left).1 == Take(stream[idx..], recordsLeft.value).1
        invariant Take(stream, left).2 == Take(stream[idx..], recordsLeft.value).2
        decreases |stream| - idx
      {
        TakeNext(stream, idx, recordsLeft.value);
        ghost var record, more := stream[idx..idx + RECORD], Take(stream[idx + RECORD..], recordsLeft.value - 1).0;
        assert chunks + ([record] + more) == (chunks + [record]) + more;
        chunks := chunks + [stream[idx..idx + RECORD]];
        idx := idx + RECORD;
        recordsLeft := Some(recordsLeft.value - 1);
      }
      assert chunks + [] == chunks;
      TakeEnds(stream[idx..], recordsLeft.value);
      var remainder := if recordsLeft.value > 0 then stream[idx..] else [];
      partialBytes := |remainder|;
      return Some(Analysis(chunks, remainder));
    }
  }

  // ---- streaming refines the one-shot ------------------------------------------------------------

  /** Frames fed one after another, the remainder threaded: the chunks so far. */
  function Feed(s: State, buffer: seq<Byte>, frames: seq<seq<Byte>>): (State, seq<seq<Byte>>, seq<Byte>)
    requires s.headerSeen ==> s.recordsLeft.Some?
    decreases |frames|
  {
    if frames == [] then (s, [], buffer)
    else
      var (s1, a) := Frame(s, buffer, frames[0]);
      var (s2, more, remainder) := Feed(s1, a.remainder, frames[1..]);
      (s2, a.chunks + more, remainder)
  }

  function Concat(frames: seq<seq<Byte>>): seq<Byte> {
    if frames == [] then [] else frames[0] + Concat(frames[1..])
  }

  predicate ValidHeader(stream: seq<Byte>) {
    HeaderIndex(stream).Some? && CountHeader(stream, HeaderIndex(stream).value).Some?
  }

  /** A header found in a part of the stream is the header of the whole stream. */
  lemma HeaderIsStable(part: seq<Byte>, more: seq<Byte>)
    requires ValidHeader(part + more) && HeaderIndex(part).Some?
    ensures HeaderIndex(part + more) == HeaderIndex(part)
    ensures CountHeader(part + more, HeaderIndex(part).value) == CountHeader(part, HeaderIndex(part).value)
  {
    var whole := part + more;
    if |part| >= HEADER_OFFSET + 2 {
      assert whole[..HEADER_OFFSET] == part[..HEADER_OFFSET];
      assert CountHeader(whole, HEADER_OFFSET) == CountHeader(part, HEADER_OFFSET);
    }
    var i, j := LeadingFiller(part, 0), LeadingFiller(whole, 0);
    if i < |part| {
      assert whole[i] == part[i];
      assert j == i;
      if |part| < HEADER_OFFSET + 2 && |whole| >= HEADER_OFFSET + 2 && i + 2 <= |part| {
        assert whole[..HEADER_OFFSET][i] != 0xFF;
      }
    }
  }

  lemma {:induction false} FullRecordsIsTake(body: seq<Byte>, i: nat, count: nat)
    requires i <= count && 6 * i <= |body|
    ensures FullRecords(body, i, count) == Take(body[6 * i..], count - i).0
    decreases count - i
  {
    if i < count {
      var rest := body[6 * i..];
      if |rest| < RECORD {
        NoMoreRecords(body, i, count);
      } else {
        assert rest[RECORD..] == body[6 * (i + 1)..] && rest[..RECORD] == Clamp(body, 6 * i, 6 * (i + 1));
        FullRecordsIsTake(body, i + 1, count);
      }
    }
  }

  lemma {:induction false} NoMoreRecords(body: seq<Byte>, i: nat, count: nat)
    requires i <= count && |body| < 6 * (i + 1)
    ensures FullRecords(body, i, count) == []
    decreases count - i
  {
    if i < count {
      NoMoreRecords(body, i + 1, count);
    }
  }

  lemma {:induction false} TakeSplit(a: seq<Byte>, b: seq<Byte>, left: nat)
    ensures var (x, rest, n) := Take(a, left);
      && Take(a + b, left).0 == x + Take(rest + b, n).0
      && Take(a + b, left).2 == Take(rest + b, n).2
      && (n > 0 ==> Take(a + b, left).1 == Take(rest + b, n).1 && |rest| < RECORD)
    decreases left
  {
    if |a| >= RECORD && left > 0 {
      assert (a + b)[..RECORD] == a[..RECORD] && (a + b)[RECORD..] == a[RECORD..] + b;
      TakeSplit(a[RECORD..], b, left - 1);
    }
  }

  lemma {:induction false} TakeCounts(stream: seq<Byte>, left: nat)
    ensures var (x, rest, n) := Take(stream, left);
      && n + |x| == left && |rest| + 6 * |x| == |stream| && (n > 0 ==> |rest| < RECORD)
    decreases left
  {
    if |stream| >= RECORD && left > 0 {
      TakeCounts(stream[RECORD..], left - 1);
    }
  }

  /** The decoder after the bytes `seen`: nothing but a carried buffer before the header,
      afterwards the records of the table body seen so far. */
  ghost predicate InStep(s: State, buffer: seq<Byte>, seen: seq<Byte>) {
    match HeaderIndex(seen)
    case None => !s.headerSeen && buffer == seen
    case Some(index) =>
      && CountHeader(seen, index).Some?
      && var (x, rest, n) := Take(seen[index + 2..], CountHeader(seen, index).value);
      && s.headerSeen && s.recordsLeft == Some(n) && buffer == (if n > 0 then rest else []) && s.partialBytes == |buffer|
  }

  lemma FrameKeepsStep(s: State, buffer: seq<Byte>, seen: seq<Byte>, data: seq<Byte>, later: seq<Byte>)
    requires InStep(s, buffer, seen) && ValidHeader(seen + data + later)
    ensures var (s1, a) := Frame(s, buffer, data);
      && InStep(s1, a.remainder, seen + data)
      && SplitLinkTable(seen + data) == SplitLinkTable(seen) + a.chunks
      && s1.currentBlock == s.currentBlock == s1.lastDataBlock && s1.extensionFrom == s.extensionFrom
  {
    hide Take, CountHeader, HeaderIndex;
    var (s1, a) := Frame(s, buffer, data);
    var now := seen + data;
    if HeaderIndex(now).Some? {
      HeaderIsStable(now, later);
      var index := HeaderIndex(now).value;
      var count := CountHeader(now, index).value;
      var body := now[index + 2..] by { HeaderInside(now); }
      FullRecordsIsTake(body, 0, count);
      assert body[0..] == body;
      if HeaderIndex(seen).Some? {
        HeaderIsStable(seen, data) by { assert ValidHeader(now); }
        HeaderInside(seen);
        var earlier := seen[index + 2..];
        assert body == earlier + data;
        FullRecordsIsTake(earlier, 0, count);
        assert earlier[0..] == earlier;
        TakeSplit(earlier, data, count);
        var (x, rest, n) := Take(earlier, count);
        TakeNone(data);
        TakeNone(rest + data);
        assert [] + data == data && x + [] == x;
      }
    } else {
      NoHeaderBefore(seen, data);
    }
  }

  lemma HeaderInside(stream: seq<Byte>)
    requires HeaderIndex(stream).Some?
    ensures HeaderIndex(stream).value + 2 <= |stream|
  {
  }

  lemma TakeNone(data: seq<Byte>)
    ensures Take(data, 0) == ([], data, 0)
  {
  }

  lemma NoHeaderBefore(part: seq<Byte>, more: seq<Byte>)
    requires HeaderIndex(part + more).None?
    ensures HeaderIndex(part).None?
  {
    var whole := part + more;
    if |part| >= HEADER_OFFSET + 2 {
      assert whole[..HEADER_OFFSET] == part[..HEADER_OFFSET];
      assert CountHeader(whole, HEADER_OFFSET) == CountHeader(part, HEADER_OFFSET);
    }
    var i, j := LeadingFiller(part, 0), LeadingFiller(whole, 0);
    if i < |part| {
      assert whole[i] == part[i];
      assert j == i;
    }
  }

  lemma {:induction false} FeedKeepsStep(s: State, buffer: seq<Byte>, seen: seq<Byte>, frames: seq<seq<Byte>>, later: seq<Byte>)
    requires InStep(s, buffer, seen) && ValidHeader(seen + Concat(frames) + later)
    ensures var (s1, chunks, remainder) := Feed(s, buffer, frames);
      && InStep(s1, remainder, seen + Concat(frames))
      && SplitLinkTable(seen + Concat(frames)) == SplitLinkTable(seen) + chunks
      && s1.extensionFrom == s.extensionFrom
    decreases |frames|
  {
    hide Frame, InStep, SplitLinkTable, ValidHeader;
    if frames == [] {
      assert seen + Concat(frames) == seen;
      assert SplitLinkTable(seen) + [] == SplitLinkTable(seen);
    } else {
      var rest := Concat(frames[1..]);
      assert seen + Concat(frames) == (seen + frames[0]) + rest;
      assert seen + Concat(frames) + later == seen + frames[0] + (rest + later);
      StepHeader(s, buffer, seen);
      FrameKeepsStep(s, buffer, seen, frames[0], rest + later);
      var (s1, a) := Frame(s, buffer, frames[0]);
      assert (seen + frames[0]) + rest + later == seen + Concat(frames) + later;
      FeedKeepsStep(s1, a.remainder, seen + frames[0], frames[1..], later);
      StepHeader(s1, a.remainder, seen + frames[0]);
      var more := Feed(s1, a.remainder, frames[1..]).1;
      assert SplitLinkTable(seen) + a.chunks + more == SplitLinkTable(seen) + (a.chunks + more);
    }
  }

  lemma StepHeader(s: State, buffer: seq<Byte>, seen: seq<Byte>)
    requires InStep(s, buffer, seen)
    ensures s.headerSeen ==> s.recordsLeft.Some?
  {
  }

  /** However a stream with a valid header is cut into frames, the chunks are the records the
      one-shot split finds in the whole stream. */
  lemma StreamingRefinesOneShot(frames: seq<seq<Byte>>)
    requires ValidHeader(Concat(frames))
    ensures Feed(FRESH, [], frames).1 == SplitLinkTable(Concat(frames))
  {
    hide Frame, SplitLinkTable;
    assert [] + Concat(frames) == Concat(frames);
    assert [] + Concat(frames) + [] == Concat(frames);
    FeedKeepsStep(FRESH, [], [], frames, []);
    NothingSplit();
  }

  lemma NothingSplit()
    ensures SplitLinkTable([]) == [] && HeaderIndex([]) == None
  {
  }

  // ---- the extension completes the table ------------------------------------------------------------

  /** Bytes of the bank from the band's first block up to `block`. */
  function Band(bank: nat -> Byte, end: nat): seq<Byte>
    requires end >= 16 * FIRST_BLOCK
  {
    seq<Byte>(end - 16 * FIRST_BLOCK, i requires 0 <= i => bank(16 * FIRST_BLOCK + i))
  }

  function BlockBytes(bank: nat -> Byte, block: nat): seq<Byte> {
    seq<Byte>(16, i requires 0 <= i => bank(16 * block + i))
  }

  /** Reading blocks in order, as the scan loop does: name the block, then hand its frame over. */
  function ReadBlocks(s: State, buffer: seq<Byte>, bank: nat -> Byte, first: nat, last: nat): (State, seq<seq<Byte>>, seq<Byte>)
    requires s.headerSeen ==> s.recordsLeft.Some?
    requires first <= last + 1
    decreases last + 1 - first
  {
    if first == last + 1 then (s, [], buffer)
    else
      var (s1, a) := Frame(s.(currentBlock := Some(first)), buffer, BlockBytes(bank, first));
      var (s2, more, remainder) := ReadBlocks(s1, a.remainder, bank, first + 1, last);
      (s2, a.chunks + more, remainder)
  }

  /** A written table: filler, then at byte 4998 a count within capacity. */
  ghost predicate WrittenTable(bank: nat -> Byte) {
    && (forall a :: 16 * FIRST_BLOCK <= a < COUNT_ADDRESS ==> bank(a) == 0xFF)
    && 0 < TableCount(bank) <= MAX_RECORDS
  }

  ghost function TableCount(bank: nat -> Byte): nat {
    Word16(bank(COUNT_ADDRESS), bank(COUNT_ADDRESS + 1))
  }

  lemma BandHeader(bank: nat -> Byte, end: nat)
    requires WrittenTable(bank) && end >= 16 * FIRST_BLOCK + 16
    ensures HeaderIndex(Band(bank, end)) == Some(6) && CountHeader(Band(bank, end), 6) == Some(TableCount(bank))
    ensures ValidHeader(Band(bank, end))
  {
    var b := Band(bank, end);
    assert b[6] == bank(COUNT_ADDRESS) && b[7] == bank(COUNT_ADDRESS + 1);
  }

  lemma {:induction false} ReadBlocksInStep(s: State, buffer: seq<Byte>, bank: nat -> Byte, first: nat, last: nat)
    requires WrittenTable(bank) && FIRST_BLOCK <= first <= last + 1
    requires InStep(s, buffer, Band(bank, 16 * first))
    ensures s.headerSeen ==> s.recordsLeft.Some?
    ensures var (s1, chunks, remainder) := ReadBlocks(s, buffer, bank, first, last);
      && InStep(s1, remainder, Band(bank, 16 * (last + 1)))
      && SplitLinkTable(Band(bank, 16 * (last + 1))) == SplitLinkTable(Band(bank, 16 * first)) + chunks
      && (first <= last ==> s1.lastDataBlock == Some(last)) && s1.extensionFrom == s.extensionFrom
    decreases last + 1 - first
  {
    hide Frame, InStep, SplitLinkTable, ValidHeader, WrittenTable, Band;
    StepHeader(s, buffer, Band(bank, 16 * first));
    if first == last + 1 {
      assert SplitLinkTable(Band(bank, 16 * first)) + [] == SplitLinkTable(Band(bank, 16 * first));
    } else {
      var s0 := s.(currentBlock := Some(first));
      StepIgnoresBlock(s, s0, buffer, Band(bank, 16 * first));
      BandHeader(bank, 16 * (first + 1));
      BandGrows(bank, first);
      var data := BlockBytes(bank, first);
      assert Band(bank, 16 * first) + data + [] == Band(bank, 16 * (first + 1));
      FrameKeepsStep(s0, buffer, Band(bank, 16 * first), data, []);
      var (s1, a) := Frame(s0, buffer, data);
      ReadBlocksInStep(s1, a.remainder, bank, first + 1, last);
      var more := ReadBlocks(s1, a.remainder, bank, first + 1, last).1;
      assert SplitLinkTable(Band(bank, 16 * first)) + a.chunks + more == SplitLinkTable(Band(bank, 16 * first)) + (a.chunks + more);
    }
  }

  lemma StepIgnoresBlock(s: State, s0: State, buffer: seq<Byte>, seen: seq<Byte>)
    requires InStep(s, buffer, seen) && s0 == s.(currentBlock := s0.currentBlock)
    ensures InStep(s0, buffer, seen)
  {
  }

  lemma BandGrows(bank: nat -> Byte, block: nat)
    requires block >= FIRST_BLOCK
    ensures Band(bank, 16 * block) + BlockBytes(bank, block) == Band(bank, 16 * (block + 1))
  {
  }

  /** The band read without gaps up to `band`, one extension names blocks within the table's
      capacity that bring in the rest; with them in, every record is out, in order, and nothing
      more is asked for. */
  lemma ExtensionCompletesTable(bank: nat -> Byte, band: nat)
    requires WrittenTable(bank) && FIRST_BLOCK <= band <= LAST_BLOCK
    ensures var (s, chunks, buffer) := ReadBlocks(FRESH, [], bank, FIRST_BLOCK, band);
      && (s.headerSeen ==> s.recordsLeft.Some?)
      && match Extension(s)
        case None => |chunks| == TableCount(bank)
        case Some((first, last)) =>
          && first == band + 1 && first <= last <= LAST_BLOCK
          && var (s1, more, _) := ReadBlocks(s.(extensionFrom := Some(first)), buffer, bank, first, last);
          && (s1.headerSeen ==> s1.recordsLeft.Some?)
          && |chunks + more| == TableCount(bank)
          && chunks + more == SplitLinkTable(Band(bank, 16 * (last + 1)))
          && Extension(s1) == None
  {
    hide Frame, InStep, SplitLinkTable, ValidHeader, Band, ReadBlocks;
    EmptyBand(bank);
    ReadBlocksInStep(FRESH, [], bank, FIRST_BLOCK, band);
    var (s, chunks, buffer) := ReadBlocks(FRESH, [], bank, FIRST_BLOCK, band);
    assert [] + chunks == chunks;
    StepHeader(s, buffer, Band(bank, 16 * (band + 1)));
    BandStep(s, buffer, bank, band);
    if Extension(s).Some? {
      var (first, last) := Extension(s).value;
      var s0 := s.(extensionFrom := Some(first));
      StepIgnoresExtension(s, s0, buffer, Band(bank, 16 * first));
      ReadBlocksInStep(s0, buffer, bank, first, last);
      var (s1, more, rest) := ReadBlocks(s0, buffer, bank, first, last);
      StepHeader(s1, rest, Band(bank, 16 * (last + 1)));
      BandStep(s1, rest, bank, last);
    }
  }

  lemma StepIgnoresExtension(s: State, s0: State, buffer: seq<Byte>, seen: seq<Byte>)
    requires InStep(s, buffer, seen) && s0 == s.(extensionFrom := s0.extensionFrom)
    ensures InStep(s0, buffer, seen)
  {
  }

  lemma EmptyBand(bank: nat -> Byte)
    ensures Band(bank, 16 * FIRST_BLOCK) == [] && SplitLinkTable([]) == [] && InStep(FRESH, [], [])
  {
    NothingSplit();
  }

  /** The counts of a decoder in step with the band read up to `block`. */
  lemma BandStep(s: State, buffer: seq<Byte>, bank: nat -> Byte, block: nat)
    requires WrittenTable(bank) && block >= FIRST_BLOCK && InStep(s, buffer, Band(bank, 16 * (block + 1)))
    ensures s.headerSeen && s.recordsLeft.Some?
    ensures s.recordsLeft.value + |SplitLinkTable(Band(bank, 16 * (block + 1)))| == TableCount(bank)
    ensures s.recordsLeft.value > 0 ==>
      6 * s.recordsLeft.value - s.partialBytes == TABLE_ADDRESS + 6 * TableCount(bank) - 16 * (block + 1) > 0
    ensures TABLE_ADDRESS + 6 * TableCount(bank) <= 16 * (block + 1) ==> s.recordsLeft.value == 0
  {
    hide Take, HeaderIndex, CountHeader;
    var seen := Band(bank, 16 * (block + 1));
    BandHeader(bank, 16 * (block + 1));
    var body := seen[8..];
    TakeCounts(body, TableCount(bank));
    FullRecordsIsTake(body, 0, TableCount(bank));
    assert body[0..] == body;
  }

  /** A module that stopped answering is not asked for the same blocks twice. */
  lemma NoSecondAsk(s: State)
    requires s.headerSeen ==> s.recordsLeft.Some?
    requires Extension(s).Some?
    ensures Extension(s.(extensionFrom := Some(Extension(s).value.0))) == None
  {
  }

  // ---- what the one-shot split means -------------------------------------------------------------------

  /** Where the count stands: behind six bytes of filler if a count from 1 to 1864 follows them, else
      behind whatever filler leads the stream; and it has its low byte first. */
  lemma HeaderIs(stream: seq<Byte>)
    ensures var sixth := |stream| >= 8 && (forall i :: 0 <= i < 6 ==> stream[i] == 0xFF)
        && 0 < (stream[6] as int) + 256 * (stream[7] as int) <= 1864;
      && (sixth ==> HeaderIndex(stream) == Some(6))
      && (!sixth ==> forall i :: 0 <= i <= |stream| && (forall j :: 0 <= j < i ==> stream[j] == 0xFF) && (i < |stream| ==> stream[i] != 0xFF) ==>
            HeaderIndex(stream) == if i + 2 <= |stream| then Some(i) else None)
    ensures HeaderIndex(stream).Some? ==>
      var at := HeaderIndex(stream).value;
      at + 2 <= |stream| && CountHeader(stream, at) ==
        var count := (stream[at] as int) + 256 * (stream[at + 1] as int); if 0 < count <= 1864 then Some(count) else None
  {
    hide LeadingFiller;
    SixthIs(stream);
    forall i | 0 <= i <= |stream| && (forall j :: 0 <= j < i ==> stream[j] == 0xFF) && (i < |stream| ==> stream[i] != 0xFF)
      ensures LeadingFiller(stream, 0) == i
    {
      LeadingIs(stream, i);
    }
  }

  lemma LeadingIs(stream: seq<Byte>, i: nat)
    requires i <= |stream| && (forall j :: 0 <= j < i ==> stream[j] == 0xFF) && (i < |stream| ==> stream[i] != 0xFF)
    ensures LeadingFiller(stream, 0) == i
  {
    var n := LeadingFiller(stream, 0);
    assert n < |stream| ==> stream[n] != 0xFF;
  }

  lemma SixthIs(stream: seq<Byte>)
    ensures (|stream| >= 8 && AllFiller(stream[..6]) && CountHeader(stream, 6).Some?) <==>
      (|stream| >= 8 && (forall i :: 0 <= i < 6 ==> stream[i] == 0xFF) && 0 < (stream[6] as int) + 256 * (stream[7] as int) <= 1864)
  {
    if |stream| >= 8 {
      assert forall i :: 0 <= i < 6 ==> stream[..6][i] == stream[i];
    }
  }

  lemma {:induction false} FullRecordsAre(body: seq<Byte>, i: nat, count: nat, k: nat)
    requires i <= count
    ensures var n := if 6 * count <= |body| then count else |body| / 6;
      && |FullRecords(body, i, count)| == (if i <= n then n - i else 0)
      && (i <= k < n ==> 6 * k + 6 <= |body| && FullRecords(body, i, count)[k - i] == body[6 * k..6 * k + 6])
    decreases count - i
  {
    hide Clamp;
    if i < count {
      FullRecordsAre(body, i + 1, count, k);
      RecordAt(body, i);
    }
  }

  lemma RecordAt(body: seq<Byte>, i: nat)
    ensures var record := Clamp(body, 6 * i, 6 * (i + 1));
      if 6 * i + 6 <= |body| then record == body[6 * i..6 * i + 6] else |record| != 6
  {
  }

  /** The split of a stream: as many six-byte records behind the count as it says, or as are there in
      full, one after another. */
  lemma SplitIs(stream: seq<Byte>, k: nat)
    requires ValidHeader(stream)
    ensures var at := HeaderIndex(stream).value + 2;
      var count := CountHeader(stream, at - 2).value;
      var n := if at + 6 * count <= |stream| then count else (|stream| - at) / 6;
      && |SplitLinkTable(stream)| == n
      && (k < n ==> at + 6 * k + 6 <= |stream| && SplitLinkTable(stream)[k] == stream[at + 6 * k..at + 6 * k + 6])
  {
    hide HeaderIndex, CountHeader, FullRecords;
    HeaderInside(stream);
    var at := HeaderIndex(stream).value + 2;
    FullRecordsAre(stream[at..], 0, CountHeader(stream, at - 2).value, k);
  }
}
