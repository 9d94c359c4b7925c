/** The PC-Logic's input table: read block by block in order, decoded as far as it is complete,
    extended from the count it carries (`pc_logic_decoder.py`). */
module PcLogicTable {
  import opened Wrappers
  import opened Bits
  import opened Blocks
  import opened Addresses

  const COUNT_ADDRESS: nat := 998
  const TABLE_ADDRESS: nat := 1000
  const MAX_RECORDS: nat := 1536
  const RECORD: nat := 6
  const FIRST_BLOCK: nat := 998 / 16
  const OFFSET: nat := 6
  const LAST_BLOCK: nat := (1000 + 1536 * 6 - 1) / 16

  function TableLastBlock(count: Option<nat>): nat {
    match count
    case None => FIRST_BLOCK + 1
    case Some(n) =>
      if n == 0 then FIRST_BLOCK
      else
        var end := (TABLE_ADDRESS + n * RECORD - 1) / 16;
        if end < LAST_BLOCK then end else LAST_BLOCK
  }

  datatype InputLink = InputLink(stored: nat, button: nat, wire: nat, keyCode: nat, input: nat, slot: nat, mode: nat)

  predicate Erased(record: seq<Byte>) {
    forall i :: 0 <= i < |record| ==> record[i] == 0xFF
  }

  function Address24(record: seq<Byte>): (v: nat)
    requires |record| == RECORD
    ensures v < FRAMES
  {
    0x10000 * (record[0] as int) + 256 * (record[1] as int) + record[2]
  }

  /** `decode_input_link` */
  function DecodeInputLink(record: seq<Byte>): Option<InputLink> {
    if |record| != RECORD || Erased(record) then None
    else
      var address := Address24(record);
      Some(InputLink(address, GetButtonAddress(ReverseBytes(address)), Rev(address, 24), address % 8, record[3], record[4], record[5]))
  }

  datatype State = State(stream: seq<Byte>, count: Option<nat>, broken: bool, links: seq<InputLink>, extensionFrom: Option<nat>)

  const FRESH: State := State([], None, false, [], None)

  /** The count at byte 998; erased memory and anything past capacity read as an empty table. */
  function CountIn(stream: seq<Byte>): nat
    requires |stream| >= OFFSET + 2
  {
    var count := Word16(stream[OFFSET], stream[OFFSET + 1]);
    if count > MAX_RECORDS then 0 else count
  }

  function RecordStart(i: nat): nat {
    OFFSET + 2 + i * RECORD
  }

  /** Decode from link `i` on while a record is complete and counted; an erased record ends
      the table. The links added, and the count that stands afterwards. */
  function DecodeFrom(stream: seq<Byte>, count: nat, i: nat): (seq<InputLink>, nat)
    decreases count - i
  {
    if i >= count || RecordStart(i + 1) > |stream| then ([], count)
    else
      match DecodeInputLink(stream[RecordStart(i)..RecordStart(i + 1)])
      case None => ([], i)
      case Some(link) =>
        var (more, n) := DecodeFrom(stream, count, i + 1);
        ([link] + more, n)
  }

  /** `_absorb_input_block` */
  function Absorb(s: State, block: nat, data: seq<Byte>): State {
    if s.broken then s
    else if block != FIRST_BLOCK + |s.stream| / 16 then s.(broken := true)
    else
      var stream := s.stream + data;
      if s.count.None? && |stream| < OFFSET + 2 then s.(stream := stream)
      else
        var count := if s.count.Some? then s.count.value else CountIn(stream);
        var (more, n) := DecodeFrom(stream, count, |s.links|);
        s.(stream := stream, links := s.links + more, count := Some(n))
  }

  /** `analyze_frame_payload`: a block of the table as far as it is known is absorbed, any
      other one belongs to the registry and leaves the table alone. */
  function Analyze(s: State, block: Option<nat>, data: seq<Byte>): State {
    if block.Some? && FIRST_BLOCK <= block.value <= TableLastBlock(s.count) then Absorb(s, block.value, data) else s
  }

  /** `extension_passes`, as a first and last block. */
  function Extension(s: State): Option<(nat, nat)> {
    if s.count.None? || s.broken || |s.links| >= s.count.value then None
    else
      var first := FIRST_BLOCK + |s.stream| / 16;
      if s.extensionFrom.Some? && first <= s.extensionFrom.value then None
      else
        var last := TableLastBlock(s.count);
        if last < first then None else Some((first, last))
  }

  lemma OneMore(stream: seq<Byte>, count: nat, links: seq<InputLink>, link: InputLink)
    requires |links| < count && RecordStart(|links| + 1) <= |stream|
    requires DecodeInputLink(stream[RecordStart(|links|)..RecordStart(|links| + 1)]) == Some(link)
    ensures links + DecodeFrom(stream, count, |links|).0 == (links + [link]) + DecodeFrom(stream, count, |links| + 1).0
    ensures DecodeFrom(stream, count, |links|).1 == DecodeFrom(stream, count, |links| + 1).1
  {
    hide DecodeInputLink;
    var more := DecodeFrom(stream, count, |links| + 1).0;
    assert links + ([link] + more) == (links + [link]) + more;
  }

  class PcLogicDecoder {
    var currentBlock: Option<nat>
    var inputStream: seq<Byte>
    var inputCount: Option<nat>
    var inputBroken: bool
    var inputLinks: seq<InputLink>
    var extensionFrom: Option<nat>

    function Value(): State
      reads this
    {
      State(inputStream, inputCount, inputBroken, inputLinks, extensionFrom)
    }

    constructor ()
      ensures Value() == FRESH && currentBlock == None
    {
      currentBlock, inputStream, inputCount, inputBroken, inputLinks, extensionFrom := None, [], None, false, [], None;
    }

    method SetCurrentBlock(subByte: Byte, register: Byte)
      modifies this`currentBlock
      ensures currentBlock == Some(256 * (subByte as int) + register)
    {
      currentBlock := Some(256 * (subByte as int) + register);
    }

    method AbsorbInputBlock(block: nat, data: seq<Byte>)
      modifies this
      ensures Value() == Absorb(old(Value()), block, data) && currentBlock == old(currentBlock)
    {
      if inputBroken {
        return;
      }
      if block != FIRST_BLOCK + |inputStream| / 16 {
        inputBroken := true;
        return;
      }
      inputStream := inputStream + data;
      if inputCount.None? {
        if |inputStream| < OFFSET + 2 {
          return;
        }
        inputCount := Some(CountIn(inputStream));
      }
      DecodeComplete();
    }

    /** Decode every counted record the stream completes. */
    method DecodeComplete()
      requires inputCount.Some?
      modifies this`inputLinks, this`inputCount
      ensures inputLinks == old(inputLinks) + DecodeFrom(inputStream, old(inputCount).value, |old(inputLinks)|).0
      ensures inputCount == Some(DecodeFrom(inputStream, old(inputCount).value, |old(inputLinks)|).1)
    {
      hide DecodeInputLink;
      ghost var count, known := inputCount.value, inputLinks;
      ghost var (more, final) := DecodeFrom(inputStream, count, |known|);
      while |inputLinks| < inputCount.value
        invariant inputCount == Some(count)
        invariant known + more == inputLinks + DecodeFrom(inputStream, count, |inputLinks|).0
        invariant final == DecodeFrom(inputStream, count, |inputLinks|).1
        decreases count - |inputLinks|
      {
        var index := |inputLinks|;
        var end := RecordStart(index + 1);
        if end > |inputStream| {
          break;
        }
        var decoded := DecodeInputLink(inputStream[RecordStart(index)..end]);
        if decoded.None? {
          inputCount := Some(index);
          assert inputLinks + [] == inputLinks;
          return;
        }
        OneMore(inputStream, count, inputLinks, decoded.value);
        inputLinks := inputLinks + [decoded.value];
      }
      assert inputLinks + [] == inputLinks;
    }

    method AnalyzeFramePayload(payloadAndCrc: seq<Byte>) returns (absorbed: bool)
      modifies this
      ensures absorbed <==> old(currentBlock).Some? && FIRST_BLOCK <= old(currentBlock).value <= TableLastBlock(old(inputCount)) && |payloadAndCrc| >= 3
      ensures |payloadAndCrc| < 3 ==> Value() == old(Value())
      ensures |payloadAndCrc| >= 3 ==> Value() == Analyze(old(Value()), old(currentBlock), payloadAndCrc[..|payloadAndCrc| - 3])
    {
      absorbed := false;
      if currentBlock.Some? && FIRST_BLOCK <= currentBlock.value <= TableLastBlock(inputCount) {
        if |payloadAndCrc| < 3 {
          return;
        }
        AbsorbInputBlock(currentBlock.value, payloadAndCrc[..|payloadAndCrc| - 3]);
        absorbed := true;
      }
    }

    method ExtensionPasses() returns (sections: seq<(nat, seq<nat>)>)
      modifies this`extensionFrom
      ensures match old(Extension(Value()))
        case None => sections == [] && extensionFrom == old(extensionFrom)
        case Some((first, last)) => sections == Sections(first, last) && extensionFrom == Some(first)
    {
      if inputCount.None? || inputBroken || |inputLinks| >= inputCount.value {
        return [];
      }
      var first := FIRST_BLOCK + |inputStream| / 16;
      if extensionFrom.Some? && first <= extensionFrom.value {
        return [];
      }
      var last := TableLastBlock(inputCount);
      if last < first {
        return [];
      }
      extensionFrom := Some(first);
      sections := BlocksToSections(first, last);
    }
  }

  // ---- the links are always the decode of what has been read -----------------------------------------

  /** The decode of a whole stream read in one piece. */
  function DecodeTable(stream: seq<Byte>): (seq<InputLink>, Option<nat>) {
    if |stream| < OFFSET + 2 then ([], None)
    else
      var (links, n) := DecodeFrom(stream, CountIn(stream), 0);
      (links, Some(n))
  }

  ghost predicate InStep(s: State, stream: seq<Byte>) {
    !s.broken && s.stream == stream && (s.links, s.count) == DecodeTable(stream)
  }

  /** Decoding what a longer stream completes continues where the shorter one stopped. */
  lemma {:induction false} DecodeContinues(part: seq<Byte>, more: seq<Byte>, count: nat, i: nat)
    ensures var (links, n) := DecodeFrom(part, count, i);
      var (rest, m) := DecodeFrom(part + more, n, i + |links|);
      && DecodeFrom(part + more, count, i) == (links + rest, m)
      && (i <= count ==> i + |links| <= n <= count)
    decreases count - i
  {
    hide DecodeInputLink;
    if i < count && RecordStart(i + 1) <= |part| {
      assert (part + more)[RecordStart(i)..RecordStart(i + 1)] == part[RecordStart(i)..RecordStart(i + 1)];
      var d := DecodeInputLink(part[RecordStart(i)..RecordStart(i + 1)]);
      if d.Some? {
        DecodeContinues(part, more, count, i + 1);
        var (links, n) := DecodeFrom(part, count, i + 1);
        var (rest, m) := DecodeFrom(part + more, n, i + 1 + |links|);
        assert [d.value] + (links + rest) == ([d.value] + links) + rest;
      } else {
        var none: seq<InputLink> := [];
        assert DecodeFrom(part, count, i) == (none, i) && DecodeFrom(part + more, i, i) == (none, i);
        assert DecodeFrom(part + more, count, i) == (none, i) && none + none == none;
      }
    } else {
      var rest := DecodeFrom(part + more, count, i).0;
      assert [] + rest == rest;
    }
  }

  lemma AbsorbKeepsStep(s: State, stream: seq<Byte>, data: seq<Byte>)
    requires InStep(s, stream) && |stream| % 16 == 0
    ensures InStep(Absorb(s, FIRST_BLOCK + |stream| / 16, data), stream + data)
  {
    hide DecodeFrom;
    if |stream| >= OFFSET + 2 {
      DecodeContinues(stream, data, CountIn(stream), 0);
    } else {
      var all := DecodeFrom(stream + data, if |stream + data| < 8 then 0 else CountIn(stream + data), 0).0;
      assert [] + all == all;
    }
  }

  function BlockBytes(memory: nat -> Byte, block: nat): seq<Byte> {
    seq<Byte>(16, i requires 0 <= i => memory(16 * block + i))
  }

  function ReadBlocks(s: State, memory: nat -> Byte, first: nat, last: nat): State
    requires first <= last + 1
    decreases last + 1 - first
  {
    if first == last + 1 then s
    else ReadBlocks(Analyze(s, Some(first), BlockBytes(memory, first)), memory, first + 1, last)
  }

  /** The bytes of the table's blocks, up to but not including block `end`. */
  function TableBytes(memory: nat -> Byte, end: nat): seq<Byte>
    requires end >= FIRST_BLOCK
  {
    seq<Byte>(16 * (end - FIRST_BLOCK), i requires 0 <= i => memory(16 * FIRST_BLOCK + i))
  }

  lemma TableGrows(memory: nat -> Byte, block: nat)
    requires block >= FIRST_BLOCK
    ensures TableBytes(memory, block) + BlockBytes(memory, block) == TableBytes(memory, block + 1)
    ensures |TableBytes(memory, block)| == 16 * (block - FIRST_BLOCK)
  {
  }

  /** Blocks fed in order while they belong to the table: the links are the decode of the bytes
      read, whatever was absorbed before. */
  lemma {:induction false} InOrderBlocksDecode(s: State, memory: nat -> Byte, first: nat, last: nat)
    requires FIRST_BLOCK <= first <= last + 1 && InStep(s, TableBytes(memory, first))
    requires forall b :: first <= b <= last ==> b <= TableLastBlock(DecodeTable(TableBytes(memory, b)).1)
    ensures InStep(ReadBlocks(s, memory, first, last), TableBytes(memory, last + 1))
    ensures ReadBlocks(s, memory, first, last).extensionFrom == s.extensionFrom
    decreases last + 1 - first
  {
    hide Absorb, DecodeTable, TableBytes;
    if first <= last {
      TableGrows(memory, first);
      AbsorbKeepsStep(s, TableBytes(memory, first), BlockBytes(memory, first));
      StepCount(s, TableBytes(memory, first));
      AbsorbKeepsExtension(s, first, BlockBytes(memory, first));
      InOrderBlocksDecode(Absorb(s, first, BlockBytes(memory, first)), memory, first + 1, last);
    }
  }

  lemma StepCount(s: State, stream: seq<Byte>)
    requires InStep(s, stream)
    ensures s.count == DecodeTable(stream).1 && s.stream == stream && s.links == DecodeTable(stream).0 && !s.broken
  {
  }

  lemma AbsorbKeepsExtension(s: State, block: nat, data: seq<Byte>)
    ensures Absorb(s, block, data).extensionFrom == s.extensionFrom
  {
  }

  // ---- the extension brings in every record ---------------------------------------------------------

  ghost function TableCount(memory: nat -> Byte): nat {
    Word16(memory(COUNT_ADDRESS), memory(COUNT_ADDRESS + 1))
  }

  function RecordBytes(memory: nat -> Byte, i: nat): seq<Byte> {
    seq<Byte>(RECORD, j requires 0 <= j => memory(TABLE_ADDRESS + RECORD * i + j))
  }

  /** A table of at most 1536 records, none of them erased. */
  ghost predicate WrittenTable(memory: nat -> Byte) {
    && TableCount(memory) <= MAX_RECORDS
    && forall i :: 0 <= i < TableCount(memory) ==> !Erased(RecordBytes(memory, i))
  }

  function AllLinks(memory: nat -> Byte, first: nat, end: nat): seq<InputLink>
    requires first <= end && forall i :: first <= i < end ==> !Erased(RecordBytes(memory, i))
    decreases end - first
  {
    if first == end then [] else [DecodeInputLink(RecordBytes(memory, first)).value] + AllLinks(memory, first + 1, end)
  }

  /** Records complete once the blocks before `end` are in. */
  function Complete(memory: nat -> Byte, end: nat): nat
    requires end > FIRST_BLOCK
  {
    var n := (16 * (end - FIRST_BLOCK) - 8) / 6;
    var count := Word16(memory(COUNT_ADDRESS), memory(COUNT_ADDRESS + 1));
    if n < count then n else count
  }

  lemma {:induction false} DecodeWritten(memory: nat -> Byte, end: nat, i: nat)
    requires WrittenTable(memory) && end > FIRST_BLOCK && i <= Complete(memory, end)
    ensures DecodeFrom(TableBytes(memory, end), TableCount(memory), i) == (AllLinks(memory, i, Complete(memory, end)), TableCount(memory))
    decreases Complete(memory, end) - i
  {
    hide DecodeInputLink, Erased;
    var stream := TableBytes(memory, end);
    if i < Complete(memory, end) {
      assert stream[RecordStart(i)..RecordStart(i + 1)] == RecordBytes(memory, i);
      RecordDecodes(RecordBytes(memory, i));
      DecodeWritten(memory, end, i + 1);
    }
  }

  lemma RecordDecodes(record: seq<Byte>)
    requires |record| == RECORD && !Erased(record)
    ensures DecodeInputLink(record).Some?
  {
  }

  lemma WrittenDecode(memory: nat -> Byte, end: nat)
    requires WrittenTable(memory) && end > FIRST_BLOCK
    ensures DecodeTable(TableBytes(memory, end)) == (AllLinks(memory, 0, Complete(memory, end)), Some(TableCount(memory)))
  {
    hide DecodeFrom, Erased, RecordBytes, AllLinks, Complete;
    CountOfTable(memory, end);
    DecodeWritten(memory, end, 0);
  }

  lemma CountOfTable(memory: nat -> Byte, end: nat)
    requires end > FIRST_BLOCK && TableCount(memory) <= MAX_RECORDS
    ensures |TableBytes(memory, end)| >= OFFSET + 2 && CountIn(TableBytes(memory, end)) == TableCount(memory)
  {
    var stream := TableBytes(memory, end);
    assert stream[OFFSET] == memory(COUNT_ADDRESS) && stream[OFFSET + 1] == memory(COUNT_ADDRESS + 1);
  }

  lemma {:induction false} AllLinksLength(memory: nat -> Byte, first: nat, end: nat)
    requires first <= end && forall i :: first <= i < end ==> !Erased(RecordBytes(memory, i))
    ensures |AllLinks(memory, first, end)| == end - first
    decreases end - first
  {
    hide Erased;
    if first < end {
      AllLinksLength(memory, first + 1, end);
    }
  }

  /** Blocks of the table read on behind those read so far. */
  lemma ReadTo(s: State, memory: nat -> Byte, first: nat, last: nat)
    requires WrittenTable(memory) && FIRST_BLOCK <= first <= last <= TableLastBlock(Some(TableCount(memory)))
    requires InStep(s, TableBytes(memory, first))
    ensures var s1 := ReadBlocks(s, memory, first, last);
      && InStep(s1, TableBytes(memory, last + 1)) && s1.extensionFrom == s.extensionFrom && !s1.broken
      && s1.links == AllLinks(memory, 0, Complete(memory, last + 1)) && |s1.links| == Complete(memory, last + 1)
      && s1.count == Some(TableCount(memory)) && FIRST_BLOCK + |s1.stream| / 16 == last + 1
  {
    hide DecodeTable, TableBytes, AllLinks, ReadBlocks, Erased, InStep, TableLastBlock, Complete;
    forall b | first <= b <= last ensures b <= TableLastBlock(DecodeTable(TableBytes(memory, b)).1) {
      if b == FIRST_BLOCK {
        EmptyTable(memory);
      } else {
        WrittenDecode(memory, b);
      }
    }
    InOrderBlocksDecode(s, memory, first, last);
    StepCount(ReadBlocks(s, memory, first, last), TableBytes(memory, last + 1));
    WrittenDecode(memory, last + 1);
    CompleteBound(memory, last + 1);
    AllLinksLength(memory, 0, Complete(memory, last + 1));
    TableGrows(memory, last + 1);
  }

  /** The fixed plan's table blocks read, one extension names exactly the blocks that bring in
      every counted record, and then asks for nothing more. */
  lemma ExtensionCompletesTable(memory: nat -> Byte, band: nat)
    requires WrittenTable(memory) && FIRST_BLOCK <= band <= FIRST_BLOCK + 1
    requires band <= TableLastBlock(Some(TableCount(memory)))
    ensures var s := ReadBlocks(FRESH, memory, FIRST_BLOCK, band);
      match Extension(s)
      case None => s.links == AllLinks(memory, 0, TableCount(memory))
      case Some((first, last)) =>
        && first == band + 1 && last == TableLastBlock(Some(TableCount(memory))) && first <= last
        && var s1 := ReadBlocks(s.(extensionFrom := Some(first)), memory, first, last);
        && s1.links == AllLinks(memory, 0, TableCount(memory)) && Extension(s1) == None
  {
    hide DecodeTable, TableBytes, AllLinks, ReadBlocks, Erased, TableLastBlock, Complete, InStep;
    FreshInStep(memory);
    ReadTo(FRESH, memory, FIRST_BLOCK, band);
    CompleteAt(memory, band + 1);
    CompleteBound(memory, band + 1);
    var s := ReadBlocks(FRESH, memory, FIRST_BLOCK, band);
    if Extension(s).Some? {
      var (first, last) := Extension(s).value;
      var s0 := s.(extensionFrom := Some(first));
      AskedInStep(s, TableBytes(memory, first), first);
      ReadTo(s0, memory, first, last);
      CompleteAt(memory, last + 1);
    }
  }

  lemma CompleteBound(memory: nat -> Byte, end: nat)
    requires end > FIRST_BLOCK
    ensures Complete(memory, end) <= TableCount(memory)
  {
  }

  lemma FreshInStep(memory: nat -> Byte)
    ensures InStep(FRESH, TableBytes(memory, FIRST_BLOCK))
  {
    hide DecodeTable, TableBytes;
    EmptyTable(memory);
  }

  lemma AskedInStep(s: State, stream: seq<Byte>, first: nat)
    requires InStep(s, stream)
    ensures InStep(s.(extensionFrom := Some(first)), stream)
  {
    hide DecodeTable;
  }

  /** The table's last block completes the table, and no earlier one does. */
  lemma CompleteAt(memory: nat -> Byte, end: nat)
    requires TableCount(memory) <= MAX_RECORDS && end > FIRST_BLOCK
    ensures Complete(memory, end) == TableCount(memory) <==> end > TableLastBlock(Some(TableCount(memory)))
  {
  }

  lemma EmptyTable(memory: nat -> Byte)
    ensures TableBytes(memory, FIRST_BLOCK) == [] && DecodeTable([]) == ([], None)
    ensures InStep(FRESH, []) && TableLastBlock(None) == FIRST_BLOCK + 1
  {
  }

  // ---- a gap freezes the table ------------------------------------------------------------------------

  /** Any further frames, of whatever blocks. */
  function AnalyzeAll(s: State, frames: seq<(Option<nat>, seq<Byte>)>): State
    decreases |frames|
  {
    if frames == [] then s else AnalyzeAll(Analyze(s, frames[0].0, frames[0].1), frames[1..])
  }

  /** A block of the table that arrives out of order freezes the links for good, and nothing
      more is asked for. */
  lemma {:induction false} GapFreezesTable(s: State, block: nat, data: seq<Byte>, later: seq<(Option<nat>, seq<Byte>)>)
    requires FIRST_BLOCK <= block <= TableLastBlock(s.count) && block != FIRST_BLOCK + |s.stream| / 16
    ensures var end := AnalyzeAll(Analyze(s, Some(block), data), later);
      end.links == s.links && end.stream == s.stream && end.count == s.count && end.broken && Extension(end) == None
    decreases |later|
  {
    BrokenStays(Analyze(s, Some(block), data), later);
  }

  lemma {:induction false} BrokenStays(s: State, later: seq<(Option<nat>, seq<Byte>)>)
    requires s.broken
    ensures AnalyzeAll(s, later) == s
    decreases |later|
  {
    if later != [] {
      BrokenStays(s, later[1..]);
    }
  }

  /** Every link names its key's frame: the plate behind it, that key's index and the wire
      address agree. */
  lemma LinkNamesItsFrame(record: seq<Byte>)
    requires |record| == RECORD && !Erased(record)
    ensures var link := DecodeInputLink(record).value;
      link.button == link.stored / 4 && RecordBusAddress(link.button, link.stored % 4) == Some(link.wire)
  {
    hide Rev;
    StoredAddressMeansItsFrame(Address24(record));
  }

  // ---- what a record and the count mean ---------------------------------------------------------------

  /** A link holds the record's address, high byte first, with the key in its lowest bits, and then its
      input, its slot and its mode; filler holds none. */
  lemma RecordFields(record: seq<Byte>)
    requires |record| == 6
    ensures DecodeInputLink(record).None? <==> forall i :: 0 <= i < 6 ==> record[i] == 0xFF
    ensures DecodeInputLink(record).Some? ==>
      var link := DecodeInputLink(record).value;
      && link.stored == 0x10000 * (record[0] as int) + 0x100 * (record[1] as int) + (record[2] as int) && link.keyCode == link.stored % 8
      && link.button == link.stored / 4 && link.input == record[3] && link.slot == record[4] && link.mode == record[5]
  {
    hide Rev;
    StoredAddressMeansItsFrame(Address24(record));
  }

  /** The count stands at byte 998, low byte first. */
  lemma CountIsAt998(memory: nat -> Byte, end: nat)
    requires end > 62
    ensures |TableBytes(memory, end)| >= 8
    ensures var count := (memory(998) as int) + 256 * (memory(999) as int);
      CountIn(TableBytes(memory, end)) == (if count > 1536 then 0 else count) && TableCount(memory) == count
  {
    var stream := TableBytes(memory, end);
    assert stream[6] == memory(16 * FIRST_BLOCK + 6) && stream[7] == memory(16 * FIRST_BLOCK + 7);
  }

  /** An erased record ends the table, whatever was counted: with the records before it written, the
      links are theirs and the count is their number. */
  lemma {:induction false} ErasedRecordEnds(memory: nat -> Byte, end: nat, i: nat, last: nat, count: nat)
    requires end > FIRST_BLOCK && i <= last < count && RecordStart(last + 1) <= 16 * (end - FIRST_BLOCK)
    requires (forall x :: i <= x < last ==> !Erased(RecordBytes(memory, x))) && Erased(RecordBytes(memory, last))
    ensures DecodeFrom(TableBytes(memory, end), count, i) == (AllLinks(memory, i, last), last)
    decreases last - i
  {
    hide DecodeInputLink, Erased, TableBytes, RecordBytes;
    RecordOfTable(memory, end, i, last);
    if i == last {
      ErasedDecodesNot(RecordBytes(memory, i));
    } else {
      RecordDecodes(RecordBytes(memory, i));
      ErasedRecordEnds(memory, end, i + 1, last, count);
    }
  }

  lemma RecordOfTable(memory: nat -> Byte, end: nat, i: nat, last: nat)
    requires end > FIRST_BLOCK && i <= last && RecordStart(last + 1) <= 16 * (end - FIRST_BLOCK)
    ensures |TableBytes(memory, end)| == 16 * (end - FIRST_BLOCK) && RecordStart(i + 1) <= RecordStart(last + 1)
    ensures TableBytes(memory, end)[RecordStart(i)..RecordStart(i + 1)] == RecordBytes(memory, i)
  {
  }

  lemma ErasedDecodesNot(record: seq<Byte>)
    requires Erased(record)
    ensures DecodeInputLink(record).None?
  {
  }

  /** The table's links: record `i` at byte 1000 + 6 i. */
  lemma {:induction false} LinksAreRecords(memory: nat -> Byte, first: nat, end: nat, i: nat)
    requires first <= i < end && forall x :: first <= x < end ==> !Erased(RecordBytes(memory, x))
    ensures |AllLinks(memory, first, end)| == end - first
    ensures Some(AllLinks(memory, first, end)[i - first]) ==
      DecodeInputLink([memory(1000 + 6 * i), memory(1001 + 6 * i), memory(1002 + 6 * i), memory(1003 + 6 * i), memory(1004 + 6 * i), memory(1005 + 6 * i)])
    decreases end - first
  {
    hide DecodeInputLink, Erased, RecordBytes;
    AllLinksLength(memory, first, end);
    RecordSix(memory, i);
    if first < i {
      LinksAreRecords(memory, first + 1, end, i);
    } else {
      RecordDecodes(RecordBytes(memory, i));
    }
  }

  lemma RecordSix(memory: nat -> Byte, i: nat)
    ensures RecordBytes(memory, i) ==
      [memory(1000 + 6 * i), memory(1001 + 6 * i), memory(1002 + 6 * i), memory(1003 + 6 * i), memory(1004 + 6 * i), memory(1005 + 6 * i)]
  {
  }
}
