/** Link tables of switch, roller and dimmer modules: the memory the simulator builds, the
    registers a count-driven scan reads, and the records the chunk decoder takes out of them.
    Hex text is modelled as the bytes it spells. */
module LinkTables {
  import opened Wrappers
  import opened Bits
  import opened Modules
  import opened Addresses

  /** A programmed link as an installation declares it. */
  datatype Link = Link(button: nat, channel: nat, mode: nat, key: nat, t1: nat, t2: nat)

  /** A record as a decoder reports it: `calendar` is the PC-Link channel number, if it is one. */
  datatype Decoded = Decoded(button: nat, calendar: Option<nat>, key: nat, channel: nat, t1: nat, mode: nat, t2: Option<nat>)

  type Family = t: ModuleType | t != OtherModule witness SwitchModule

  function RecordLength(t: Family): nat {
    if t == DimmerModule then 8 else 6
  }

  function RegisterWidth(t: Family): nat {
    if t == DimmerModule then 8 else 16
  }

  function FirstRegister(t: Family): nat {
    if t == DimmerModule then 0x20 else 0x10
  }

  // ---- encoding ---------------------------------------------------------------------------------

  function ChannelNibble(t: Family, channel: nat): nat {
    var index := if channel == 0 then 0 else channel - 1;
    if t == RollerModule then index * 2 else index
  }

  /** Every field fits the digits a record gives it. */
  predicate Fits(t: Family, link: Link) {
    && link.button < PLATES && link.key < 16 && link.t1 < 16 && link.t2 < 16 && link.mode < 16
    && ChannelNibble(t, link.channel) < 16
  }

  function AsByte(v: nat): Byte {
    v % 256
  }

  /** `encode_link` / `encode_dimmer_link`: one record, in storage order. */
  function EncodeLink(t: Family, link: Link): (r: seq<Byte>)
    requires Fits(t, link)
    ensures |r| == RecordLength(t)
  {
    var address := EncodeButtonAddress(link.button).value;
    [AsByte(address), AsByte(address / 256), AsByte(address / 0x10000),
     16 * link.t1 + link.mode, 16 * link.key + ChannelNibble(t, link.channel), link.t2]
    + (if t == DimmerModule then [0, 0] else [])
  }

  predicate AllFit(t: Family, links: seq<Link>) {
    forall k :: 0 <= k < |links| ==> Fits(t, links[k])
  }

  function Stream(t: Family, links: seq<Link>): seq<Byte>
    requires AllFit(t, links)
  {
    if links == [] then [] else EncodeLink(t, links[0]) + Stream(t, links[1..])
  }

  function Filler(n: nat): seq<Byte> {
    seq(n, _ => 0xFF)
  }

  /** Bytes `start` to `start + width` of the stream, the missing ones filler. */
  function Padded(stream: seq<Byte>, start: nat, width: nat): seq<Byte> {
    seq<Byte>(width, j requires 0 <= j < width => if start + j < |stream| then stream[start + j] else 0xFF)
  }

  type Memory = map<nat, seq<Byte>>

  /** The registers a stream was cut into so far. */
  ghost predicate IsCut(out: Memory, stream: seq<Byte>, firstRegister: nat, width: nat, count: nat) {
    && (forall r :: r in out <==> firstRegister <= r < firstRegister + count)
    && (forall r :: r in out ==> out[r] == Padded(stream, (r - firstRegister) * width, width))
  }

  lemma CutNothing(stream: seq<Byte>, firstRegister: nat, width: nat)
    ensures IsCut(map[], stream, firstRegister, width, 0)
  {
  }

  lemma CutOneMore(out: Memory, stream: seq<Byte>, firstRegister: nat, width: nat, count: nat)
    requires IsCut(out, stream, firstRegister, width, count)
    ensures (count + 1) * width == count * width + width
    ensures IsCut(out[firstRegister + count := Padded(stream, count * width, width)], stream, firstRegister, width, count + 1)
  {
    hide Padded;
  }

  /** `_registers`: a stream cut into registers, the last one padded. */
  method CutRegisters(stream: seq<Byte>, firstRegister: nat, width: nat) returns (out: Memory, count: nat)
    requires width > 0
    ensures count * width >= |stream| && (count > 0 ==> (count - 1) * width < |stream|)
    ensures IsCut(out, stream, firstRegister, width, count)
  {
    hide Padded, IsCut;
    out, count := map[], 0;
    CutNothing(stream, firstRegister, width);
    var index := 0;
    while index < |stream|
      invariant index == count * width && (count > 0 ==> (count - 1) * width < |stream|)
      invariant IsCut(out, stream, firstRegister, width, count)
      decreases |stream| - index
    {
      CutOneMore(out, stream, firstRegister, width, count);
      out := out[firstRegister + count := Padded(stream, index, width)];
      index, count := index + width, count + 1;
    }
  }

  /** The dimmer's per-channel settings, registers 0xF8 to 0xFF. */
  const DIMMER_CONFIG: Memory := map[
    0xF8 := [0xFF, 0xFF, 0xFF, 0xFF, 0xFF, 0xFF, 0xFF, 0xFF],
    0xF9 := [0x19, 0xFF, 0x28, 0x28, 0x28, 0x28, 0x28, 0x14],
    0xFA := [0x28, 0x28, 0x28, 0x28, 0x28, 0x28, 0xF8, 0xF8],
    0xFB := [0xF8, 0xF8, 0xF8, 0xF0, 0xF8, 0xF8, 0xF8, 0xF8],
    0xFC := [0xF8, 0xF8, 0xFF, 0xF3, 0xFF, 0xFF, 0xFF, 0xFF],
    0xFD := [0x91, 0xBF, 0x7F, 0x93, 0xFF, 0xFF, 0x00, 0x00],
    0xFE := [0x00, 0x00, 0x00, 0x00, 0x00, 0x00, 0x00, 0x00],
    0xFF := [0x00, 0x00, 0x52, 0x03, 0xFF, 0xFF, 0xFF, 0xFF]]

  /** A register the memory does not hold reads as filler (`SimulatedModule.read_register`). */
  function ReadRegister(t: Family, memory: Memory, register: nat): seq<Byte> {
    if register in memory then memory[register] else Filler(RegisterWidth(t))
  }

  /** What a register of the encoded module reads as. */
  function RegisterOf(t: Family, links: seq<Link>, register: nat): seq<Byte>
    requires AllFit(t, links) && register >= FirstRegister(t)
  {
    var i := register - FirstRegister(t);
    if t == DimmerModule && links != [] && register in DIMMER_CONFIG then DIMMER_CONFIG[register]
    else Padded(Stream(t, links), if t == DimmerModule then 8 * i else 16 * i, RegisterWidth(t))
  }

  method JoinRecords(t: Family, links: seq<Link>) returns (stream: seq<Byte>)
    requires AllFit(t, links)
    ensures stream == Stream(t, links)
  {
    hide EncodeLink, Stream;
    stream := [];
    StreamEnds(t, links);
    for k := 0 to |links|
      invariant stream + Stream(t, links[k..]) == Stream(t, links)
    {
      StreamNext(t, links, k);
      Assoc(stream, EncodeLink(t, links[k]), Stream(t, links[k + 1..]));
      stream := stream + EncodeLink(t, links[k]);
    }
    assert stream + [] == stream;
  }

  lemma StreamEnds(t: Family, links: seq<Link>)
    requires AllFit(t, links)
    ensures links[0..] == links && [] + Stream(t, links) == Stream(t, links) && Stream(t, links[|links|..]) == []
  {
  }

  lemma StreamNext(t: Family, links: seq<Link>, k: nat)
    requires AllFit(t, links) && k < |links|
    ensures Stream(t, links[k..]) == EncodeLink(t, links[k]) + Stream(t, links[k + 1..])
  {
    hide EncodeLink;
    assert links[k..][1..] == links[k + 1..];
  }

  lemma Assoc<T>(a: seq<T>, b: seq<T>, c: seq<T>)
    ensures (a + b) + c == a + (b + c)
  {
  }

  /** `encode_module`, sub-byte 00 of it. */
  method EncodeModule(t: Family, links: seq<Link>) returns (memory: Memory)
    requires AllFit(t, links)
    ensures forall r :: r >= FirstRegister(t) ==> ReadRegister(t, memory, r) == RegisterOf(t, links, r)
  {
    hide Stream, DIMMER_CONFIG, EncodeLink;
    var stream := JoinRecords(t, links);
    StreamNotEmpty(t, links);
    var width := RegisterWidth(t);
    memory := map[];
    if stream == [] {
      forall i: nat ensures Padded([], i, width) == Filler(width) {}
      return;
    }
    var count;
    memory, count := CutRegisters(stream + Filler(width), FirstRegister(t), width);
    forall r | r >= FirstRegister(t)
      ensures ReadRegister(t, memory, r) == Padded(stream, (r - FirstRegister(t)) * width, width)
    {
      PaddingIsFiller(stream, r - FirstRegister(t), count, width);
    }
    if t == DimmerModule {
      memory := memory + DIMMER_CONFIG;
    }
  }

  /** A filler register after the stream changes nothing that is read. */
  lemma PaddingIsFiller(stream: seq<Byte>, i: nat, count: nat, width: nat)
    requires count * width >= |stream| + width
    ensures Padded(stream + Filler(width), i * width, width) == Padded(stream, i * width, width)
    ensures i >= count ==> Padded(stream, i * width, width) == Filler(width)
  {
    if i >= count {
      assert i * width == count * width + (i - count) * width;
    }
  }

  lemma StreamNotEmpty(t: Family, links: seq<Link>)
    requires AllFit(t, links)
    ensures Stream(t, links) == [] <==> links == []
  {
    if links != [] {
      assert |EncodeLink(t, links[0])| > 0;
    }
  }

  // ---- decoding ---------------------------------------------------------------------------------

  predicate AllFF(data: seq<Byte>) {
    data != [] && forall i :: 0 <= i < |data| ==> data[i] == 0xFF
  }

  function Word24(hi: Byte, mid: Byte, lo: Byte): (v: nat)
    ensures v < FRAMES
  {
    0x10000 * (hi as int) + 256 * (mid as int) + (lo as int)
  }

  /** The switch, shutter and dimmer `decode` on a chunk in storage order; `channels` is the
      module's channel count when it is known. */
  function DecodeRecord(t: Family, raw: seq<Byte>, channels: Option<nat>): Option<Decoded> {
    if |raw| != RecordLength(t) || AllFF(raw) then None
    else
      var mode := raw[3] % 16;
      var channel := (if t == RollerModule then raw[4] % 16 / 2 else raw[4] % 16) + 1;
      if !KnownMode(t, mode) || (channels.Some? && channel > channels.value) then None
      else
        var stored := Word24(raw[2], raw[1], raw[0]);
        var t2 := if t == DimmerModule then Some(raw[5] % 16 as nat) else None;
        match CalendarChannelFromLink(stored)
        case Some(c) => Some(Decoded(c.address, Some(c.number), raw[4] / 16, channel, raw[3] / 16, mode, t2))
        case None => Some(Decoded(GetButtonAddress(stored), None, raw[4] / 16, channel, raw[3] / 16, mode, t2))
  }

  /** The record that must come back for a link. */
  function Expected(t: Family, link: Link): Decoded {
    Decoded(link.button, None, link.key, link.channel, link.t1, link.mode, if t == DimmerModule then Some(link.t2) else None)
  }

  predicate Decodable(t: Family, link: Link, channels: Option<nat>)
    requires Fits(t, link)
  {
    && KnownMode(t, link.mode) && link.channel >= 1 && (channels.Some? ==> link.channel <= channels.value)
    && EncodeButtonAddress(link.button).value < FRAMES
    && CalendarChannelFromLink(EncodeButtonAddress(link.button).value).None?
  }

  /** One record comes back exactly when its mode and channel are the family's and its stored
      address is not a PC-Link calendar channel. */
  lemma RecordRoundTrip(t: Family, link: Link, channels: Option<nat>)
    requires Fits(t, link)
    ensures !AllFF(EncodeLink(t, link))
    ensures DecodeRecord(t, EncodeLink(t, link), channels) == Some(Expected(t, link)) <==> Decodable(t, link, channels)
  {
    hide Rev, GetButtonAddress, EncodeButtonAddress, CalendarChannelFromLink;
    EncodedFields(t, link);
    CalendarIsNoPlate(EncodeButtonAddress(link.button).value);
    GetInvertsEncode(link.button);
    FieldsDecode(t, link, EncodeLink(t, link), channels);
  }

  lemma FieldsDecode(t: Family, link: Link, raw: seq<Byte>, channels: Option<nat>)
    requires Fits(t, link) && |raw| == RecordLength(t)
    requires EncodeButtonAddress(link.button).Some? && EncodeButtonAddress(link.button).value < FRAMES
    requires GetButtonAddress(EncodeButtonAddress(link.button).value) == link.button
    requires var c := CalendarChannelFromLink(EncodeButtonAddress(link.button).value); c.Some? ==> c.value.address >= PLATES
    requires Word24(raw[2], raw[1], raw[0]) == EncodeButtonAddress(link.button).value
    requires raw[3] % 16 == link.mode && raw[3] / 16 == link.t1
    requires raw[4] / 16 == link.key && raw[4] % 16 == ChannelNibble(t, link.channel)
    requires raw[5] == link.t2
    ensures !AllFF(raw)
    ensures DecodeRecord(t, raw, channels) == Some(Expected(t, link)) <==> Decodable(t, link, channels)
  {
    hide GetButtonAddress, EncodeButtonAddress, CalendarChannelFromLink, Word24;
  }

  lemma EncodedFields(t: Family, link: Link)
    requires Fits(t, link)
    ensures EncodeButtonAddress(link.button).Some? && EncodeButtonAddress(link.button).value < FRAMES
    ensures var raw := EncodeLink(t, link);
      && Word24(raw[2], raw[1], raw[0]) == EncodeButtonAddress(link.button).value
      && raw[3] % 16 == link.mode && raw[3] / 16 == link.t1
      && raw[4] / 16 == link.key && raw[4] % 16 == ChannelNibble(t, link.channel)
      && raw[5] == link.t2
  {
    hide EncodeButtonAddress, GetButtonAddress, Word24, AsByte, ChannelNibble;
    assert link.button < PLATES;
    AddressIsDefined(link.button);
    GetInvertsEncode(link.button);
    BytesOfWord(EncodeButtonAddress(link.button).value);
    TwoNibbles(link.t1, link.mode);
    TwoNibbles(link.key, ChannelNibble(t, link.channel));
  }

  lemma AddressIsDefined(button: nat)
    requires button < PLATES
    ensures EncodeButtonAddress(button).Some?
  {
  }

  lemma TwoNibbles(hi: nat, lo: nat)
    requires lo < 16
    ensures (16 * hi + lo) / 16 == hi && (16 * hi + lo) % 16 == lo
  {
  }

  lemma BytesOfWord(v: nat)
    requires v < FRAMES
    ensures Word24(AsByte(v / 0x10000), AsByte(v / 256), AsByte(v)) == v
  {
    var b0, b1, b2 := v % 256, v / 256 % 256, v / 0x10000;
    assert v == b2 * 0x10000 + b1 * 256 + b0 && b2 < 256;
  }

  lemma CalendarIsNoPlate(stored: nat)
    requires stored < FRAMES
    ensures CalendarChannelFromLink(stored).Some? ==> CalendarChannelFromLink(stored).value.address >= PLATES
  {
    hide Rev;
  }

  /** The while loop of `analyze_frame_payload`: whole records, and the bytes left over. */
  function Chunks(data: seq<Byte>, length: nat): (seq<seq<Byte>>, seq<Byte>)
    requires length > 0
    decreases |data|
  {
    if |data| < length then ([], data)
    else
      var (more, remainder) := Chunks(data[length..], length);
      ([data[..length]] + more, remainder)
  }

  lemma LastChunk(data: seq<Byte>, length: nat)
    requires |data| < length
    ensures Chunks(data, length) == ([], data)
  {
  }

  lemma NextChunk(data: seq<Byte>, idx: nat, length: nat)
    requires length > 0 && idx + length <= |data|
    ensures Chunks(data[idx..], length).0 == [data[idx..idx + length]] + Chunks(data[idx + length..], length).0
    ensures Chunks(data[idx..], length).1 == Chunks(data[idx + length..], length).1
  {
    assert data[idx..][..length] == data[idx..idx + length];
    assert data[idx..][length..] == data[idx + length..];
  }

  datatype Analysis = Analysis(chunks: seq<seq<Byte>>, remainder: seq<Byte>, region: seq<Byte>, misaligned: bool)

  class ChunkDecoder {
    const family: Family
    var alignmentDecided: bool
    var misaligned: bool

    constructor (t: Family)
      ensures family == t && !alignmentDecided && !misaligned
    {
      family := t;
      alignmentDecided, misaligned := false, false;
    }

    method ResetScanBuffers()
      modifies this
      ensures !alignmentDecided && !misaligned
    {
      alignmentDecided, misaligned := false, false;
    }

    /** `analyze_frame_payload`, without a host to score the alignment against. */
    method AnalyzeFramePayload(buffer: seq<Byte>, payloadAndCrc: seq<Byte>) returns (r: Option<Analysis>)
      modifies this
      ensures misaligned == old(misaligned)
      ensures r.None? <==> |payloadAndCrc| < 3
      ensures r.Some? ==>
        var region := payloadAndCrc[..|payloadAndCrc| - 3];
        r.value == if misaligned then Analysis([], [], region, true)
                   else Analysis(Chunks(buffer + region, RecordLength(family)).0, Chunks(buffer + region, RecordLength(family)).1, region, false)
    {
      hide Chunks;
      if |payloadAndCrc| < 3 {
        return None;
      }
      var region := payloadAndCrc[..|payloadAndCrc| - 3];
      var combined := buffer + region;
      if !alignmentDecided && buffer == [] {
        alignmentDecided := true;
      }
      if misaligned {
        return Some(Analysis([], [], region, true));
      }
      var chunks: seq<seq<Byte>> := [];
      var idx := 0;
      var length := RecordLength(family);
      assert combined[0..] == combined;
      while idx + length <= |combined|
        invariant idx <= |combined| && misaligned == old(misaligned)
        invariant Chunks(combined, length).0 == chunks + Chunks(combined[idx..], length).0
        invariant Chunks(combined, length).1 == Chunks(combined[idx..], length).1
      {
        NextChunk(combined, idx, length);
        Assoc(chunks, [combined[idx..idx + length]], Chunks(combined[idx + length..], length).0);
        chunks := chunks + [combined[idx..idx + length]];
        idx := idx + length;
      }
      LastChunk(combined[idx..], length);
      assert chunks + [] == chunks;
      return Some(Analysis(chunks, combined[idx..], region, false));
    }
  }

  function DecodeChunks(t: Family, chunks: seq<seq<Byte>>, channels: Option<nat>): seq<Decoded> {
    if chunks == [] then []
    else DecodeChunk(t, chunks[0], channels) + DecodeChunks(t, chunks[1..], channels)
  }

  /** All-F chunks are skipped; a record the decoder refuses yields nothing. */
  function DecodeChunk(t: Family, chunk: seq<Byte>, channels: Option<nat>): seq<Decoded> {
    if AllFF(chunk) then []
    else
      match DecodeRecord(t, chunk, channels)
      case None => []
      case Some(d) => [d]
  }

  method DecodeEach(t: Family, chunks: seq<seq<Byte>>, channels: Option<nat>) returns (decoded: seq<Decoded>)
    ensures decoded == DecodeChunks(t, chunks, channels)
  {
    hide DecodeChunks, DecodeRecord, AllFF;
    decoded := [];
    assert chunks[0..] == chunks;
    for i := 0 to |chunks|
      invariant DecodeChunks(t, chunks, channels) == decoded + DecodeChunks(t, chunks[i..], channels)
    {
      DecodeNext(t, chunks, i, decoded, channels);
      var record := if AllFF(chunks[i]) then None else DecodeRecord(t, chunks[i], channels);
      if record.Some? {
        decoded := decoded + [record.value];
      }
    }
    DecodeNothing(t, channels);
    assert chunks[|chunks|..] == [];
  }

  lemma DecodeNext(t: Family, chunks: seq<seq<Byte>>, i: nat, before: seq<Decoded>, channels: Option<nat>)
    requires i < |chunks|
    ensures before + DecodeChunks(t, chunks[i..], channels)
      == (before + DecodeChunk(t, chunks[i], channels)) + DecodeChunks(t, chunks[i + 1..], channels)
    ensures before + [] == before
  {
    hide DecodeChunk;
    assert chunks[i..][1..] == chunks[i + 1..];
  }

  lemma DecodeNothing(t: Family, channels: Option<nat>)
    ensures DecodeChunks(t, [], channels) == []
  {
  }

  // ---- the scan ------------------------------------------------------------------------------------

  /** Empty registers in a row that end a pass, and how much of a register's end is looked at. */
  const STREAK_LIMIT: nat := 3

  function TailLength(t: Family): nat {
    if t == DimmerModule then 3 else 6
  }

  function CeilDiv16(n: nat): nat {
    (n + 15) / 16
  }

  function Min(a: nat, b: nat): nat {
    if a < b then a else b
  }

  /** `_count_driven_passes`, the registers of sub-byte 00. */
  function PlannedRegisters(t: Family, countA: nat): nat {
    if t == DimmerModule then Min(if countA < 1 then 1 else countA, 0xD9)
    else Min(0x10 + CeilDiv16(countA * 6) + 1, 0x70) - 0x10
  }

  /** The record count a module reports in its status. */
  function ReportedCount(links: seq<Link>): nat {
    Min(|links|, 0xFF)
  }

  datatype ScanState = ScanState(remainder: seq<Byte>, streak: nat, ended: bool, records: seq<Decoded>)

  function StepScan(t: Family, channels: Option<nat>, s: ScanState, data: seq<Byte>): ScanState {
    if s.ended then s
    else
      var (chunks, remainder) := Chunks(s.remainder + data, RecordLength(t));
      var decoded := DecodeChunks(t, chunks, channels);
      var empty := decoded == [] && |data| >= TailLength(t) && AllFF(data[|data| - TailLength(t)..]);
      var streak := if empty then s.streak + 1 else 0;
      ScanState(remainder, streak, streak >= STREAK_LIMIT, s.records + decoded)
  }

  /** The registers `from` to `from + count`, in order, until the scan ends. */
  function ScanRegisters(t: Family, channels: Option<nat>, s: ScanState, registers: nat -> seq<Byte>, from: nat, count: nat): ScanState
    decreases count
  {
    if count == 0 then s
    else ScanRegisters(t, channels, StepScan(t, channels, s, registers(from)), registers, from + 1, count - 1)
  }

  const FRESH: ScanState := ScanState([], 0, false, [])

  class RegisterScan {
    var payloadBuffer: seq<Byte>
    var streak: nat
    var trailerSeen: bool
    var records: seq<Decoded>
    const decoder: ChunkDecoder
    const channels: Option<nat>

    constructor (t: Family, channelCount: Option<nat>)
      ensures State() == FRESH && fresh(decoder) && decoder.family == t && channels == channelCount
      ensures !decoder.misaligned
    {
      payloadBuffer, streak, trailerSeen, records := [], 0, false, [];
      channels := channelCount;
      decoder := new ChunkDecoder(t);
    }

    function State(): ScanState
      reads this
    {
      ScanState(payloadBuffer, streak, trailerSeen, records)
    }

    /** One register response (`parse_module_inventory_response`): thread the remainder,
        decode, and count empty registers in a row. */
    method HandleResponse(data: seq<Byte>, crc: seq<Byte>)
      requires |crc| == 3 && !decoder.misaligned && !trailerSeen
      modifies this, decoder
      ensures State() == StepScan(decoder.family, channels, old(State()), data)
      ensures !decoder.misaligned
    {
      var analysis := decoder.AnalyzeFramePayload(payloadBuffer, data + crc);
      assert (data + crc)[..|data + crc| - 3] == data;
      var t := decoder.family;
      payloadBuffer := analysis.value.remainder;
      var decoded := DecodeEach(t, analysis.value.chunks, channels);
      records := records + decoded;
      var tail := TailLength(t);
      var region := analysis.value.region;
      if decoded == [] && |region| >= tail && AllFF(region[|region| - tail..]) {
        streak := streak + 1;
        if streak >= STREAK_LIMIT {
          trailerSeen := true;
        }
      } else {
        streak := 0;
      }
    }

    /** The scan loop over the planned registers; it stops once the end was seen. */
    method Run(registers: nat -> seq<Byte>, from: nat, count: nat)
      requires !decoder.misaligned && State() == FRESH
      modifies this, decoder
      ensures State() == ScanRegisters(decoder.family, channels, FRESH, registers, from, count)
    {
      hide StepScan, ScanRegisters;
      var t := decoder.family;
      var i := 0;
      while i < count && !trailerSeen
        invariant i <= count && !decoder.misaligned
        invariant trailerSeen <==> State().ended
        invariant ScanRegisters(t, channels, FRESH, registers, from, count)
          == ScanRegisters(t, channels, State(), registers, from + i, count - i)
      {
        ghost var before := State();
        ScanUnfold(t, channels, before, registers, from + i, count - i);
        HandleResponse(registers(from + i), [0, 0, 0]);
        assert State() == StepScan(t, channels, before, registers(from + i));
        i := i + 1;
      }
      EndedScanStays(t, channels, State(), registers, from + i, count - i);
    }
  }

  lemma ScanUnfold(t: Family, channels: Option<nat>, s: ScanState, registers: nat -> seq<Byte>, from: nat, count: nat)
    requires count > 0
    ensures ScanRegisters(t, channels, s, registers, from, count)
      == ScanRegisters(t, channels, StepScan(t, channels, s, registers(from)), registers, from + 1, count - 1)
  {
  }

  lemma {:induction false} EndedScanStays(t: Family, channels: Option<nat>, s: ScanState, registers: nat -> seq<Byte>, from: nat, count: nat)
    ensures s.ended || count == 0 ==> ScanRegisters(t, channels, s, registers, from, count) == s
    decreases count
  {
    if count > 0 && s.ended {
      EndedScanStays(t, channels, s, registers, from + 1, count - 1);
    }
  }

  // ---- the whole image comes back -------------------------------------------------------------------

  /** Links the memory layout has room for: sixteen-byte blocks 0x10 to 0x6F, or the dimmer's
      eight-byte blocks 0x20 to 0xF7. */
  function Capacity(t: Family): nat {
    if t == DimmerModule then 216 else 256
  }

  function Stored(t: Family, links: seq<Link>): seq<Link> {
    links[..Min(|links|, Capacity(t))]
  }

  function Position(t: Family, k: nat): nat {
    if t == DimmerModule then 8 * k else 6 * k
  }

  function RegisterStart(t: Family, i: nat): nat {
    if t == DimmerModule then 8 * i else 16 * i
  }

  /** The byte a planned register holds at table position `p`. */
  function TableByte(t: Family, links: seq<Link>, p: nat): Byte
    requires AllFit(t, links)
  {
    if p < |Stream(t, links)| && p < Position(t, Capacity(t)) then Stream(t, links)[p] else 0xFF
  }

  function Run(t: Family, links: seq<Link>, a: nat, b: nat): seq<Byte>
    requires AllFit(t, links) && a <= b
  {
    seq<Byte>(b - a, j requires 0 <= j < b - a => TableByte(t, links, a + j))
  }

  lemma PositionsAdd(t: Family, k: nat, n: nat)
    requires 0 < k < n
    ensures Position(t, k - 1) <= Position(t, k) <= Position(t, n - 1)
    ensures Position(t, k + 1) == Position(t, 1) + Position(t, k)
    ensures Position(t, k) == Position(t, 1) + Position(t, k - 1)
  {
  }

  lemma SliceAfter(head: seq<Byte>, rest: seq<Byte>, a: nat, b: nat)
    requires a <= b <= |rest|
    ensures (head + rest)[|head| + a..|head| + b] == rest[a..b]
  {
  }

  lemma {:induction false} StreamAt(t: Family, links: seq<Link>, k: nat)
    requires AllFit(t, links) && k < |links|
    ensures |Stream(t, links)| == Position(t, |links|)
    ensures Stream(t, links)[Position(t, k)..Position(t, k + 1)] == EncodeLink(t, links[k])
    decreases k
  {
    hide EncodeLink, Fits;
    StreamLength(t, links);
    StreamLength(t, links[1..]);
    var head, rest := EncodeLink(t, links[0]), Stream(t, links[1..]);
    assert Stream(t, links) == head + rest && |head| == Position(t, 1);
    if k > 0 {
      StreamAt(t, links[1..], k - 1);
      var a, b := Position(t, k - 1), Position(t, k);
      PositionsAdd(t, k, |links|);
      SliceAfter(head, rest, a, b);
    }
  }

  lemma {:induction false} StreamLength(t: Family, links: seq<Link>)
    requires AllFit(t, links)
    ensures |Stream(t, links)| == Position(t, |links|)
    decreases |links|
  {
    if links != [] {
      StreamLength(t, links[1..]);
    }
  }

  /** A planned register reads as its part of the table. */
  lemma RegisterIsRun(t: Family, links: seq<Link>, i: nat)
    requires AllFit(t, links)
    requires i < PlannedRegisters(t, ReportedCount(links))
    ensures RegisterOf(t, links, FirstRegister(t) + i) == Run(t, links, RegisterStart(t, i), RegisterStart(t, i + 1))
  {
    hide EncodeLink, Stream, DIMMER_CONFIG;
    StreamLength(t, links);
    ConfigRegisters();
    var r := FirstRegister(t) + i;
    var a, b := RegisterStart(t, i), RegisterStart(t, i + 1);
    var read, run := RegisterOf(t, links, r), Run(t, links, a, b);
    assert t == DimmerModule ==> r <= 0xF8 && (links == [] ==> i == 0);
    assert |read| == |run| == b - a;
    forall j | 0 <= j < b - a ensures read[j] == run[j] {
      assert run[j] == TableByte(t, links, a + j);
    }
  }

  lemma ConfigRegisters()
    ensures forall r :: r in DIMMER_CONFIG <==> 0xF8 <= r <= 0xFF
    ensures DIMMER_CONFIG[0xF8] == Filler(8)
    ensures forall r :: r in DIMMER_CONFIG ==> |DIMMER_CONFIG[r]| == 8
  {
  }

  lemma RunConcat(t: Family, links: seq<Link>, a: nat, b: nat, c: nat)
    requires AllFit(t, links) && a <= b <= c
    ensures Run(t, links, a, b) + Run(t, links, b, c) == Run(t, links, a, c)
    ensures Run(t, links, a, c)[..b - a] == Run(t, links, a, b)
    ensures Run(t, links, a, c)[b - a..] == Run(t, links, b, c)
  {
    hide TableByte;
  }

  /** Records between two positions, and where the last one ends. */
  function RecordsFrom(t: Family, links: seq<Link>, channels: Option<nat>, a: nat, e: nat): seq<Decoded>
    requires AllFit(t, links)
    decreases e - a
  {
    if a + RecordLength(t) > e then []
    else DecodeChunk(t, Run(t, links, a, a + RecordLength(t)), channels) + RecordsFrom(t, links, channels, a + RecordLength(t), e)
  }

  function Tail(t: Family, a: nat, e: nat): (r: nat)
    requires a <= e
    ensures a <= r <= e < r + RecordLength(t)
    decreases e - a
  {
    if a + RecordLength(t) > e then a else Tail(t, a + RecordLength(t), e)
  }

  lemma {:induction false} ChunksOfRun(t: Family, links: seq<Link>, channels: Option<nat>, a: nat, e: nat)
    requires AllFit(t, links) && a <= e
    ensures var (chunks, remainder) := Chunks(Run(t, links, a, e), RecordLength(t));
      DecodeChunks(t, chunks, channels) == RecordsFrom(t, links, channels, a, e) && remainder == Run(t, links, Tail(t, a, e), e)
    decreases e - a
  {
    hide DecodeChunk, Run;
    var n := RecordLength(t);
    assert |Run(t, links, a, e)| == e - a by { RunLength(t, links, a, e); }
    if a + n <= e {
      RunConcat(t, links, a, a + n, e);
      ChunksOfRun(t, links, channels, a + n, e);
      var (more, _) := Chunks(Run(t, links, a + n, e), n);
      assert ([Run(t, links, a, a + n)] + more)[1..] == more;
    }
  }

  lemma RunLength(t: Family, links: seq<Link>, a: nat, e: nat)
    requires AllFit(t, links) && a <= e
    ensures |Run(t, links, a, e)| == e - a
  {
  }

  lemma {:induction false} RecordsSplit(t: Family, links: seq<Link>, channels: Option<nat>, a: nat, e: nat, e': nat)
    requires AllFit(t, links) && a <= e <= e'
    ensures RecordsFrom(t, links, channels, a, e') ==
      RecordsFrom(t, links, channels, a, e) + RecordsFrom(t, links, channels, Tail(t, a, e), e')
    ensures Tail(t, a, e') == Tail(t, Tail(t, a, e), e')
    decreases e - a
  {
    hide DecodeChunk, Run, RecordsFrom, Tail;
    var n := RecordLength(t);
    RecordsHead(t, links, channels, a, e);
    if a + n <= e {
      RecordsHead(t, links, channels, a, e');
      RecordsSplit(t, links, channels, a + n, e, e');
      Assoc(DecodeChunk(t, Run(t, links, a, a + n), channels), RecordsFrom(t, links, channels, a + n, e),
            RecordsFrom(t, links, channels, Tail(t, a + n, e), e'));
    } else {
      var all := RecordsFrom(t, links, channels, a, e');
      assert [] + all == all;
    }
  }

  lemma RecordsHead(t: Family, links: seq<Link>, channels: Option<nat>, a: nat, e: nat)
    requires AllFit(t, links) && a <= e
    ensures var next := a + RecordLength(t);
      if next <= e then
        RecordsFrom(t, links, channels, a, e) == DecodeChunk(t, Run(t, links, a, next), channels) + RecordsFrom(t, links, channels, next, e)
        && Tail(t, a, e) == Tail(t, next, e)
      else RecordsFrom(t, links, channels, a, e) == [] && Tail(t, a, e) == a
  {
    hide DecodeChunk, Run;
  }

  /** The table of a module holds the record of each stored link and filler after the last. */
  lemma RecordInTable(t: Family, links: seq<Link>, channels: Option<nat>, k: nat)
    requires AllFit(t, links) && forall j :: 0 <= j < |links| ==> Decodable(t, links[j], channels)
    ensures DecodeChunk(t, Run(t, links, Position(t, k), Position(t, k + 1)), channels) ==
      if k < |Stored(t, links)| then [Expected(t, links[k])] else []
  {
    hide EncodeLink, DecodeRecord, Decodable, Stream;
    var run := Run(t, links, Position(t, k), Position(t, k + 1));
    StreamLength(t, links);
    if k < |Stored(t, links)| {
      StreamAt(t, links, k);
      assert run == EncodeLink(t, links[k]) by {
        var cut := Stream(t, links)[Position(t, k)..Position(t, k + 1)];
        assert |cut| == |run|;
        forall j | 0 <= j < |run| ensures run[j] == cut[j] {
          assert run[j] == TableByte(t, links, Position(t, k) + j);
          assert Position(t, k) + j < Position(t, k + 1) <= Position(t, |Stored(t, links)|);
        }
      }
      RecordRoundTrip(t, links[k], channels);
    } else {
      forall j | 0 <= j < |run| ensures run[j] == 0xFF {
        assert run[j] == TableByte(t, links, Position(t, k) + j);
      }
    }
  }

  function ExpectedAll(t: Family, links: seq<Link>): seq<Decoded> {
    seq(|links|, i requires 0 <= i < |links| => Expected(t, links[i]))
  }

  lemma ExpectedFrom(t: Family, links: seq<Link>, k: nat)
    requires k < |links|
    ensures ExpectedAll(t, links[k..]) == [Expected(t, links[k])] + ExpectedAll(t, links[k + 1..])
  {
    hide Expected;
  }

  lemma {:induction false} RecordsAreExpected(t: Family, links: seq<Link>, channels: Option<nat>, k: nat, e: nat)
    requires AllFit(t, links) && forall j :: 0 <= j < |links| ==> Decodable(t, links[j], channels)
    requires k <= |Stored(t, links)| ==> Position(t, |Stored(t, links)|) <= e
    ensures RecordsFrom(t, links, channels, Position(t, k), e) ==
      if k < |Stored(t, links)| then ExpectedAll(t, Stored(t, links)[k..]) else []
    decreases if Position(t, k) <= e then e - Position(t, k) + 1 else 0
  {
    hide DecodeChunk, Run, Decodable, Expected, Fits, Capacity;
    if Position(t, k) + RecordLength(t) <= e {
      RecordInTable(t, links, channels, k);
      RecordsAreExpected(t, links, channels, k + 1, e);
      if k < |Stored(t, links)| {
        ExpectedFrom(t, Stored(t, links), k);
      }
    }
  }

  lemma {:induction false} TailOnRecord(t: Family, k: nat, e: nat) returns (m: nat)
    requires Position(t, k) <= e
    ensures Tail(t, Position(t, k), e) == Position(t, m)
    decreases e - Position(t, k)
  {
    if Position(t, k) + RecordLength(t) > e {
      m := k;
    } else {
      m := TailOnRecord(t, k + 1, e);
    }
  }

  /** No register that holds part of the table looks empty: it completes a record. */
  lemma TableRegisterNotEmpty(t: Family, links: seq<Link>, channels: Option<nat>, i: nat)
    requires AllFit(t, links) && forall j :: 0 <= j < |links| ==> Decodable(t, links[j], channels)
    requires RegisterStart(t, i) < Position(t, |Stored(t, links)|)
    ensures RecordsFrom(t, links, channels, Tail(t, 0, RegisterStart(t, i)), RegisterStart(t, i + 1)) != []
  {
    hide DecodeChunk, Run, Decodable, RecordsFrom, Stored, AllFit;
    var e, e' := RegisterStart(t, i), RegisterStart(t, i + 1);
    var m := TailOnRecord(t, 0, e);
    assert Position(t, m) <= e < Position(t, |Stored(t, links)|);
    assert m < |Stored(t, links)|;
    assert Position(t, m + 1) == Position(t, m) + RecordLength(t) <= e';
    RecordInTable(t, links, channels, m);
    RecordsHead(t, links, channels, Position(t, m), e');
  }

  /** The plan covers the table and reads at most one register beyond it. */
  lemma PlanCoversTable(t: Family, links: seq<Link>)
    ensures var n := PlannedRegisters(t, ReportedCount(links));
      && n > 0 && RegisterStart(t, n) >= Position(t, |Stored(t, links)|)
      && forall i :: 0 <= i < n - 1 ==> RegisterStart(t, i) < Position(t, |Stored(t, links)|)
  {
  }

  /** The plan for a reported count: on a dimmer one register a record, at least one and at most 217;
      else as many as the records' bytes need and one more, at most 96. */
  lemma PlanExactly(t: Family, links: seq<Link>, count: nat)
    ensures ReportedCount(links) == if |links| < 256 then |links| else 255
    ensures var n := PlannedRegisters(t, count);
      if t == DimmerModule then n == (if count == 0 then 1 else if count < 217 then count else 217)
      else n >= 1 && n <= 96 && (n < 96 ==> 16 * (n - 1) >= 6 * count) && (n > 1 ==> 16 * (n - 2) < 6 * count)
  {
  }

  /** One register of the plan, scanned behind the ones before it. */
  lemma ScanStep(t: Family, links: seq<Link>, channels: Option<nat>, i: nat, s: ScanState)
    requires AllFit(t, links) && forall j :: 0 <= j < |links| ==> Decodable(t, links[j], channels)
    requires i < PlannedRegisters(t, ReportedCount(links)) && !s.ended && s.streak == 0
    requires s.remainder == Run(t, links, Tail(t, 0, RegisterStart(t, i)), RegisterStart(t, i))
    requires s.records == RecordsFrom(t, links, channels, 0, RegisterStart(t, i))
    ensures var next, e' := StepScan(t, channels, s, RegisterOf(t, links, FirstRegister(t) + i)), RegisterStart(t, i + 1);
      && next.remainder == Run(t, links, Tail(t, 0, e'), e') && !next.ended
      && next.records == RecordsFrom(t, links, channels, 0, e')
      && (i + 1 < PlannedRegisters(t, ReportedCount(links)) ==> next.streak == 0)
  {
    hide DecodeChunk, DecodeChunks, Chunks, Run, Decodable, RegisterOf, AllFit, RecordsFrom, Tail, PlannedRegisters, Position, AllFF;
    var e, e' := RegisterStart(t, i), RegisterStart(t, i + 1);
    RegisterIsRun(t, links, i);
    var tail := Tail(t, 0, e);
    RunConcat(t, links, tail, e, e');
    ChunksOfRun(t, links, channels, tail, e');
    RecordsSplit(t, links, channels, 0, e, e');
    PlanCoversTable(t, links);
    if i < PlannedRegisters(t, ReportedCount(links)) - 1 {
      TableRegisterNotEmpty(t, links, channels, i);
    }
  }

  lemma {:induction false} ScanReadsTable(t: Family, links: seq<Link>, channels: Option<nat>, registers: nat -> seq<Byte>, i: nat, s: ScanState)
    requires AllFit(t, links) && forall j :: 0 <= j < |links| ==> Decodable(t, links[j], channels)
    requires forall r :: FirstRegister(t) <= r ==> registers(r) == RegisterOf(t, links, r)
    requires i <= PlannedRegisters(t, ReportedCount(links))
    requires s.remainder == Run(t, links, Tail(t, 0, RegisterStart(t, i)), RegisterStart(t, i)) && !s.ended
    requires s.records == RecordsFrom(t, links, channels, 0, RegisterStart(t, i))
    requires i < PlannedRegisters(t, ReportedCount(links)) ==> s.streak == 0
    ensures var n := PlannedRegisters(t, ReportedCount(links));
      ScanRegisters(t, channels, s, registers, FirstRegister(t) + i, n - i).records == RecordsFrom(t, links, channels, 0, RegisterStart(t, n))
    decreases PlannedRegisters(t, ReportedCount(links)) - i
  {
    hide StepScan, RecordsFrom, Run, Tail, RegisterStart, Decodable, RegisterOf, AllFit, PlannedRegisters;
    var n := PlannedRegisters(t, ReportedCount(links));
    if i < n {
      ScanStep(t, links, channels, i, s);
      var next := StepScan(t, channels, s, registers(FirstRegister(t) + i));
      ScanReadsTable(t, links, channels, registers, i + 1, next);
    }
  }

  /** Encode a module's links, read the registers its record count plans, decode: the links come
      back in order, as many as the layout holds. */
  lemma ImageRoundTrip(t: Family, links: seq<Link>, channels: Option<nat>, registers: nat -> seq<Byte>)
    requires AllFit(t, links) && forall j :: 0 <= j < |links| ==> Decodable(t, links[j], channels)
    requires forall r :: FirstRegister(t) <= r ==> registers(r) == RegisterOf(t, links, r)
    ensures ScanRegisters(t, channels, FRESH, registers, FirstRegister(t), PlannedRegisters(t, ReportedCount(links))).records
      == ExpectedAll(t, Stored(t, links))
    ensures |links| <= Capacity(t) <==>
      ScanRegisters(t, channels, FRESH, registers, FirstRegister(t), PlannedRegisters(t, ReportedCount(links))).records == ExpectedAll(t, links)
  {
    hide DecodeChunk, Run, Decodable, RegisterOf, AllFit;
    var n := PlannedRegisters(t, ReportedCount(links));
    RunLength(t, links, 0, 0);
    ScanReadsTable(t, links, channels, registers, 0, FRESH);
    PlanCoversTable(t, links);
    RecordsAreExpected(t, links, channels, 0, RegisterStart(t, n));
    hide ScanRegisters, RecordsFrom, PlannedRegisters, Expected;
    assert Stored(t, links)[0..] == Stored(t, links);
    AllOrFewer(t, links);
  }

  /** What the layout holds is everything exactly when everything fits. */
  lemma AllOrFewer(t: Family, links: seq<Link>)
    ensures |links| <= Capacity(t) <==> ExpectedAll(t, Stored(t, links)) == ExpectedAll(t, links)
  {
    hide Expected;
    if |links| <= Capacity(t) {
      assert Stored(t, links) == links;
    } else {
      assert |ExpectedAll(t, Stored(t, links))| < |ExpectedAll(t, links)|;
    }
  }

  /** Encode, scan and decode in one go. */
  method ReadBack(t: Family, links: seq<Link>, channels: Option<nat>) returns (records: seq<Decoded>)
    requires AllFit(t, links) && forall j :: 0 <= j < |links| ==> Decodable(t, links[j], channels)
    ensures records == ExpectedAll(t, Stored(t, links))
  {
    hide RegisterOf, ReadRegister, Decodable, ScanRegisters;
    var memory := EncodeModule(t, links);
    var registers := (r: nat) => ReadRegister(t, memory, r);
    var scan := new RegisterScan(t, channels);
    scan.Run(registers, FirstRegister(t), PlannedRegisters(t, ReportedCount(links)));
    ImageRoundTrip(t, links, channels, registers);
    records := scan.State().records;
  }

  // ---- what records and scans mean ---------------------------------------------------------------------

  /** The bytes of an encoded link: its address low byte first, timer over mode, key over channel, the
      second timer, and on a dimmer two zeros. Channels count from one, a roller's by twos. */
  lemma EncodedBytes(t: Family, link: Link)
    requires Fits(t, link)
    ensures var raw, first := EncodeLink(t, link), if link.channel == 0 then 0 else link.channel - 1;
      && |raw| == (if t == DimmerModule then 8 else 6)
      && Some((raw[0] as int) + 0x100 * (raw[1] as int) + 0x10000 * (raw[2] as int)) == EncodeButtonAddress(link.button)
      && raw[3] / 16 == link.t1 && raw[3] % 16 == link.mode && raw[4] / 16 == link.key
      && raw[4] % 16 == (if t == RollerModule then 2 * first else first) && raw[5] == link.t2
      && (t == DimmerModule ==> raw[6] == raw[7] == 0)
  {
    hide EncodeButtonAddress;
    EncodedFits(link.button);
    ThreeBytes(EncodeButtonAddress(link.button).value);
    TwoDigits(link.t1, link.mode);
    TwoDigits(link.key, ChannelNibble(t, link.channel));
  }

  lemma EncodedFits(button: nat)
    requires button < PLATES
    ensures EncodeButtonAddress(button).Some? && EncodeButtonAddress(button).value < FRAMES
  {
  }

  lemma ThreeBytes(a: nat)
    requires a < FRAMES
    ensures (AsByte(a) as int) + 0x100 * (AsByte(a / 256) as int) + 0x10000 * (AsByte(a / 0x10000) as int) == a
  {
  }

  lemma TwoDigits(hi: nat, lo: nat)
    requires hi < 16 && lo < 16
    ensures (16 * hi + lo) / 16 == hi && (16 * hi + lo) % 16 == lo
  {
  }

  /** Where the table stands: from register 16 on, sixteen bytes each, or on a dimmer from register 32
      on, eight bytes each; filler follows. */
  lemma TableStandsAt(t: Family, links: seq<Link>, i: nat, j: nat)
    requires AllFit(t, links) && j < if t == DimmerModule then 8 else 16
    ensures t != DimmerModule ==> |RegisterOf(t, links, 16 + i)| == 16
    ensures t != DimmerModule ==> RegisterOf(t, links, 16 + i)[j] == if 16 * i + j < |Stream(t, links)| then Stream(t, links)[16 * i + j] else 0xFF
    ensures t == DimmerModule && i < 0xD8 ==> |RegisterOf(t, links, 32 + i)| == 8
    ensures t == DimmerModule && i < 0xD8 ==>
      RegisterOf(t, links, 32 + i)[j] == if 8 * i + j < |Stream(t, links)| then Stream(t, links)[8 * i + j] else 0xFF
  {
    hide Stream;
  }

  /** Chunks are the consecutive records of the data, the remainder what is short of one more. */
  lemma {:induction false} ChunksAre(data: seq<Byte>, length: nat, k: nat)
    requires length > 0
    ensures var (chunks, remainder) := Chunks(data, length);
      && |chunks| * length + |remainder| == |data| && |remainder| < length && remainder == data[|chunks| * length..]
      && (k < |chunks| ==> (k + 1) * length <= |data| && chunks[k] == data[k * length..(k + 1) * length])
    decreases |data|
  {
    if |data| >= length {
      ChunksAre(data[length..], length, if k > 0 then k - 1 else 0);
      var (chunks, remainder) := Chunks(data[length..], length);
      OneMoreChunk(|chunks|, length);
      BehindFirst(data, length, |chunks| * length);
      if k > 0 {
        OneMoreChunk(k - 1, length);
        OneMoreChunk(k, length);
        if k <= |chunks| {
          LaterChunk(data, length, (k - 1) * length);
        }
      }
    }
  }

  lemma BehindFirst(data: seq<Byte>, length: nat, from: nat)
    requires length + from <= |data|
    ensures data[length..][from..] == data[from + length..]
  {
  }

  lemma LaterChunk(data: seq<Byte>, length: nat, from: nat)
    requires from + length + length <= |data|
    ensures data[length..][from..from + length] == data[from + length..from + length + length]
  {
  }

  lemma OneMoreChunk(n: nat, length: nat)
    ensures (n + 1) * length == n * length + length
  {
  }

  /** One switch record: plate 1772B8, key index 1, channel 7, mode 2, timers 10 and 15. */
  lemma KnownRecord()
    ensures Fits(SwitchModule, Link(0x1772B8, 7, 2, 1, 0xA, 0xF))
    ensures EncodeLink(SwitchModule, Link(0x1772B8, 7, 2, 1, 0xA, 0xF)) == [0x5D, 0xCA, 0xE0, 0xA2, 0x16, 0x0F]
  {
    KnownStoredAddress();
    hide EncodeButtonAddress;
  }

  /** Three registers in a row end a scan when each completes no record and ends in filler, and no
      other registers do. */
  lemma ThreeEmptyEnd(t: Family, channels: Option<nat>, s: ScanState, data: seq<Byte>)
    requires !s.ended && |data| == (if t == DimmerModule then 8 else 16)
    ensures var next := StepScan(t, channels, s, data);
      var n := if t == DimmerModule then 3 else 6;
      var empty := next.records == s.records && forall i :: |data| - n <= i < |data| ==> data[i] == 0xFF;
      && next.streak == (if empty then s.streak + 1 else 0) && (next.ended <==> next.streak >= 3)
      && s.records <= next.records
  {
    hide Chunks, DecodeChunks;
    var n := TailLength(t);
    var tail := data[|data| - n..];
    assert forall i :: 0 <= i < n ==> tail[i] == data[|data| - n + i];
    if forall i :: |data| - n <= i < |data| ==> data[i] == 0xFF {
      assert AllFF(tail);
    }
    if AllFF(tail) {
      forall i | |data| - n <= i < |data| ensures data[i] == 0xFF {
        assert tail[i - (|data| - n)] == data[i];
      }
    }
  }

  /** Every field of a record: the address low byte first, timer over mode, key over channel, and on a
      dimmer the second timer in the low half of the sixth byte. A record is reported exactly when it
      is whole, not filler, of a known mode and of a channel the module has. */
  lemma RecordFieldsAre(t: Family, raw: seq<Byte>, channels: Option<nat>)
    requires |raw| == if t == DimmerModule then 8 else 6
    ensures var channel := 1 + (if t == RollerModule then raw[4] % 16 / 2 else raw[4] % 16);
      var stored := (raw[0] as int) + 0x100 * (raw[1] as int) + 0x10000 * (raw[2] as int);
      var r := DecodeRecord(t, raw, channels);
      && (r.Some? <==> (exists i :: 0 <= i < |raw| && raw[i] != 0xFF) && KnownMode(t, raw[3] % 16) && (channels.None? || channel <= channels.value))
      && (r.Some? ==>
            && r.value.t1 == raw[3] / 16 && r.value.mode == raw[3] % 16 && r.value.key == raw[4] / 16 && r.value.channel == channel
            && r.value.t2 == (if t == DimmerModule then Some(raw[5] % 16) else None)
            && match CalendarChannelFromLink(stored)
               case Some(c) => r.value.button == c.address && r.value.calendar == Some(c.number)
               case None => r.value.button == GetButtonAddress(stored) && r.value.calendar == None)
  {
    hide CalendarChannelFromLink, GetButtonAddress, KnownMode;
  }

  /** A record as an installation stores it: key index 0 of plate 1772B8, for channel 7. */
  lemma InstalledRecord()
    ensures DecodeRecord(SwitchModule, [0x5D, 0xCA, 0xE0, 0xF0, 0x06, 0xFF], None) == Some(Decoded(0x1772B8, None, 0, 7, 0xF, 0, None))
  {
    hide DecodeRecord, GetButtonAddress, CalendarChannelFromLink;
    var raw: seq<Byte> := [0x5D, 0xCA, 0xE0, 0xF0, 0x06, 0xFF];
    assert raw[0] != 0xFF;
    RecordFieldsAre(SwitchModule, raw, None);
    KnownStoredAddress();
    NoCalendarChannel();
  }

  lemma ThreeBits()
    ensures Rev(5, 3) == 5
  {
    assert Rev(5, 3) == Pow2(2) + Rev(2, 2) && Rev(2, 2) == Rev(1, 1) && Rev(1, 1) == 1;
  }

  lemma NoCalendarChannel()
    ensures CalendarChannelFromLink(0xE0CA5D) == None
  {
    hide Rev;
    RevSplit(0x1C194B, 5, 21, 3);
    RevBound(0x1C194B, 21);
    Pow2Values();
    ThreeBits();
  }

  /** The modes a decoder accepts: those of its family's table, thirteen, seven and twelve. */
  lemma KnownModes(t: Family, mode: nat)
    ensures KnownMode(t, mode) <==> mode < if t == SwitchModule then 13 else if t == RollerModule then 7 else 12
  {
  }
}
