/** Reading a module's programming image, and predicting the CRC it will report
    after a few of its bytes changed (`api.py`). */
module ModuleImage {
  import opened Wrappers
  import opened Bits
  import opened Crc
  import opened Modules

  function ImageSize(t: ModuleType): Option<nat> {
    match t
    case SwitchModule => Some(0x700)
    case RollerModule => Some(0x700)
    case DimmerModule => Some(0xFD0)
    case OtherModule => None
  }

  /** Start (inclusive) and end (exclusive) of a run of bytes. */
  type Range = r: (nat, nat) | r.0 <= r.1 witness (0, 0)

  /** The byte ranges a module includes in its CRC; absent means the whole image. */
  function CrcRanges(t: ModuleType): Option<seq<Range>> {
    if t == DimmerModule then Some([(0x000, 0x7FA), (0x800, 0xFD0)]) else None
  }

  function Slice(image: seq<Byte>, start: nat, end: nat): seq<Byte>
    requires start <= end
  {
    var hi := if end <= |image| then end else |image|;
    if start <= hi then image[start..hi] else []
  }

  function Covered(image: seq<Byte>, t: ModuleType): seq<Byte> {
    if t == DimmerModule then Slice(image, 0x000, 0x7FA) + Slice(image, 0x800, 0xFD0) else image
  }

  function ImageCrc(image: seq<Byte>, t: ModuleType): nat {
    Crc16(Covered(image, t))
  }

  function RangeLengths(ranges: seq<Range>): nat {
    if ranges == [] then 0 else (ranges[0].1 - ranges[0].0) + RangeLengths(ranges[1..])
  }

  function CoveredLength(t: ModuleType): Option<nat> {
    match ImageSize(t)
    case None => None
    case Some(size) =>
      match CrcRanges(t)
      case None => Some(size)
      case Some(ranges) => Some(RangeLengths(ranges))
  }

  function PositionIn(ranges: seq<Range>, offset: nat, before: nat): Option<nat> {
    if ranges == [] then None
    else if ranges[0].0 <= offset < ranges[0].1 then Some(before + (offset - ranges[0].0))
    else PositionIn(ranges[1..], offset, before + (ranges[0].1 - ranges[0].0))
  }

  function CoveredPosition(t: ModuleType, offset: nat): Option<nat> {
    match CrcRanges(t)
    case None => Some(offset)
    case Some(ranges) => PositionIn(ranges, offset, 0)
  }

  /** `_covered_position`: position of an image byte in the sequence the CRC covers. */
  method FindCoveredPosition(t: ModuleType, offset: nat) returns (r: Option<nat>)
    ensures r == CoveredPosition(t, offset)
  {
    var ranges := CrcRanges(t);
    if ranges.None? {
      return Some(offset);
    }
    var position: nat := 0;
    for i := 0 to |ranges.value|
      invariant PositionIn(ranges.value[i..], offset, position) == CoveredPosition(t, offset)
    {
      var (start, end) := ranges.value[i];
      if start <= offset < end {
        return Some(position + (offset - start));
      }
      position := position + (end - start);
    }
    return None;
  }

  // ---- the prediction ----------------------------------------------------------------------

  /** What `predict_module_crc` comes back with: a CRC, `None`, or an `IndexError` for a
      byte beyond the image of a module whose whole image is covered. */
  datatype Prediction = Predicted(crc: nat) | Unpredictable | OutOfRange

  datatype Change = Changed(delta: seq<Byte>) | Failed(outcome: Prediction)

  /** Fold the bytes `before[k..]` / `after[k..]` found at `offset + k` into the difference. */
  function FoldBytes(t: ModuleType, delta: seq<Byte>, offset: nat, before: seq<Byte>, after: seq<Byte>, k: nat): Change
    requires k <= |before| == |after|
    decreases |before| - k
  {
    if k == |before| then Changed(delta)
    else
      match CoveredPosition(t, offset + k)
      case None => FoldBytes(t, delta, offset, before, after, k + 1)
      case Some(p) =>
        if p < |delta| then
          FoldBytes(t, delta[p := XorByte(delta[p], XorByte(before[k], after[k]))], offset, before, after, k + 1)
        else
          Failed(OutOfRange)
  }

  type Entry = (nat, seq<Byte>)

  /** `was` lists the items of the first map in the map's own order. */
  function FoldEntries(t: ModuleType, delta: seq<Byte>, was: seq<Entry>, now: map<nat, seq<Byte>>): Change
    requires forall e :: e in was ==> e.0 in now
    decreases |was|
  {
    if was == [] then Changed(delta)
    else
      var (offset, before) := was[0];
      var after := now[offset];
      if |after| != |before| then Failed(Unpredictable)
      else
        match FoldBytes(t, delta, offset, before, after, 0)
        case Failed(outcome) => Failed(outcome)
        case Changed(d) => FoldEntries(t, d, was[1..], now)
  }

  function Offsets(entries: seq<Entry>): set<nat> {
    set e | e in entries :: e.0
  }

  function PredictCrc(t: ModuleType, oldCrc: nat, was: seq<Entry>, now: map<nat, seq<Byte>>): Prediction {
    match CoveredLength(t)
    case None => Unpredictable
    case Some(length) =>
      if Offsets(was) != now.Keys then Unpredictable
      else
        match FoldEntries(t, Zeros(length), was, now)
        case Failed(outcome) => outcome
        case Changed(delta) =>
          if delta == Zeros(length) then Predicted(oldCrc)
          else Predicted(Xor(Xor(oldCrc, Crc16(delta)), Crc16(Zeros(length))))
  }

  /** `predict_module_crc` */
  method PredictModuleCrc(t: ModuleType, oldCrc: nat, was: seq<Entry>, now: map<nat, seq<Byte>>)
    returns (r: Prediction)
    ensures r == PredictCrc(t, oldCrc, was, now)
  {
    var length := CoveredLength(t);
    if length.None? || Offsets(was) != now.Keys {
      return Unpredictable;
    }
    hide FoldBytes, FoldEntries, CoveredPosition, Crc16, Xor;
    var zeros := Zeros(length.value);
    var delta: seq<Byte> := zeros;
    for i := 0 to |was|
      invariant |delta| == |zeros|
      invariant FoldEntries(t, delta, was[i..], now) == FoldEntries(t, zeros, was, now)
    {
      var (offset, before) := was[i];
      var after := now[offset];
      NextEntry(t, delta, was, now, i);
      if |after| != |before| {
        return Unpredictable;
      }
      ghost var entry: seq<Byte> := delta;
      for k := 0 to |before|
        invariant |delta| == |zeros|
        invariant FoldBytes(t, delta, offset, before, after, k) == FoldBytes(t, entry, offset, before, after, 0)
      {
        NextByte(t, delta, offset, before, after, k);
        var position := FindCoveredPosition(t, offset + k);
        if position.Some? {
          if position.value >= |delta| {
            return OutOfRange;
          }
          delta := delta[position.value := XorByte(delta[position.value], XorByte(before[k], after[k]))];
        }
      }
      NoByteLeft(t, delta, offset, before, after);
    }
    NoEntryLeft(t, delta, was, now);
    var changed := delta != zeros;
    if !changed {
      return Predicted(oldCrc);
    }
    var d := CalcCrc1(delta);
    var z := CalcCrc1(zeros);
    return Predicted(Xor(Xor(oldCrc, d), z));
  }

  lemma NextEntry(t: ModuleType, delta: seq<Byte>, was: seq<Entry>, now: map<nat, seq<Byte>>, i: nat)
    requires i < |was| && forall e :: e in was ==> e.0 in now
    ensures was[0..] == was
    ensures FoldEntries(t, delta, was[i..], now) ==
      if |now[was[i].0]| != |was[i].1| then Failed(Unpredictable)
      else
        match FoldBytes(t, delta, was[i].0, was[i].1, now[was[i].0], 0)
        case Failed(outcome) => Failed(outcome)
        case Changed(d) => FoldEntries(t, d, was[i + 1..], now)
  {
    hide FoldBytes;
    assert was[i..][1..] == was[i + 1..];
  }

  lemma NextByte(t: ModuleType, delta: seq<Byte>, offset: nat, before: seq<Byte>, after: seq<Byte>, k: nat)
    requires k < |before| == |after|
    ensures FoldBytes(t, delta, offset, before, after, k) ==
      match CoveredPosition(t, offset + k)
      case None => FoldBytes(t, delta, offset, before, after, k + 1)
      case Some(p) =>
        if p < |delta| then FoldBytes(t, delta[p := XorByte(delta[p], XorByte(before[k], after[k]))], offset, before, after, k + 1)
        else Failed(OutOfRange)
  {
  }

  lemma NoByteLeft(t: ModuleType, delta: seq<Byte>, offset: nat, before: seq<Byte>, after: seq<Byte>)
    requires |before| == |after|
    ensures FoldBytes(t, delta, offset, before, after, |before|) == Changed(delta)
  {
  }

  lemma NoEntryLeft(t: ModuleType, delta: seq<Byte>, was: seq<Entry>, now: map<nat, seq<Byte>>)
    requires forall e :: e in was ==> e.0 in now
    ensures was[|was|..] == [] && FoldEntries(t, delta, was[|was|..], now) == Changed(delta)
  {
  }

  // ---- the prediction is exact ---------------------------------------------------------------

  /** The image offset behind a position of the covered sequence. */
  function OffsetOf(t: ModuleType, p: nat): nat {
    if t == DimmerModule && p >= 0x7FA then p + 6 else p
  }

  lemma PositionOfOffset(t: ModuleType, offset: nat, size: nat)
    requires ImageSize(t) == Some(size)
    ensures t == DimmerModule ==> CoveredPosition(t, offset) ==
                                  if offset < 0x7FA then Some(offset) else if 0x800 <= offset < 0xFD0 then Some(offset - 6) else None
    ensures CoveredLength(t) == Some(if t == DimmerModule then 0xFCA else size)
  {
    if t == DimmerModule {
      var ranges := CrcRanges(t).value;
      assert ranges[1..][0] == (0x800, 0xFD0) && ranges[1..][1..] == [];
      assert PositionIn(ranges, offset, 0) ==
        if offset < 0x7FA then Some(offset) else PositionIn(ranges[1..], offset, 0x7FA);
      assert RangeLengths(ranges) == 0x7FA + RangeLengths(ranges[1..]);
    }
  }

  lemma CoveredAt(t: ModuleType, image: seq<Byte>)
    requires ImageSize(t) == Some(|image|)
    ensures CoveredLength(t) == Some(|Covered(image, t)|)
    ensures forall p :: 0 <= p < |Covered(image, t)| ==> OffsetOf(t, p) < |image| && Covered(image, t)[p] == image[OffsetOf(t, p)]
  {
    PositionOfOffset(t, 0, |image|);
  }

  /** A dimmer's CRC leaves out the six bytes before the second half of its image; the others' CRC
      covers all of it. */
  lemma CrcCovers(image: seq<Byte>, t: ModuleType)
    ensures t == DimmerModule && |image| == 0xFD0 ==> ImageCrc(image, t) == Crc16(image[..0x7FA] + image[0x800..])
    ensures t != DimmerModule ==> ImageCrc(image, t) == Crc16(image)
  {
    hide Crc16;
    if |image| == 0xFD0 {
      assert image[0..0x7FA] == image[..0x7FA] && image[0x800..0xFD0] == image[0x800..];
    }
  }

  // ---- when there is a prediction -------------------------------------------------------------

  /** Before and after are of one length and, where the whole image is covered, lie within it. */
  ghost predicate Foldable(t: ModuleType, size: nat, e: Entry, now: map<nat, seq<Byte>>) {
    e.0 in now && |now[e.0]| == |e.1| && (t == DimmerModule || e.1 == [] || e.0 + |e.1| <= size)
  }

  /** A CRC is predicted exactly when the type has a layout, both maps hold the same offsets, and each
      pair of entries is of one length and, except on a dimmer, within the image. The first entry that
      is not decides: other lengths give no prediction, bytes beyond the image the error. */
  lemma PredictionOutcome(t: ModuleType, oldCrc: nat, was: seq<Entry>, now: map<nat, seq<Byte>>)
    ensures t == OtherModule || (set e | e in was :: e.0) != now.Keys ==> PredictCrc(t, oldCrc, was, now) == Unpredictable
    ensures t != OtherModule && (set e | e in was :: e.0) == now.Keys ==>
      var size := if t == DimmerModule then 0xFD0 else 0x700;
      && (PredictCrc(t, oldCrc, was, now).Predicted? <==> forall i :: 0 <= i < |was| ==> Foldable(t, size, was[i], now))
      && (forall i :: 0 <= i < |was| && !Foldable(t, size, was[i], now) && (forall j :: 0 <= j < i ==> Foldable(t, size, was[j], now)) ==>
            PredictCrc(t, oldCrc, was, now) == if |now[was[i].0]| != |was[i].1| then Unpredictable else OutOfRange)
  {
    hide PredictCrc, Foldable, Offsets;
    SameOffsets(was);
    if t == OtherModule || Offsets(was) != now.Keys {
      NothingPredicted(t, oldCrc, was, now);
    } else {
      EntriesDecide(t, oldCrc, was, now, if t == DimmerModule then 0xFD0 else 0x700);
    }
  }

  lemma NothingPredicted(t: ModuleType, oldCrc: nat, was: seq<Entry>, now: map<nat, seq<Byte>>)
    requires t == OtherModule || Offsets(was) != now.Keys
    ensures PredictCrc(t, oldCrc, was, now) == Unpredictable
  {
    hide Offsets, FoldEntries, Crc16;
  }

  lemma EntriesDecide(t: ModuleType, oldCrc: nat, was: seq<Entry>, now: map<nat, seq<Byte>>, size: nat)
    requires Offsets(was) == now.Keys && t != OtherModule && size == if t == DimmerModule then 0xFD0 else 0x700
    ensures PredictCrc(t, oldCrc, was, now).Predicted? <==> forall i :: 0 <= i < |was| ==> Foldable(t, size, was[i], now)
    ensures forall i :: 0 <= i < |was| && !Foldable(t, size, was[i], now) && (forall j :: 0 <= j < i ==> Foldable(t, size, was[j], now)) ==>
      was[i].0 in now && PredictCrc(t, oldCrc, was, now) == if |now[was[i].0]| != |was[i].1| then Unpredictable else OutOfRange
  {
    hide FoldEntries, Foldable, CoveredLength, Crc16;
    SameOffsets(was);
    PositionOfOffset(t, 0, size);
    var zeros := Zeros(CoveredLength(t).value);
    FoldOutcome(t, zeros, was, now, size);
    FailedIsNone(t, zeros, was, now);
  }

  /** A fold fails with no prediction or with the error. */
  lemma {:induction false} FailedIsNone(t: ModuleType, delta: seq<Byte>, was: seq<Entry>, now: map<nat, seq<Byte>>)
    requires forall e :: e in was ==> e.0 in now
    ensures var r := FoldEntries(t, delta, was, now); r.Failed? ==> !r.outcome.Predicted?
    decreases |was|
  {
    hide FoldBytes;
    if was != [] && |now[was[0].0]| == |was[0].1| {
      BytesFailedIsNone(t, delta, was[0].0, was[0].1, now[was[0].0], 0);
      var r := FoldBytes(t, delta, was[0].0, was[0].1, now[was[0].0], 0);
      if r.Changed? {
        FailedIsNone(t, r.delta, was[1..], now);
      }
    }
  }

  lemma {:induction false} BytesFailedIsNone(t: ModuleType, delta: seq<Byte>, offset: nat, before: seq<Byte>, after: seq<Byte>, k: nat)
    requires k <= |before| == |after|
    ensures var r := FoldBytes(t, delta, offset, before, after, k); r.Failed? ==> r.outcome == OutOfRange
    decreases |before| - k
  {
    hide CoveredPosition, Xor;
    if k < |before| {
      var p := CoveredPosition(t, offset + k);
      if p.None? {
        BytesFailedIsNone(t, delta, offset, before, after, k + 1);
      } else if p.value < |delta| {
        BytesFailedIsNone(t, delta[p.value := XorByte(delta[p.value], XorByte(before[k], after[k]))], offset, before, after, k + 1);
      }
    }
  }

  lemma SameOffsets(was: seq<Entry>)
    ensures (set e | e in was :: e.0) == Offsets(was)
    ensures forall i :: 0 <= i < |was| ==> was[i].0 in Offsets(was)
  {
  }

  lemma {:induction false} FoldOutcome(t: ModuleType, delta: seq<Byte>, was: seq<Entry>, now: map<nat, seq<Byte>>, size: nat)
    requires ImageSize(t) == Some(size) && CoveredLength(t) == Some(|delta|) && forall e :: e in was ==> e.0 in now
    ensures FoldEntries(t, delta, was, now).Changed? <==> forall i :: 0 <= i < |was| ==> Foldable(t, size, was[i], now)
    ensures forall i :: 0 <= i < |was| && !Foldable(t, size, was[i], now) && (forall j :: 0 <= j < i ==> Foldable(t, size, was[j], now)) ==>
      FoldEntries(t, delta, was, now) == Failed(if |now[was[i].0]| != |was[i].1| then Unpredictable else OutOfRange)
    decreases |was|
  {
    hide FoldBytes, FoldEntries, CoveredLength, ImageSize, Foldable;
    if was == [] {
      NoEntryLeft(t, delta, was, now);
    } else {
      var e := was[0];
      assert e in was;
      NextEntry(t, delta, was, now, 0);
      FirstFoldable(t, delta, e, now, size);
      if Foldable(t, size, e, now) {
        var rest := was[1..];
        FoldOutcome(t, FoldBytes(t, delta, e.0, e.1, now[e.0], 0).delta, rest, now, size);
        assert forall i :: 0 <= i < |rest| ==> rest[i] == was[i + 1];
        assert forall i :: 1 <= i < |was| ==> was[i] == rest[i - 1];
      }
    }
  }

  lemma FirstFoldable(t: ModuleType, delta: seq<Byte>, e: Entry, now: map<nat, seq<Byte>>, size: nat)
    requires ImageSize(t) == Some(size) && CoveredLength(t) == Some(|delta|) && e.0 in now
    ensures Foldable(t, size, e, now) ==>
      |now[e.0]| == |e.1| && FoldBytes(t, delta, e.0, e.1, now[e.0], 0).Changed? && |FoldBytes(t, delta, e.0, e.1, now[e.0], 0).delta| == |delta|
    ensures !Foldable(t, size, e, now) && |now[e.0]| == |e.1| ==> FoldBytes(t, delta, e.0, e.1, now[e.0], 0) == Failed(OutOfRange)
    ensures |now[e.0]| != |e.1| ==> !Foldable(t, size, e, now)
  {
    hide FoldBytes, CoveredLength, ImageSize;
    if |now[e.0]| == |e.1| {
      FoldBytesOutcome(t, delta, e.0, e.1, now[e.0], 0, size);
    }
  }

  lemma {:induction false} FoldBytesOutcome(t: ModuleType, delta: seq<Byte>, offset: nat, before: seq<Byte>, after: seq<Byte>, k: nat, size: nat)
    requires ImageSize(t) == Some(size) && CoveredLength(t) == Some(|delta|) && k <= |before| == |after|
    ensures var r := FoldBytes(t, delta, offset, before, after, k);
      if t == DimmerModule || k == |before| || offset + |before| <= size then r.Changed? && |r.delta| == |delta|
      else r == Failed(OutOfRange)
    decreases |before| - k
  {
    hide CoveredPosition, CoveredLength, Xor;
    if k < |before| {
      PositionOfOffset(t, offset + k, size);
      PlainPosition(t, offset + k);
      var p := CoveredPosition(t, offset + k);
      if p.None? {
        FoldBytesOutcome(t, delta, offset, before, after, k + 1, size);
      } else if p.value < |delta| {
        FoldBytesOutcome(t, delta[p.value := XorByte(delta[p.value], XorByte(before[k], after[k]))], offset, before, after, k + 1, size);
      }
    }
  }

  lemma PlainPosition(t: ModuleType, offset: nat)
    ensures t != DimmerModule ==> CoveredPosition(t, offset) == Some(offset)
  {
  }

  /** The entry reports what the image holds, within the image. */
  ghost predicate Reports(e: Entry, image: seq<Byte>) {
    e.0 + |e.1| <= |image| && e.1 == image[e.0..e.0 + |e.1|]
  }

  predicate Within(e: Entry, offset: nat) {
    e.0 <= offset < e.0 + |e.1|
  }

  /** The entries hold the byte an odd number of times. */
  predicate Odd(was: seq<Entry>, offset: nat) {
    was != [] && (Within(was[0], offset) != Odd(was[1..], offset))
  }

  /** `was` and `now` give, at the same offsets, bytes of `a` and of `b`. */
  ghost predicate Reported(was: seq<Entry>, now: map<nat, seq<Byte>>, a: seq<Byte>, b: seq<Byte>) {
    && |a| == |b|
    && Offsets(was) == now.Keys
    && (forall e :: e in was ==> Reports(e, a) && e.0 in now && |now[e.0]| == |e.1| && Reports((e.0, now[e.0]), b))
  }

  /** A position of the difference after the byte behind it was folded in, or was not. */
  function Toggled(t: ModuleType, delta: seq<Byte>, a: seq<Byte>, b: seq<Byte>, p: nat, folded: bool): Byte
    requires p < |delta| && OffsetOf(t, p) < |a| && |a| == |b|
  {
    if folded then XorByte(delta[p], XorByte(a[OffsetOf(t, p)], b[OffsetOf(t, p)])) else delta[p]
  }

  /** Folding bytes of `a` against bytes of `b` toggles exactly the covered positions they hold. */
  lemma {:induction false} FoldBytesToggles(t: ModuleType, delta: seq<Byte>, a: seq<Byte>, b: seq<Byte>,
      offset: nat, before: seq<Byte>, after: seq<Byte>, k: nat) returns (d: seq<Byte>)
    requires ImageSize(t) == Some(|a|) && |a| == |b| && CoveredLength(t) == Some(|delta|)
    requires Reports((offset, before), a) && Reports((offset, after), b) && |before| == |after| && k <= |before|
    ensures FoldBytes(t, delta, offset, before, after, k) == Changed(d) && |d| == |delta|
    ensures forall p :: 0 <= p < |delta| ==> OffsetOf(t, p) < |a|
    ensures forall p :: 0 <= p < |delta| ==> d[p] == Toggled(t, delta, a, b, p, offset + k <= OffsetOf(t, p) < offset + |before|)
    decreases |before| - k
  {
    hide XorByte, CoveredPosition, OffsetOf, CoveredLength, ImageSize;
    OffsetsInImage(t, |a|, |delta|);
    d := delta;
    if k < |before| {
      PlaceOfOffset(t, offset + k, |a|, |delta|);
      var position := CoveredPosition(t, offset + k);
      if position.None? {
        d := FoldBytesToggles(t, delta, a, b, offset, before, after, k + 1);
      } else {
        var x := XorByte(before[k], after[k]);
        assert before[k] == a[offset + k] && after[k] == b[offset + k];
        d := FoldBytesToggles(t, delta[position.value := XorByte(delta[position.value], x)], a, b, offset, before, after, k + 1);
      }
    }
  }

  lemma OffsetsInImage(t: ModuleType, size: nat, length: nat)
    requires ImageSize(t) == Some(size) && CoveredLength(t) == Some(length)
    ensures forall p: nat :: p < length ==> OffsetOf(t, p) < size
  {
    PositionOfOffset(t, 0, size);
  }

  /** A covered offset has one position. */
  lemma PlaceOfOffset(t: ModuleType, offset: nat, size: nat, length: nat)
    requires ImageSize(t) == Some(size) && CoveredLength(t) == Some(length) && offset < size
    ensures CoveredPosition(t, offset).Some? ==> CoveredPosition(t, offset).value < length
    ensures forall p: nat :: p < length ==> (OffsetOf(t, p) == offset <==> CoveredPosition(t, offset) == Some(p))
  {
    PositionOfOffset(t, offset, size);
  }

  lemma ToggledTwice(c: Byte, x: Byte)
    ensures XorByte(XorByte(c, x), x) == c
  {
    hide Xor;
    XorAssoc(c, x, x);
    XorSelf(x);
    XorZero(c);
  }

  /** Folding all entries toggles the covered positions held an odd number of times. */
  lemma {:induction false} FoldEntriesToggles(t: ModuleType, delta: seq<Byte>, a: seq<Byte>, b: seq<Byte>,
      was: seq<Entry>, now: map<nat, seq<Byte>>) returns (d: seq<Byte>)
    requires ImageSize(t) == Some(|a|) && |a| == |b| && CoveredLength(t) == Some(|delta|)
    requires forall e :: e in was ==> Reports(e, a) && e.0 in now && |now[e.0]| == |e.1| && Reports((e.0, now[e.0]), b)
    ensures FoldEntries(t, delta, was, now) == Changed(d) && |d| == |delta|
    ensures forall p :: 0 <= p < |delta| ==> OffsetOf(t, p) < |a|
    ensures forall p :: 0 <= p < |delta| ==> d[p] == Toggled(t, delta, a, b, p, Odd(was, OffsetOf(t, p)))
    decreases |was|
  {
    hide XorByte, Covered, PositionIn, Reports;
    CoveredAt(t, a);
    d := delta;
    if was != [] {
      var (offset, before) := was[0];
      assert was[0] in was;
      var mid := FoldBytesToggles(t, delta, a, b, offset, before, now[offset], 0);
      d := FoldEntriesToggles(t, mid, a, b, was[1..], now);
      forall p | 0 <= p < |delta| ensures d[p] == Toggled(t, delta, a, b, p, Odd(was, OffsetOf(t, p))) {
        ToggledTwice(delta[p], XorByte(a[OffsetOf(t, p)], b[OffsetOf(t, p)]));
      }
    }
  }

  /** The covered bytes of `a`, with those of `b` wherever the entries hold the byte an odd
      number of times. */
  function Mixed(t: ModuleType, was: seq<Entry>, a: seq<Byte>, b: seq<Byte>): (m: seq<Byte>)
    requires |a| == |b|
    ensures |m| == |Covered(a, t)|
    ensures forall p :: 0 <= p < |m| ==> m[p] == if Odd(was, OffsetOf(t, p)) then Covered(b, t)[p] else Covered(a, t)[p]
  {
    var ca, cb := Covered(a, t), Covered(b, t);
    seq<Byte>(|ca|, p requires 0 <= p < |ca| => if Odd(was, OffsetOf(t, p)) then cb[p] else ca[p])
  }

  /** What is predicted, whatever the entries hold and how often: the CRC of the old image with
      the bytes they hold an odd number of times changed. */
  lemma PredictsMixedImage(t: ModuleType, a: seq<Byte>, b: seq<Byte>, was: seq<Entry>, now: map<nat, seq<Byte>>)
    requires ImageSize(t) == Some(|a|) && Reported(was, now, a, b)
    ensures PredictCrc(t, ImageCrc(a, t), was, now) == Predicted(Crc16(Mixed(t, was, a, b)))
  {
    hide Xor, Crc16, Covered, CoveredLength, CrcRanges, Reports, FoldEntries, Odd;
    CoveredAt(t, a);
    CoveredAt(t, b);
    var ca, cb, mixed := Covered(a, t), Covered(b, t), Mixed(t, was, a, b);
    var delta := FoldEntriesToggles(t, Zeros(|ca|), a, b, was, now);
    assert XorSeq(ca, delta) == mixed by {
      forall p | 0 <= p < |ca| ensures XorSeq(ca, delta)[p] == mixed[p] {
        XorZero(XorByte(ca[p], cb[p]));
        XorZero(ca[p]);
        XorCancel(ca[p], cb[p]);
      }
    }
    CrcAffine(ca, delta);
    if delta == Zeros(|ca|) {
      assert mixed == ca by {
        forall p | 0 <= p < |ca| ensures mixed[p] == ca[p] { XorZero(ca[p]); }
      }
    }
  }

  /** Every changed byte that the CRC covers is held an odd number of times. */
  ghost predicate HoldsEveryChange(t: ModuleType, was: seq<Entry>, a: seq<Byte>, b: seq<Byte>) {
    forall p :: 0 <= p < |Covered(a, t)| && OffsetOf(t, p) < |a| && OffsetOf(t, p) < |b| && a[OffsetOf(t, p)] != b[OffsetOf(t, p)]
      ==> Odd(was, OffsetOf(t, p))
  }

  /** The prediction is made for the changed image exactly when every changed byte that the CRC
      covers is held an odd number of times; then it is the changed image's CRC. */
  lemma PredictionIsExact(t: ModuleType, a: seq<Byte>, b: seq<Byte>, was: seq<Entry>, now: map<nat, seq<Byte>>)
    requires ImageSize(t) == Some(|a|) && Reported(was, now, a, b)
    ensures Mixed(t, was, a, b) == Covered(b, t) <==> HoldsEveryChange(t, was, a, b)
    ensures HoldsEveryChange(t, was, a, b) ==> PredictCrc(t, ImageCrc(a, t), was, now) == Predicted(ImageCrc(b, t))
  {
    hide PredictCrc, Crc16, Covered, Odd, Reports, CoveredLength;
    PredictsMixedImage(t, a, b, was, now);
    CoveredAt(t, a);
    CoveredAt(t, b);
    var ca, cb, mixed := Covered(a, t), Covered(b, t), Mixed(t, was, a, b);
    if HoldsEveryChange(t, was, a, b) {
      assert mixed == cb;
    } else {
      var p :| 0 <= p < |ca| && a[OffsetOf(t, p)] != b[OffsetOf(t, p)] && !Odd(was, OffsetOf(t, p));
      assert mixed[p] == ca[p] != cb[p];
    }
  }

  // ---- maps that hold each byte at most once ---------------------------------------------------

  ghost predicate Mapped(was: seq<Entry>, offset: nat) {
    exists i :: 0 <= i < |was| && Within(was[i], offset)
  }

  ghost predicate NonOverlapping(was: seq<Entry>) {
    forall i, j, o: nat :: 0 <= i < j < |was| ==> !(Within(was[i], o) && Within(was[j], o))
  }

  lemma {:induction false} MappedOnce(was: seq<Entry>, offset: nat)
    requires NonOverlapping(was)
    ensures Odd(was, offset) <==> Mapped(was, offset)
    decreases |was|
  {
    if was != [] {
      var rest := was[1..];
      assert forall i :: 0 <= i < |rest| ==> rest[i] == was[i + 1];
      MappedOnce(rest, offset);
      if Mapped(was, offset) && !Within(was[0], offset) {
        var i :| 0 <= i < |was| && Within(was[i], offset);
        assert Within(rest[i - 1], offset);
      }
    }
  }

  /** Maps that hold each byte at most once, and every byte that changed, predict the CRC of the
      changed image, whatever the layout of its coverage. */
  lemma DisjointMapsPredict(t: ModuleType, a: seq<Byte>, b: seq<Byte>, was: seq<Entry>, now: map<nat, seq<Byte>>)
    requires ImageSize(t) == Some(|a|) && Reported(was, now, a, b) && NonOverlapping(was)
    requires forall o: nat :: o < |a| && !Mapped(was, o) ==> a[o] == b[o]
    ensures PredictCrc(t, ImageCrc(a, t), was, now) == Predicted(ImageCrc(b, t))
  {
    hide Covered, Odd, Mapped, NonOverlapping, PredictCrc, CoveredLength, ImageCrc;
    forall o: nat ensures Odd(was, o) <==> Mapped(was, o) { MappedOnce(was, o); }
    PredictionIsExact(t, a, b, was, now);
  }

  // ---- reading the image ------------------------------------------------------------------------

  function BlockSize(t: ModuleType): (n: nat)
    ensures n > 0
  {
    if t == DimmerModule then 8 else 16
  }

  datatype ReadError = NoLayout | ShortBlock(block: nat)

  /** What the module answers for a block: a two-byte address echo, then the block. */
  type Replies = nat -> seq<Byte>

  function BlockData(reply: Replies, block: nat): seq<Byte> {
    var payload := reply(block);
    if |payload| < 2 then [] else payload[2..]
  }

  function ReadBlocks(reply: Replies, size: nat, first: nat, count: nat): (r: Result<seq<Byte>, ReadError>)
    ensures r.Ok? ==> |r.value| == count * size
    decreases count
  {
    if count == 0 then Ok([])
    else if |BlockData(reply, first)| != size then Err(ShortBlock(first))
    else
      match ReadBlocks(reply, size, first + 1, count - 1)
      case Err(e) => Err(e)
      case Ok(rest) => Ok(BlockData(reply, first) + rest)
  }

  lemma {:induction false} ReadBlocksSplit(reply: Replies, size: nat, first: nat, m: nat, n: nat)
    ensures ReadBlocks(reply, size, first, m + n) ==
      match ReadBlocks(reply, size, first, m)
      case Err(e) => Err(e)
      case Ok(x) =>
        match ReadBlocks(reply, size, first + m, n)
        case Err(e) => Err(e)
        case Ok(y) => Ok(x + y)
    decreases m
  {
    if m == 0 {
      var r := ReadBlocks(reply, size, first, n);
      assert r.Ok? ==> [] + r.value == r.value;
    } else {
      ReadBlocksSplit(reply, size, first + 1, m - 1, n);
      var d := BlockData(reply, first);
      var r, s := ReadBlocks(reply, size, first + 1, m - 1), ReadBlocks(reply, size, first + m, n);
      if |d| == size && r.Ok? && s.Ok? {
        assert d + (r.value + s.value) == (d + r.value) + s.value;
      }
    }
  }

  function ReadMemory(t: ModuleType, reply: Replies): Result<seq<Byte>, ReadError> {
    match ImageSize(t)
    case None => Err(NoLayout)
    case Some(size) => ReadBlocks(reply, BlockSize(t), 0, size / BlockSize(t))
  }

  /** `read_module_memory` */
  method ReadModuleMemory(t: ModuleType, reply: Replies) returns (r: Result<seq<Byte>, ReadError>)
    ensures r == ReadMemory(t, reply)
  {
    var size := ImageSize(t);
    if size.None? {
      return Err(NoLayout);
    }
    r := ReadBlockRange(reply, BlockSize(t), 0, size.value / BlockSize(t));
  }

  method ReadBlockRange(reply: Replies, size: nat, first: nat, count: nat) returns (r: Result<seq<Byte>, ReadError>)
    ensures r == ReadBlocks(reply, size, first, count)
  {
    var data: seq<Byte> := [];
    for i := 0 to count
      invariant ReadBlocks(reply, size, first, i) == Ok(data)
    {
      ReadBlocksSplit(reply, size, first, i, 1);
      ReadBlocksSplit(reply, size, first, i + 1, count - i - 1);
      var chunk := BlockData(reply, first + i);
      assert ReadBlocks(reply, size, first + i + 1, 0) == Ok([]);
      if |chunk| != size {
        return Err(ShortBlock(first + i));
      }
      assert chunk + [] == chunk;
      data := data + chunk;
    }
    return Ok(data);
  }

  /** The replies to the blocks `first` to `first + count` have the length of a block and its echo. */
  ghost predicate FullReplies(reply: Replies, size: nat, first: nat, count: nat) {
    forall b: nat :: first <= b < first + count ==> |reply(b)| == size + 2
  }

  /** Block `b` of the data is what a reply carries behind its echo. */
  ghost predicate Carries(data: seq<Byte>, size: nat, b: nat, payload: seq<Byte>) {
    |payload| == size + 2 && b * size + size <= |data| && data[b * size..b * size + size] == payload[2..]
  }

  /** Blocks read are the bytes behind the echo of each reply, in order, or else the first reply of
      another length is named. */
  lemma {:induction false} BlocksAreReplies(reply: Replies, size: nat, first: nat, count: nat)
    requires size > 0
    ensures match ReadBlocks(reply, size, first, count)
      case Ok(data) => |data| == count * size && forall b: nat :: first <= b < first + count ==> Carries(data, size, b - first, reply(b))
      case Err(e) =>
        e.ShortBlock? && first <= e.block < first + count && FullReplies(reply, size, first, e.block - first) && |reply(e.block)| != size + 2
    decreases count
  {
    if count > 0 {
      hide Carries, FullReplies;
      BlocksAreReplies(reply, size, first + 1, count - 1);
      var rest := ReadBlocks(reply, size, first + 1, count - 1);
      if |BlockData(reply, first)| == size && rest.Ok? {
        var data := BlockData(reply, first);
        FirstCarried(data, rest.value, size, reply(first));
        forall b: nat | first < b < first + count ensures Carries(data + rest.value, size, b - first, reply(b)) {
          CarriedBehind(data, rest.value, size, b - first, reply(b));
        }
      } else if |BlockData(reply, first)| == size {
        OneMoreFull(reply, size, first, rest.error.block - first);
      } else {
        NoneFull(reply, size, first);
      }
    }
  }

  lemma FirstCarried(data: seq<Byte>, rest: seq<Byte>, size: nat, payload: seq<Byte>)
    requires size > 0 && |data| == size && data == if |payload| < 2 then [] else payload[2..]
    ensures Carries(data + rest, size, 0, payload)
  {
  }

  lemma CarriedBehind(data: seq<Byte>, rest: seq<Byte>, size: nat, b: nat, payload: seq<Byte>)
    requires b > 0 && |data| == size && Carries(rest, size, b - 1, payload)
    ensures Carries(data + rest, size, b, payload)
  {
    assert b * size == size + (b - 1) * size;
  }

  lemma OneMoreFull(reply: Replies, size: nat, first: nat, n: nat)
    requires n > 0 && |reply(first)| == size + 2 && FullReplies(reply, size, first + 1, n - 1)
    ensures FullReplies(reply, size, first, n)
  {
  }

  lemma NoneFull(reply: Replies, size: nat, first: nat)
    ensures FullReplies(reply, size, first, 0)
  {
  }

  /** The reply to the byte's block is of full length and holds it behind the two bytes of the echo. */
  ghost predicate IsReplyByte(reply: Replies, size: nat, offset: nat, value: Byte)
    requires size > 0
  {
    |reply(offset / size)| == size + 2 && value == reply(offset / size)[2 + offset % size]
  }

  /** An image is read exactly when the type has a layout and every block's reply is of full length;
      each byte is then the one of its block's reply, behind the two bytes of the echo. Otherwise the
      first reply of another length is named. */
  lemma ImageIsReplies(t: ModuleType, reply: Replies)
    ensures t == OtherModule ==> ReadMemory(t, reply) == Err(NoLayout)
    ensures t != OtherModule ==>
      var size := if t == DimmerModule then 0xFD0 else 0x700;
      var n := if t == DimmerModule then 8 else 16;
      match ReadMemory(t, reply)
      case Ok(image) => |image| == size && forall i :: 0 <= i < size ==> IsReplyByte(reply, n, i, image[i])
      case Err(e) => e.ShortBlock? && e.block < size / n && FullReplies(reply, n, 0, e.block) && |reply(e.block)| != n + 2
  {
    Layouts(t);
    hide ReadBlocks, FullReplies, Carries, BlockSize, ImageSize, IsReplyByte;
    if ImageSize(t).Some? {
      var size, n := ImageSize(t).value, BlockSize(t);
      BlocksAreReplies(reply, n, 0, size / n);
      WholeBlocks(t);
      if ReadMemory(t, reply).Ok? {
        var image := ReadMemory(t, reply).value;
        forall i | 0 <= i < size ensures IsReplyByte(reply, n, i, image[i]) {
          BlockOfByte(t, i);
          assert Carries(image, n, i / n - 0, reply(i / n));
          CarriedIs(image, n, i, reply);
        }
      }
    }
  }

  lemma CarriedByte(data: seq<Byte>, size: nat, b: nat, j: nat, payload: seq<Byte>)
    requires Carries(data, size, b, payload) && j < size
    ensures |payload| == size + 2 && b * size + j < |data| && data[b * size + j] == payload[2 + j]
  {
    assert data[b * size..b * size + size][j] == payload[2..][j];
  }

  lemma CarriedIs(data: seq<Byte>, size: nat, i: nat, reply: Replies)
    requires size > 0 && Carries(data, size, i / size, reply(i / size))
    requires i / size * size + i % size == i && i % size < size
    ensures i < |data| && IsReplyByte(reply, size, i, data[i])
  {
    hide Carries;
    CarriedByte(data, size, i / size, i % size, reply(i / size));
  }

  /** The size of a module's memory and the data bytes of one of its replies. */
  lemma Layouts(t: ModuleType)
    ensures ImageSize(t) == if t == OtherModule then None else Some(if t == DimmerModule then 0xFD0 else 0x700)
    ensures BlockSize(t) == if t == DimmerModule then 8 else 16
  { }

  lemma WholeBlocks(t: ModuleType)
    requires ImageSize(t).Some?
    ensures ImageSize(t).value / BlockSize(t) * BlockSize(t) == ImageSize(t).value
  {
  }

  lemma BlockOfByte(t: ModuleType, i: nat)
    requires ImageSize(t).Some? && i < ImageSize(t).value
    ensures i / BlockSize(t) < ImageSize(t).value / BlockSize(t) && i / BlockSize(t) * BlockSize(t) + i % BlockSize(t) == i
    ensures i % BlockSize(t) < BlockSize(t)
  {
  }

  /** Blocks from the one holding `start` to the one holding byte `end - 1`, if any. */
  function BlockCount(size: nat, start: nat, end: nat): nat
    requires size == 8 || size == 16
  {
    if (end - 1) / size + 1 >= start / size then (end - 1) / size + 1 - start / size else 0
  }

  /** The bytes `start` to `end` of what was read from offset `base` on; none when they are crossed. */
  function Cut(data: seq<Byte>, base: nat, start: nat, end: nat): seq<Byte>
    requires base <= start
  {
    if start <= end then Slice(data, start - base, end - base) else []
  }

  function ReadRange(t: ModuleType, reply: Replies, start: nat, end: nat): Result<seq<Byte>, ReadError> {
    if ImageSize(t).None? then Err(NoLayout)
    else
      var size := BlockSize(t);
      var first := start / size;
      match ReadBlocks(reply, size, first, BlockCount(size, start, end))
      case Err(e) => Err(e)
      case Ok(data) => Ok(Cut(data, first * size, start, end))
  }

  /** So it is with a range: each byte is the one of its block's reply, and only the replies of the
      blocks that hold the range matter. */
  lemma RangeIsReplies(t: ModuleType, reply: Replies, start: nat, end: nat)
    ensures ImageSize(t).None? ==> ReadRange(t, reply, start, end) == Err(NoLayout)
    ensures ImageSize(t).Some? ==>
      var n := BlockSize(t);
      match ReadRange(t, reply, start, end)
      case Ok(data) =>
        && |data| == (if start <= end then end - start else 0)
        && forall i :: 0 <= i < |data| ==> IsReplyByte(reply, n, start + i, data[i])
      case Err(e) =>
        && e.ShortBlock? && start / n <= e.block < start / n + BlockCount(n, start, end)
        && FullReplies(reply, n, start / n, e.block - start / n) && |reply(e.block)| != n + 2
  {
    if ImageSize(t).Some? {
      var n := BlockSize(t);
      var first, count := start / n, BlockCount(n, start, end);
      hide ReadBlocks, FullReplies, Carries, BlockSize, ImageSize, BlockCount, Cut;
      BlocksAreReplies(reply, n, first, count);
      if ReadRange(t, reply, start, end).Ok? {
        CutIsReplies(n, reply, ReadBlocks(reply, n, first, count).value, start, end);
      }
    }
  }

  lemma CutIsReplies(size: nat, reply: Replies, blocks: seq<Byte>, start: nat, end: nat)
    requires (size == 8 || size == 16) && |blocks| == BlockCount(size, start, end) * size
    requires forall b: nat :: start / size <= b < start / size + BlockCount(size, start, end) ==> Carries(blocks, size, b - start / size, reply(b))
    ensures start / size * size <= start
    ensures var data := Cut(blocks, start / size * size, start, end);
      && |data| == (if start <= end then end - start else 0)
      && forall i :: 0 <= i < |data| ==> IsReplyByte(reply, size, start + i, data[i])
  {
    hide BlockCount, Cut, Carries;
    CutIsSlice(size, blocks, start, end);
    var data := Cut(blocks, start / size * size, start, end);
    forall i | 0 <= i < |data| ensures IsReplyByte(reply, size, start + i, data[i]) {
      ByteInRange(size, start, end, i);
      var b, j := (start + i) / size, (start + i) % size;
      assert Carries(blocks, size, b - start / size, reply(b));
      CarriedByte(blocks, size, b - start / size, j, reply(b));
      assert data[i] == blocks[start + i - start / size * size] == blocks[(b - start / size) * size + j];
    }
  }

  lemma CutIsSlice(size: nat, blocks: seq<Byte>, start: nat, end: nat)
    requires (size == 8 || size == 16) && |blocks| == BlockCount(size, start, end) * size
    ensures start / size * size <= start
    ensures var data := Cut(blocks, start / size * size, start, end);
      && |data| == (if start <= end then end - start else 0)
      && forall i: nat :: i < |data| ==> start + i - start / size * size < |blocks| && data[i] == blocks[start + i - start / size * size]
  {
    hide BlockCount;
    if start < end {
      RangeCovered(size, start, end);
    }
  }

  lemma RangeCovered(size: nat, start: nat, end: nat)
    requires (size == 8 || size == 16) && start < end
    ensures start / size * size <= start && end - start / size * size <= BlockCount(size, start, end) * size
  {
  }

  lemma ByteInRange(size: nat, start: nat, end: nat, i: nat)
    requires (size == 8 || size == 16) && start + i < end
    ensures start / size <= (start + i) / size < start / size + BlockCount(size, start, end)
    ensures ((start + i) / size - start / size) * size + (start + i) % size == start + i - start / size * size
  {
  }

  /** `read_module_range`: only the blocks holding bytes `start` to `end`. */
  method ReadModuleRange(t: ModuleType, reply: Replies, start: nat, end: nat) returns (r: Result<seq<Byte>, ReadError>)
    ensures r == ReadRange(t, reply, start, end)
  {
    if ImageSize(t).None? {
      return Err(NoLayout);
    }
    var size := BlockSize(t);
    var first := start / size;
    var data := ReadBlockRange(reply, size, first, BlockCount(size, start, end));
    if data.Err? {
      return data;
    }
    return Ok(Cut(data.value, first * size, start, end));
  }

  lemma SliceOfMiddle(x: seq<Byte>, y: seq<Byte>, z: seq<Byte>, start: nat, end: nat)
    requires |x| <= start <= end <= |x| + |y|
    ensures (x + (y + z))[start..end] == y[start - |x|..end - |x|]
  {
  }

  lemma BlocksAreSlice(reply: Replies, size: nat, image: seq<Byte>, first: nat, count: nat, rest: nat, start: nat, end: nat)
    requires ReadBlocks(reply, size, 0, first + (count + rest)) == Ok(image)
    requires first * size <= start <= end <= first * size + count * size
    ensures ReadBlocks(reply, size, first, count).Ok?
    ensures Slice(ReadBlocks(reply, size, first, count).value, start - first * size, end - first * size) == Slice(image, start, end)
  {
    hide ReadBlocks, BlockData;
    ReadBlocksSplit(reply, size, 0, first, count + rest);
    ReadBlocksSplit(reply, size, first, count, rest);
    var x, y := ReadBlocks(reply, size, 0, first).value, ReadBlocks(reply, size, first, count).value;
    var z := ReadBlocks(reply, size, first + count, rest).value;
    SliceOfMiddle(x, y, z, start, end);
  }

  /** A range read is the slice of the full image. */
  lemma RangeIsSlice(t: ModuleType, reply: Replies, image: seq<Byte>, start: nat, end: nat)
    requires ReadMemory(t, reply) == Ok(image)
    requires start <= end <= |image|
    ensures ImageSize(t) == Some(|image|)
    ensures ReadRange(t, reply, start, end) == Ok(image[start..end])
  {
    hide ReadBlocks, BlockData;
    var size := BlockSize(t);
    var total := ImageSize(t).value / size;
    var first, count := start / size, BlockCount(size, start, end);
    assert ImageSize(t).value == total * size && first + count <= total && first * size <= start
        && end <= first * size + count * size by {
      if t == DimmerModule {
        assert size == 8 && total == 506;
      } else {
        assert size == 16 && total == 112;
      }
    }
    BlocksAreSlice(reply, size, image, first, count, total - first - count, start, end);
  }

  /** The bytes a module rewrites by itself (`MODULE_VOLATILE_RANGES`). */
  function VolatileRanges(t: ModuleType): seq<Range> {
    if t == DimmerModule then [(0x7E3, 0x7FA)] else []
  }

  function ReadRanges(t: ModuleType, reply: Replies, ranges: seq<Range>): Result<seq<Entry>, ReadError>
  {
    if ranges == [] then Ok([])
    else
      match ReadRange(t, reply, ranges[0].0, ranges[0].1)
      case Err(e) => Err(e)
      case Ok(data) =>
        match ReadRanges(t, reply, ranges[1..])
        case Err(e) => Err(e)
        case Ok(rest) => Ok([(ranges[0].0, data)] + rest)
  }

  function Prefixed(entries: seq<Entry>, rest: Result<seq<Entry>, ReadError>): Result<seq<Entry>, ReadError> {
    match rest
    case Err(e) => Err(e)
    case Ok(more) => Ok(entries + more)
  }

  lemma PrefixedConcat(x: seq<Entry>, rest: Result<seq<Entry>, ReadError>, y: seq<Entry>)
    ensures Prefixed([], rest) == rest
    ensures Prefixed(x, Prefixed(y, rest)) == Prefixed(x + y, rest)
  {
    if rest.Ok? {
      assert [] + rest.value == rest.value;
      assert x + (y + rest.value) == x + y + rest.value;
    }
  }

  /** `read_module_volatile` */
  method ReadModuleVolatile(t: ModuleType, reply: Replies) returns (r: Result<seq<Entry>, ReadError>)
    ensures r == ReadRanges(t, reply, VolatileRanges(t))
  {
    var ranges := VolatileRanges(t);
    var entries: seq<Entry> := [];
    assert ranges[0..] == ranges;
    PrefixedConcat([], ReadRanges(t, reply, ranges), []);
    for i := 0 to |ranges|
      invariant ReadRanges(t, reply, ranges) == Prefixed(entries, ReadRanges(t, reply, ranges[i..]))
    {
      var data := ReadModuleRange(t, reply, ranges[i].0, ranges[i].1);
      assert ranges[i..][1..] == ranges[i + 1..];
      if data.Err? {
        return Err(data.error);
      }
      var entry := (ranges[i].0, data.value);
      assert ReadRanges(t, reply, ranges[i..]) == Prefixed([entry], ReadRanges(t, reply, ranges[i + 1..]));
      PrefixedConcat(entries, ReadRanges(t, reply, ranges[i + 1..]), [entry]);
      entries := entries + [entry];
    }
    assert ranges[|ranges|..] == [] && entries + [] == entries;
    return Ok(entries);
  }

  function AsMap(entries: seq<Entry>): map<nat, seq<Byte>> {
    if entries == [] then map[] else AsMap(entries[1..]) + map[entries[0].0 := entries[0].1]
  }

  /** A dimmer read before and after its volatile bytes moved: the two volatile reads and
      the old CRC predict the new CRC. */
  lemma VolatileReadsPredictCrc(before: Replies, after: Replies, a: seq<Byte>, b: seq<Byte>)
    requires ReadMemory(DimmerModule, before) == Ok(a) && ReadMemory(DimmerModule, after) == Ok(b)
    requires forall o :: 0 <= o < |a| && o < |b| && !(0x7E3 <= o < 0x7FA) ==> a[o] == b[o]
    ensures |a| == |b| == 0xFD0
    ensures ReadRanges(DimmerModule, before, VolatileRanges(DimmerModule)) == Ok([(0x7E3, a[0x7E3..0x7FA])])
    ensures ReadRanges(DimmerModule, after, VolatileRanges(DimmerModule)) == Ok([(0x7E3, b[0x7E3..0x7FA])])
    ensures PredictCrc(DimmerModule, ImageCrc(a, DimmerModule), [(0x7E3, a[0x7E3..0x7FA])], AsMap([(0x7E3, b[0x7E3..0x7FA])]))
      == Predicted(ImageCrc(b, DimmerModule))
  {
    hide ReadRange, ReadMemory, PredictCrc, ImageCrc, Xor;
    RangeIsSlice(DimmerModule, before, a, 0, 0);
    RangeIsSlice(DimmerModule, after, b, 0, 0);
    RangeIsSlice(DimmerModule, before, a, 0x7E3, 0x7FA);
    RangeIsSlice(DimmerModule, after, b, 0x7E3, 0x7FA);
    OneVolatileRange(before, a[0x7E3..0x7FA]);
    OneVolatileRange(after, b[0x7E3..0x7FA]);
    var was: seq<Entry> := [(0x7E3, a[0x7E3..0x7FA])];
    var now := map[0x7E3 as nat := b[0x7E3..0x7FA]];
    assert AsMap([(0x7E3 as nat, b[0x7E3..0x7FA])]) == now;
    assert was[0] in was;
    assert Offsets(was) == {0x7E3};
    forall o: nat | o < |a| && !Mapped(was, o) ensures a[o] == b[o] {
      assert !Within(was[0], o);
    }
    DisjointMapsPredict(DimmerModule, a, b, was, now);
  }

  lemma OneVolatileRange(reply: Replies, data: seq<Byte>)
    requires ReadRange(DimmerModule, reply, 0x7E3, 0x7FA) == Ok(data)
    ensures ReadRanges(DimmerModule, reply, VolatileRanges(DimmerModule)) == Ok([(0x7E3, data)])
  {
    hide ReadRange;
    var ranges := VolatileRanges(DimmerModule);
    assert ranges[1..] == [];
    assert ReadRanges(DimmerModule, reply, ranges[1..]) == Ok([]);
    var e: Entry := (0x7E3, data);
    assert [e] + [] == [e];
  }

  /** A byte held under two offsets keeps its old value in the prediction: with byte 1 the only
      change, maps of bytes 0 to 1 and of byte 1 predict the old CRC, and the module reports
      another. */
  lemma OverlapBreaksPrediction(a: seq<Byte>, b: seq<Byte>)
    requires |a| == |b| == 0x700 && a[1] != b[1] && forall o :: 0 <= o < 0x700 && o != 1 ==> a[o] == b[o]
    ensures PredictCrc(SwitchModule, ImageCrc(a, SwitchModule), [(0, a[..2]), (1, a[1..2])], map[0 := b[..2], 1 := b[1..2]])
      == Predicted(ImageCrc(a, SwitchModule)) != Predicted(ImageCrc(b, SwitchModule))
  {
    hide Crc16, PredictCrc;
    var was: seq<Entry> := [(0, a[..2]), (1, a[1..2])];
    var now := map[0 as nat := b[..2], 1 := b[1..2]];
    assert Offsets(was) == {0, 1} by { assert was[0] in was && was[1] in was; }
    PredictsMixedImage(SwitchModule, a, b, was, now);
    assert Mixed(SwitchModule, was, a, b) == a by {
      assert was[1..] == [(1 as nat, a[1..2])] && was[1..][1..] == [];
      assert !Odd(was[1..][1..], 1) && Odd(was[1..], 1) && !Odd(was, 1);
    }
    assert a == [] + a[..2] + a[2..] && b == [] + b[..2] + b[2..] && a[2..] == b[2..];
    assert a[..2][1] != b[..2][1];
    CrcDetectsAdjacentChange([], a[..2], b[..2], a[2..]);
  }
}
