/** Which stored key a link record means, and that it is the key whose frame the module
    listens for (`discovery/fileio.py`, `_resolve_operation_point`). */
module KeyResolver {
  import opened Wrappers
  import opened Bits
  import opened Addresses
  import opened ButtonPlates

  type BusIndex = map<nat, (nat, Key)>

  const ALL_KEYS: seq<Key> := [Key1A, Key1B, Key1C, Key1D, Key2A, Key2B, Key2C, Key2D]

  // ---- keys by frame -------------------------------------------------------------------------------

  predicate IsKey(buttons: Buttons, hit: (nat, Key)) {
    hit.0 in buttons && hit.1 in buttons[hit.0].ops
  }

  /** The hit's key sends the frame, or the one before it on an eight-key button. */
  predicate Sends(buttons: Buttons, hit: (nat, Key), bus: nat) {
    IsKey(buttons, hit)
    && (buttons[hit.0].ops[hit.1] == bus || (buttons[hit.0].channels == 8 && (buttons[hit.0].ops[hit.1] + 1) % FRAMES == bus))
  }

  ghost predicate HitsAreKeys(buttons: Buttons, index: BusIndex) {
    forall bus :: bus in index ==> Sends(buttons, index[bus], bus)
  }

  ghost predicate KeysIndexed(buttons: Buttons, index: BusIndex, plate: nat, keys: seq<Key>)
    requires plate in buttons
  {
    forall k :: k in keys && k in buttons[plate].ops ==> buttons[plate].ops[k] in index
  }

  /** The key sends the frame, or the one before it on an eight-key button. */
  predicate Claims(p: Plate, key: Key, bus: nat) {
    key in p.ops && (p.ops[key] == bus || (p.channels == 8 && (p.ops[key] + 1) % FRAMES == bus))
  }

  function ClaimOf(p: Plate, keys: seq<Key>, bus: nat): (key: Option<Key>)
    ensures key.Some? ==> key.value in keys && Claims(p, key.value, bus)
    ensures key.None? ==> forall k :: k in keys ==> !Claims(p, k, bus)
  {
    if keys == [] then None
    else
      var earlier := ClaimOf(p, keys[..|keys| - 1], bus);
      if earlier.Some? then earlier else if Claims(p, keys[|keys| - 1], bus) then Some(keys[|keys| - 1]) else None
  }

  function ClaimAt(buttons: Buttons, plate: nat, keys: seq<Key>, bus: nat): Option<(nat, Key)> {
    if plate !in buttons || ClaimOf(buttons[plate], keys, bus).None? then None
    else Some((plate, ClaimOf(buttons[plate], keys, bus).value))
  }

  /** Of the keys that claim a frame the one filed first has it. */
  function FirstClaim(buttons: Buttons, order: seq<nat>, bus: nat): Option<(nat, Key)> {
    if order == [] then None
    else OrElse(FirstClaim(buttons, order[..|order| - 1], bus), ClaimAt(buttons, order[|order| - 1], ALL_KEYS, bus))
  }

  function Lookup(index: BusIndex, bus: nat): Option<(nat, Key)> {
    if bus in index then Some(index[bus]) else None
  }

  ghost predicate Files(buttons: Buttons, order: seq<nat>, index: BusIndex) {
    forall bus :: Lookup(index, bus) == FirstClaim(buttons, order, bus)
  }

  ghost predicate Lists(order: seq<nat>, buttons: Buttons) {
    forall p :: p in order <==> p in buttons
  }

  /** `_build_bus_to_op_index`, over the plates in stored order. */
  method BuildBusToOpIndex(buttons: Buttons, order: seq<nat>) returns (index: BusIndex)
    requires Lists(order, buttons)
    ensures Files(buttons, order, index)
    ensures HitsAreKeys(buttons, index)
    ensures forall p :: p in buttons ==> KeysIndexed(buttons, index, p, ALL_KEYS)
  {
    hide Claims, Files, HitsAreKeys, KeysIndexed;
    index := map[];
    NothingFiled(buttons, order);
    for i := 0 to |order|
      invariant Files(buttons, order[..i], index)
    {
      assert order[i] in order;
      var p := buttons[order[i]];
      ghost var before := index;
      assert FiledWith(buttons, before, order[i], [], index);
      for j := 0 to |ALL_KEYS|
        invariant FiledWith(buttons, before, order[i], ALL_KEYS[..j], index)
      {
        var key := ALL_KEYS[j];
        OneMoreKey(buttons, before, order[i], j, index);
        if key in p.ops {
          index := Filed(index, p.ops[key], (order[i], key));
          if p.channels == 8 {
            index := Filed(index, (p.ops[key] + 1) % FRAMES, (order[i], key));
          }
        }
      }
      OnePlateFiled(buttons, order, i, before, index);
    }
    assert order[..|order|] == order;
    FiledKeys(buttons, order, index);
  }

  /** The index when the keys of one more plate have been filed behind `before`. */
  ghost predicate FiledWith(buttons: Buttons, before: BusIndex, plate: nat, keys: seq<Key>, index: BusIndex) {
    forall bus :: Lookup(index, bus) == OrElse(Lookup(before, bus), ClaimAt(buttons, plate, keys, bus))
  }

  lemma NothingFiled(buttons: Buttons, order: seq<nat>)
    ensures Files(buttons, order[..0], map[])
  {
  }

  /** `dict.setdefault`, for a key's frame and its alias. */
  function KeyFiled(index: BusIndex, p: Plate, plate: nat, key: Key): BusIndex {
    if key !in p.ops then index
    else
      var filed := Filed(index, p.ops[key], (plate, key));
      if p.channels == 8 then Filed(filed, (p.ops[key] + 1) % FRAMES, (plate, key)) else filed
  }

  lemma OneMoreKey(buttons: Buttons, before: BusIndex, plate: nat, j: nat, index: BusIndex)
    requires plate in buttons && j < |ALL_KEYS| && FiledWith(buttons, before, plate, ALL_KEYS[..j], index)
    ensures FiledWith(buttons, before, plate, ALL_KEYS[..j + 1], KeyFiled(index, buttons[plate], plate, ALL_KEYS[j]))
  {
    assert ALL_KEYS[..j + 1][..j] == ALL_KEYS[..j];
  }

  lemma OnePlateFiled(buttons: Buttons, order: seq<nat>, i: nat, before: BusIndex, index: BusIndex)
    requires i < |order| && Files(buttons, order[..i], before)
    requires FiledWith(buttons, before, order[i], ALL_KEYS[..|ALL_KEYS|], index)
    ensures Files(buttons, order[..i + 1], index)
  {
    assert ALL_KEYS[..|ALL_KEYS|] == ALL_KEYS;
    assert order[..i + 1][..i] == order[..i];
  }

  lemma {:induction false} ClaimIsKey(buttons: Buttons, order: seq<nat>, bus: nat)
    ensures FirstClaim(buttons, order, bus).Some? ==> Sends(buttons, FirstClaim(buttons, order, bus).value, bus)
    ensures FirstClaim(buttons, order, bus).None? ==> forall p, key :: p in order && p in buttons ==> !Claims(buttons[p], key, bus)
  {
    if order != [] {
      ClaimIsKey(buttons, order[..|order| - 1], bus);
      assert order == order[..|order| - 1] + [order[|order| - 1]];
      forall key ensures key in ALL_KEYS { AllKeysListed(key); }
    }
  }

  lemma FiledKeys(buttons: Buttons, order: seq<nat>, index: BusIndex)
    requires Lists(order, buttons) && Files(buttons, order, index)
    ensures HitsAreKeys(buttons, index)
    ensures forall p :: p in buttons ==> KeysIndexed(buttons, index, p, ALL_KEYS)
  {
    hide FirstClaim;
    forall bus | bus in index ensures Sends(buttons, index[bus], bus) {
      assert Lookup(index, bus).Some?;
      ClaimIsKey(buttons, order, bus);
    }
    forall p, k | p in buttons && k in buttons[p].ops ensures buttons[p].ops[k] in index {
      ClaimIsKey(buttons, order, buttons[p].ops[k]);
      assert Claims(buttons[p], k, buttons[p].ops[k]);
      assert Lookup(index, buttons[p].ops[k]).Some?;
    }
  }

  /** `dict.setdefault` */
  function Filed(index: BusIndex, bus: nat, hit: (nat, Key)): BusIndex {
    if bus in index then index else index[bus := hit]
  }

  function FirstSending(ops: map<Key, nat>, keys: seq<Key>, frame: nat): (key: Option<Key>)
    ensures key.Some? ==> key.value in ops && ops[key.value] == frame
    ensures key.None? ==> forall k :: k in keys && k in ops ==> ops[k] != frame
  {
    if keys == [] then None
    else if keys[0] in ops && ops[keys[0]] == frame then Some(keys[0])
    else FirstSending(ops, keys[1..], frame)
  }

  function FindNibble(labels: seq<Key>, channels: nat, n: nat): (key: Option<Key>)
    ensures key.Some? ==> KeyNibble(channels, key.value) == Some(n)
  {
    if labels == [] then None
    else if KeyNibble(channels, labels[0]) == Some(n) then Some(labels[0])
    else FindNibble(labels[1..], channels, n)
  }

  /** `_key_raw_to_label` */
  function RawToLabel(channels: nat, index: int): Option<Key> {
    match IndexNibble(channels, index)
    case None => None
    case Some(n) => FindNibble(Labels(channels), channels, n)
  }

  /** Addresses no plate can own (`virtual_button_class`). */
  predicate VirtualButton(address: nat) {
    0x380000 <= address <= 0x38FFFF || 0x600000 <= address <= 0x6FFFFF || 0x3CF000 <= address <= 0x3CFFFF
  }

  function Before(address: nat): nat {
    if address == 0 then FRAMES - 1 else address - 1
  }

  function Stored(buttons: Buttons, plate: nat, key: Option<Key>): Option<(nat, Key)> {
    if key.Some? && IsKey(buttons, (plate, key.value)) then Some((plate, key.value)) else None
  }

  function Hit(buttons: Buttons, index: BusIndex, bus: Option<nat>): Option<(nat, Key)> {
    if bus.Some? && bus.value in index && IsKey(buttons, index[bus.value]) then Some(index[bus.value]) else None
  }

  function OrElse(a: Option<(nat, Key)>, b: Option<(nat, Key)>): Option<(nat, Key)> {
    if a.Some? then a else b
  }

  /** Path 1: the button's own entry, by frame, then by the table of its channel count. */
  function ByPlate(buttons: Buttons, address: nat, index: int): Option<(nat, Key)> {
    if address !in buttons then None
    else
      var p := buttons[address];
      var frame := RecordBusAddress(address, index);
      var sending := if frame.Some? then FirstSending(p.ops, ALL_KEYS, frame.value) else None;
      if sending.Some? then Some((address, sending.value))
      else Stored(buttons, address, if OwnLayoutType(p.deviceType) then None else RawToLabel(p.channels, index))
  }

  /** Path 1a: the upper row of an eight-key button, stored one address below. */
  function BySibling(buttons: Buttons, address: nat, index: int): Option<(nat, Key)> {
    if Before(address) in buttons && buttons[Before(address)].channels == 8
    then Stored(buttons, Before(address), RawToLabel(8, index % 4 + 4)) else None
  }

  /** Path 4: a store that keys its buttons by their converted address. */
  function ByConverted(buttons: Buttons, address: nat, index: int): Option<(nat, Key)>
    requires address < FRAMES
  {
    var converted := Convert(address).value;
    if converted == address then None
    else
      var below := Convert(Before(address)).value;
      OrElse(
        if converted in buttons then Stored(buttons, converted, RawToLabel(buttons[converted].channels, index)) else None,
        if below in buttons && buttons[below].channels == 8 then Stored(buttons, below, RawToLabel(8, index % 4 + 4)) else None)
  }

  /** `_resolve_operation_point`, its paths in order: 1, 1b, 1a, 2, 2b and 4. */
  function Resolve(buttons: Buttons, busToOp: BusIndex, address: nat, index: int): Option<(nat, Key)>
    requires address < FRAMES
  {
    var frame := RecordBusAddress(address, index);
    OrElse(ByPlate(buttons, address, index),
    OrElse(if VirtualButton(address) then Hit(buttons, busToOp, frame) else None,
    OrElse(BySibling(buttons, address, index),
    OrElse(Hit(buttons, busToOp, Some(address)),
    OrElse(if frame != Some(address) then Hit(buttons, busToOp, frame) else None,
           ByConverted(buttons, address, index))))))
  }

  /** The key a record resolves to sends the frame its module listens for. */
  predicate AgreesWithWire(buttons: Buttons, busToOp: BusIndex, address: nat, index: int)
    requires address < FRAMES
  {
    var r := Resolve(buttons, busToOp, address, index);
    r.Some? && IsKey(buttons, r.value) && Some(buttons[r.value.0].ops[r.value.1]) == RecordBusAddress(address, index)
  }

  lemma AllKeysListed(key: Key)
    ensures key in ALL_KEYS
  {
    match key {
      case Key1A => assert ALL_KEYS[0] == key;
      case Key1B => assert ALL_KEYS[1] == key;
      case Key1C => assert ALL_KEYS[2] == key;
      case Key1D => assert ALL_KEYS[3] == key;
      case Key2A => assert ALL_KEYS[4] == key;
      case Key2B => assert ALL_KEYS[5] == key;
      case Key2C => assert ALL_KEYS[6] == key;
      case Key2D => assert ALL_KEYS[7] == key;
    }
  }

  /** A record of a stored button whose frame one of its keys sends resolves to such a key,
      whatever else is stored. */
  lemma FrameOnPlateAgrees(buttons: Buttons, busToOp: BusIndex, address: nat, index: int, key: Key)
    requires address < FRAMES && IsKey(buttons, (address, key))
    requires RecordBusAddress(address, index) == Some(buttons[address].ops[key])
    ensures AgreesWithWire(buttons, busToOp, address, index)
    ensures Resolve(buttons, busToOp, address, index).value.0 == address
  {
    hide RecordBusAddress;
    AllKeysListed(key);
  }

  // ---- plates as the inventory lays them out ---------------------------------------------------------

  /** The first-digit addition of a key on a stored plate. */
  function PlateNibble(p: Plate, key: Key): Option<nat> {
    if key !in Labels(p.channels) then None
    else if p.deviceType == Some(0x10) then LayoutNibble(RightPair, key)
    else if p.deviceType == Some(0x28) then DetectorNibble(key)
    else if HasPerPlateLayout(p) then LayoutNibble(if p.keyLayout.Some? then p.keyLayout.value else Generic, key)
    else KeyNibble(p.channels, key)
  }

  ghost predicate LaidOut(address: nat, p: Plate) {
    && address < PLATES && Labels(p.channels) != []
    && (forall key :: key in p.ops <==> PlateNibble(p, key).Some?)
    && (forall key :: key in p.ops ==> p.ops[key] == AddNibble(Convert(address).value, PlateNibble(p, key).value))
  }

  ghost predicate AllLaidOut(buttons: Buttons) {
    forall a :: a in buttons ==> LaidOut(a, buttons[a])
  }

  /** Plates with 22-bit addresses, each reported with one channel count and one type; no logic inputs. */
  ghost predicate PlainPlates(devices: seq<Device>) {
    && (forall i :: 0 <= i < |devices| ==> devices[i].address < PLATES && !devices[i].logicInput)
    && (forall i, j :: 0 <= i < |devices| && 0 <= j < |devices| && devices[i].address == devices[j].address ==>
          devices[i].channels == devices[j].channels && devices[i].deviceType == devices[j].deviceType)
  }

  /** The stored entries are those of the devices. */
  ghost predicate FromDevices(buttons: Buttons, devices: seq<Device>) {
    forall a :: a in buttons ==> exists i :: 0 <= i < |devices| && devices[i].address == a && IsEntryOf(buttons[a], devices[i])
  }

  /** Of the entries, only those of types with a layout per plate ever have one settled. */
  predicate IsEntryOf(p: Plate, d: Device) {
    && p.channels == d.channels && p.deviceType == (if KeepsType(d) then Some(d.deviceType) else None)
    && (p.keyLayout.Some? ==> HasPerPlateLayout(p))
  }

  lemma NibblesOfEntry(p: Plate, d: Device, key: Key)
    requires IsEntryOf(p, d) && !d.logicInput
    ensures PlateNibble(p, key) == if key in Labels(d.channels) then DeviceNibble(d, p.keyLayout, key) else None
  {
    hide Labels, KeyNibble;
  }

  lemma MergedLaidOut(buttons: Buttons, d: Device)
    requires d.address < PLATES && !d.logicInput && Labels(d.channels) != []
    requires d.address in buttons ==> LaidOut(d.address, buttons[d.address]) && IsEntryOf(buttons[d.address], d)
    ensures IsEntryOf(MergeDevice(buttons, d)[d.address], d) && LaidOut(d.address, MergeDevice(buttons, d)[d.address])
  {
    hide Labels, Convert, AddNibble, DeviceNibble, PlateNibble;
    var p := MergeDevice(buttons, d)[d.address];
    ConvertDefined(d.address);
    forall key ensures key in p.ops <==> PlateNibble(p, key).Some?
      ensures key in p.ops ==> p.ops[key] == AddNibble(Convert(d.address).value, PlateNibble(p, key).value)
    {
      NibblesOfEntry(p, d, key);
      if d.address in buttons {
        NibblesOfEntry(buttons[d.address], d, key);
      }
    }
  }

  /** An inventory merged into a store keeps every plate laid out by its own layout, and lays
      out the new ones. */
  lemma {:induction false} InventoryLaysOut(buttons: Buttons, before: seq<Device>, devices: seq<Device>)
    requires AllLaidOut(buttons) && FromDevices(buttons, before) && PlainPlates(before + devices) && AllAddressed(devices)
    ensures AllLaidOut(MergeDevices(buttons, devices)) && FromDevices(MergeDevices(buttons, devices), before + devices)
    decreases |devices|
  {
    hide AllLaidOut, FromDevices, MergeDevice, PlainPlates;
    if devices == [] {
      assert before + devices == before;
    } else {
      var some, d := devices[..|devices| - 1], devices[|devices| - 1];
      assert before + devices == (before + some) + [d];
      PlainPrefix(before + some, [d]);
      InventoryLaysOut(buttons, before, some);
      DeviceLaysOut(MergeDevices(buttons, some), before + some, d);
    }
  }

  lemma PlainPrefix(some: seq<Device>, more: seq<Device>)
    requires PlainPlates(some + more)
    ensures PlainPlates(some)
  {
    assert forall i :: 0 <= i < |some| ==> (some + more)[i] == some[i];
  }

  /** The device an entry came from agrees with the next one of its address. */
  lemma EntryAgain(buttons: Buttons, before: seq<Device>, d: Device)
    requires FromDevices(buttons, before) && PlainPlates(before + [d]) && d.address in buttons
    ensures IsEntryOf(buttons[d.address], d)
  {
    hide IsEntryOf;
    var i :| 0 <= i < |before| && before[i].address == d.address && IsEntryOf(buttons[d.address], before[i]);
    assert (before + [d])[i] == before[i] && (before + [d])[|before|] == d;
    SameEntry(buttons[d.address], before[i], d);
  }

  lemma DeviceLaysOut(buttons: Buttons, before: seq<Device>, d: Device)
    requires AllLaidOut(buttons) && FromDevices(buttons, before) && PlainPlates(before + [d]) && d.address < FRAMES
    ensures AllLaidOut(MergeDevice(buttons, d)) && FromDevices(MergeDevice(buttons, d), before + [d])
  {
    hide LaidOut, IsEntryOf, Labels, MergeDevice, PlainPlates;
    OthersStay(buttons, d);
    if Labels(d.channels) != [] {
      if d.address in buttons {
        EntryAgain(buttons, before, d);
      }
      PlainLast(before, d);
      MergedLaidOut(buttons, d);
    }
    var after, all := MergeDevice(buttons, d), before + [d];
    forall a | a in after ensures exists i :: 0 <= i < |all| && all[i].address == a && IsEntryOf(after[a], all[i]) {
      if a == d.address && Labels(d.channels) != [] {
        assert all[|before|] == d;
      } else {
        var i :| 0 <= i < |before| && before[i].address == a && IsEntryOf(buttons[a], before[i]);
        assert all[i] == before[i];
      }
    }
  }

  lemma PlainLast(before: seq<Device>, d: Device)
    requires PlainPlates(before + [d])
    ensures d.address < PLATES && !d.logicInput
  {
    assert (before + [d])[|before|] == d;
  }

  lemma SameEntry(p: Plate, d: Device, e: Device)
    requires IsEntryOf(p, d) && d.channels == e.channels && d.deviceType == e.deviceType && d.logicInput == e.logicInput
    ensures IsEntryOf(p, e)
  {
  }

  lemma OthersStay(buttons: Buttons, d: Device)
    requires d.address < FRAMES
    ensures Labels(d.channels) == [] ==> MergeDevice(buttons, d) == buttons
    ensures Labels(d.channels) != [] ==> MergeDevice(buttons, d).Keys == buttons.Keys + {d.address}
    ensures forall a :: a in buttons && a != d.address ==> a in MergeDevice(buttons, d) && MergeDevice(buttons, d)[a] == buttons[a]
  {
    hide Labels, NewOps;
  }

  // ---- resolution agrees with the wire ---------------------------------------------------------------

  /** The indices of a plate's records for which some key of its layout sends the frame. */
  predicate Indexed(p: Plate, index: int) {
    if p.deviceType == Some(0x28) then p.channels == 4 && (index == 1 || index == 3 || index == 5 || index == 7)
    else if p.deviceType == Some(0x10) then p.channels >= 2 && InFamily(RightPair, index)
    else if HasPerPlateLayout(p) then InFamily(if p.keyLayout.Some? then p.keyLayout.value else Generic, index)
    else if p.channels == 1 then index == 1
    else if p.channels == 2 then InFamily(Generic, index)
    else 0 <= index < p.channels
  }

  function KeyOfIndex(channels: nat, index: int): Key
    requires 0 <= index < 8
  {
    if index == 0 then (if channels == 8 then Key2C else Key1C)
    else if index == 1 then (if channels == 8 then Key2A else Key1A)
    else if index == 2 then (if channels == 8 then Key2D else Key1D)
    else if index == 3 then (if channels == 8 then Key2B else Key1B)
    else if index == 4 then Key1C else if index == 5 then Key1A else if index == 6 then Key1D else Key1B
  }

  lemma IndexedKey(p: Plate, index: int) returns (key: Key)
    requires Indexed(p, index) && Labels(p.channels) != []
    ensures 0 <= index < 8 && PlateNibble(p, key).Some?
    ensures PlateNibble(p, key) == IndexNibble(if index >= 4 then 8 else 4, index)
  {
    if p.deviceType == Some(0x28) {
      key := if index == 1 then Key1A else if index == 3 then Key1B else if index == 7 then Key1C else Key1D;
      LabelsOf(p.channels, key);
    } else if p.deviceType == Some(0x10) || HasPerPlateLayout(p) {
      key := if index <= 1 then Key1A else Key1B;
      LabelsOf(p.channels, key);
    } else {
      key := KeyOfIndex(p.channels, index);
      LabelsOf(p.channels, key);
    }
  }

  lemma LabelsOf(channels: nat, key: Key)
    requires Labels(channels) != []
    ensures key == Key1A ==> key in Labels(channels)
    ensures key == Key1B && channels >= 2 ==> key in Labels(channels)
    ensures (key == Key1C || key == Key1D) && channels >= 4 ==> key in Labels(channels)
    ensures channels == 8 ==> key in Labels(channels)
  {
    assert Labels(channels)[0] == Key1A;
    if channels >= 2 { assert Labels(channels)[1] == Key1B; }
    if channels >= 4 { assert Labels(channels)[2] == Key1C && Labels(channels)[3] == Key1D; }
    if channels == 8 {
      assert Labels(channels)[4] == Key2A && Labels(channels)[5] == Key2B && Labels(channels)[6] == Key2C && Labels(channels)[7] == Key2D;
    }
  }

  /** Every record filed by a stored plate's address with an index its layout uses resolves to the key whose
      frame the module listens for: four-key plates with 0 to 3, eight-key ones with 0 to 7,
      two-button plates with the family of their layout. */
  lemma StoredPlateAgrees(buttons: Buttons, busToOp: BusIndex, address: nat, index: int)
    requires address in buttons && LaidOut(address, buttons[address]) && Indexed(buttons[address], index)
    ensures AgreesWithWire(buttons, busToOp, address, index)
    ensures Resolve(buttons, busToOp, address, index).value.0 == address
  {
    hide Convert, AddNibble, PlateNibble, Labels, Resolve, AgreesWithWire;
    var key := IndexedKey(buttons[address], index);
    ConvertDefined(address);
    FrameOnPlateAgrees(buttons, busToOp, address, index, key);
  }

  /** A record of the sibling address of an eight-key button, where no plate is stored, resolves
      to the upper row; it is the key the module listens for exactly with an index below four. */
  lemma SiblingAgrees(buttons: Buttons, busToOp: BusIndex, base: nat, index: int)
    requires base in buttons && LaidOut(base, buttons[base]) && buttons[base].channels == 8
    requires !OwnLayoutType(buttons[base].deviceType)
    requires base % 2 == 0 && base + 1 !in buttons && !VirtualButton(base + 1) && 0 <= index < 8
    ensures Resolve(buttons, busToOp, base + 1, index).Some?
    ensures Resolve(buttons, busToOp, base + 1, index).value.0 == base
    ensures AgreesWithWire(buttons, busToOp, base + 1, index) <==> index < 4
  {
    hide Convert, PlateNibble, Labels, RecordBusAddress, AddNibble, Hit, ByConverted;
    var key := KeyOfIndex(8, index % 4 + 4);
    UpperRow(index % 4 + 4);
    LabelsOf(8, key);
    UpperNibble(buttons[base], index % 4 + 4);
    assert IsKey(buttons, (base, key));
    assert Resolve(buttons, busToOp, base + 1, index) == Some((base, key));
    SiblingFrame(base, index % 4 + 4);
    FrameOfIndex(base, index % 4 + 4);
    if index >= 4 {
      SiblingFrameDiffers(base, index);
    }
  }

  lemma UpperRow(index: int)
    requires 4 <= index < 8
    ensures RawToLabel(8, index) == Some(KeyOfIndex(8, index))
  {
    var l := Labels(8);
    assert l[1..][0] == Key1B && l[2..][0] == Key1C && l[3..][0] == Key1D;
    assert l[1..][1..] == l[2..] && l[2..][1..] == l[3..];
  }

  lemma UpperNibble(p: Plate, index: int)
    requires 4 <= index < 8 && p.channels == 8 && !OwnLayoutType(p.deviceType)
    ensures PlateNibble(p, KeyOfIndex(8, index)).Some? && PlateNibble(p, KeyOfIndex(8, index)) == IndexNibble(8, index)
  {
    LabelsOf(8, KeyOfIndex(8, index));
  }

  lemma FrameOfIndex(address: nat, index: int)
    requires address < FRAMES && 4 <= index < 8
    ensures RecordBusAddress(address, index) == Some(AddNibble(Convert(address).value, IndexNibble(8, index).value))
  {
    hide Convert, AddNibble;
    ConvertDefined(address);
  }

  /** On the sibling address an index from four on would name a frame no key sends. */
  lemma SiblingFrameDiffers(base: nat, index: int)
    requires base < PLATES && base % 2 == 0 && 4 <= index < 8
    ensures RecordBusAddress(base + 1, index) != RecordBusAddress(base, index)
  {
    hide Rev, Convert, IndexNibble, AddNibble;
    ConvertReverses(base);
    EvenPlateFrame(base);
    ConvertReverses(base + 1);
    SiblingReversed(base);
    SiblingNibble(index);
    TwoApart(Rev(base, 22), IndexNibble(8, index).value);
  }

  lemma TwoApart(frame: nat, n: nat)
    ensures AddNibble(frame + 0x200000, n) != AddNibble(frame, n)
  {
    var q := frame / 0x100000;
    assert (frame + 0x200000) / 0x100000 == q + 2;
    assert (q + 2 + n) % 16 != (q + n) % 16;
  }

  /** The address above an eight-key button, where no plate is stored and none is virtual. */
  predicate SiblingOf(buttons: Buttons, address: nat) {
    && address % 2 == 1 && address - 1 in buttons && address !in buttons && !VirtualButton(address)
    && buttons[address - 1].channels == 8 && !OwnLayoutType(buttons[address - 1].deviceType)
  }

  /** A record whose plate is not stored is found by the frame alone, when only its frame is; it
      is right unless the frame is filed as the alias of another. */
  lemma FrameHitAgrees(buttons: Buttons, busToOp: BusIndex, address: nat, index: int, frame: nat)
    requires HitsAreKeys(buttons, busToOp) && address < FRAMES && address !in buttons && address !in busToOp
    requires !(Before(address) in buttons && buttons[Before(address)].channels == 8)
    requires RecordBusAddress(address, index) == Some(frame) && frame in busToOp
    ensures Resolve(buttons, busToOp, address, index) == Some(busToOp[frame])
    ensures AgreesWithWire(buttons, busToOp, address, index) <==> buttons[busToOp[frame].0].ops[busToOp[frame].1] == frame
  {
    hide RecordBusAddress, ByConverted;
    assert Sends(buttons, busToOp[frame], frame);
  }

  // ---- two-button plates -----------------------------------------------------------------------------

  lemma SettledLaidOut(address: nat, p: Plate, layout: Layout)
    requires LaidOut(address, p) && HasPerPlateLayout(p)
    ensures LaidOut(address, WithLayout(address, p, layout))
  {
    hide Convert, AddNibble;
    LabelsOf(2, Key1A);
    LabelsOf(2, Key1B);
    var q := WithLayout(address, p, layout);
    forall key ensures key in q.ops <==> PlateNibble(q, key).Some? {
      if key != Key1A && key != Key1B {
        assert key !in Labels(2);
      }
    }
  }

  /** Once the records of a two-button plate have settled its layout, because they use one
      family of key indices, each of them resolves to the key its module listens for. */
  lemma SettledPlateAgrees(before: Buttons, after: Buttons, busToOp: BusIndex, records: seq<KeyRecord>, address: nat, index: int)
    requires address in before && LaidOut(address, before[address]) && HasPerPlateLayout(before[address])
    requires address in after && after[address] == Settled(address, before[address], Indices(records, address))
    requires index in Indices(records, address) && LayoutShown(Indices(records, address)).Some?
    ensures LaidOut(address, after[address]) && AgreesWithWire(after, busToOp, address, index)
  {
    hide LaidOut, AgreesWithWire, Resolve, Indices, Convert;
    var layout := LayoutShown(Indices(records, address)).value;
    SettledLaidOut(address, before[address], layout);
    assert InFamily(layout, index);
    StoredPlateAgrees(after, busToOp, address, index);
  }

  /** A two-button plate left in the right-pair layout answers a record of the other family, filed
      by its address, with the wrong key: index 1 or 3 resolves by the table of its channel count, to a key that sends
      another frame. The record's key is right exactly when its index is of the plate's layout. */
  lemma TwoButtonAgreement(buttons: Buttons, busToOp: BusIndex, address: nat, index: int)
    requires address in buttons && LaidOut(address, buttons[address]) && HasPerPlateLayout(buttons[address])
    requires (index == 1 || index == 3)
    ensures Resolve(buttons, busToOp, address, index).Some?
    ensures AgreesWithWire(buttons, busToOp, address, index) <==> buttons[address].keyLayout != Some(RightPair)
  {
    hide Convert, AddNibble, Labels, AgreesWithWire, Resolve;
    var p := buttons[address];
    ConvertDefined(address);
    if p.keyLayout != Some(RightPair) {
      StoredPlateAgrees(buttons, busToOp, address, index);
      AgreeingResolves(buttons, busToOp, address, index);
    } else {
      RightPairMisses(buttons, busToOp, address, index);
    }
  }

  /** After the records of a two-button plate have been through the settling, one with index 1
      or 3 that is filed by its address, or such a copy of it, resolves to the key its module listens for exactly when the plate did not start in the
      right-pair layout or the records use no index but 1 and 3. */
  lemma TwoButtonRecordAgreement(before: Buttons, after: Buttons, busToOp: BusIndex, records: seq<KeyRecord>, address: nat, index: int)
    requires address in before && LaidOut(address, before[address]) && HasPerPlateLayout(before[address])
    requires address in after && after[address] == Settled(address, before[address], Indices(records, address))
    requires index in Indices(records, address) && (index == 1 || index == 3)
    ensures Resolve(after, busToOp, address, index).Some?
    ensures AgreesWithWire(after, busToOp, address, index) <==>
      (before[address].keyLayout == Some(RightPair) ==> UsesOnly(Indices(records, address), Generic))
  {
    hide LaidOut, AgreesWithWire, Resolve, Indices, Convert;
    var indices := Indices(records, address);
    assert !UsesOnly(indices, RightPair);
    if UsesOnly(indices, Generic) {
      SettledLaidOut(address, before[address], Generic);
    }
    TwoButtonAgreement(after, busToOp, address, index);
  }

  // ---- every history of a store ------------------------------------------------------------------

  datatype StoreEvent = Inventory(devices: seq<Device>) | Settling(records: seq<KeyRecord>)

  /** What the two merges do to a store. */
  ghost predicate Happens(before: Buttons, e: StoreEvent, after: Buttons) {
    match e
    case Inventory(devices) => AllAddressed(devices) && after == MergeDevices(before, devices)
    case Settling(records) =>
      Addressed(before) && after.Keys == before.Keys && forall p :: p in before ==> after[p] == Settled(p, before[p], Indices(records, p))
  }

  ghost predicate IsHistory(stores: seq<Buttons>, es: seq<StoreEvent>) {
    && |stores| == |es| + 1 && stores[0] == map[]
    && forall i :: 0 <= i < |es| ==> Happens(stores[i], es[i], stores[i + 1])
  }

  /** The devices of the first `n` events. */
  function Reported(es: seq<StoreEvent>, n: nat): seq<Device>
    requires n <= |es|
  {
    if n == 0 then []
    else Reported(es, n - 1) + if es[n - 1].Inventory? then es[n - 1].devices else []
  }

  lemma SettlingLaysOut(before: Buttons, after: Buttons, devices: seq<Device>, records: seq<KeyRecord>)
    requires AllLaidOut(before) && FromDevices(before, devices) && Happens(before, Settling(records), after)
    ensures AllLaidOut(after) && FromDevices(after, devices)
  {
    hide LaidOut, IsEntryOf, Indices, Settled;
    forall p | p in after
      ensures LaidOut(p, after[p]) && exists i :: 0 <= i < |devices| && devices[i].address == p && IsEntryOf(after[p], devices[i])
    {
      var i :| 0 <= i < |devices| && devices[i].address == p && IsEntryOf(before[p], devices[i]);
      SettledEntry(p, before[p], devices[i], Indices(records, p));
    }
  }

  lemma SettledEntry(address: nat, p: Plate, d: Device, indices: set<int>)
    requires address < FRAMES && LaidOut(address, p) && IsEntryOf(p, d)
    ensures LaidOut(address, Settled(address, p, indices)) && IsEntryOf(Settled(address, p, indices), d)
  {
    hide LaidOut, Convert, AddNibble, UsesOnly;
    if HasPerPlateLayout(p) && LayoutShown(indices).Some? {
      SettledLaidOut(address, p, LayoutShown(indices).value);
    }
  }

  /** However inventories are merged and layouts settled, each plate's keys stay where its own
      layout has them. */
  lemma {:induction false} HistoryLaysOut(stores: seq<Buttons>, es: seq<StoreEvent>, n: nat)
    requires IsHistory(stores, es) && n <= |es| && PlainPlates(Reported(es, n))
    ensures AllLaidOut(stores[n]) && FromDevices(stores[n], Reported(es, n))
  {
    if n == 0 {
      assert stores[0] == map[];
    } else {
      hide AllLaidOut, FromDevices, PlainPlates, MergeDevices, Settled;
      var devices, e := Reported(es, n - 1), es[n - 1];
      PlainPrefix(devices, if e.Inventory? then e.devices else []);
      HistoryLaysOut(stores, es, n - 1);
      assert Happens(stores[n - 1], e, stores[n]);
      if e.Inventory? {
        InventoryLaysOut(stores[n - 1], devices, e.devices);
      } else {
        assert devices + [] == devices;
        SettlingLaysOut(stores[n - 1], stores[n], devices, e.records);
      }
    }
  }

  /** In every state of every history, each record filed by its plate's address with an index of
      the plate's layout, and each record of an eight-key button's sibling address with an index
      below four, resolves to the key its module listens for. */
  lemma HistoryAgrees(stores: seq<Buttons>, es: seq<StoreEvent>, n: nat, busToOp: BusIndex, address: nat, index: int)
    requires IsHistory(stores, es) && n <= |es| && PlainPlates(Reported(es, n)) && address < FRAMES
    ensures address in stores[n] && Indexed(stores[n][address], index) ==> AgreesWithWire(stores[n], busToOp, address, index)
    ensures SiblingOf(stores[n], address) && 0 <= index < 4 ==> AgreesWithWire(stores[n], busToOp, address, index)
  {
    hide LaidOut, AgreesWithWire, Resolve, Happens, PlainPlates, FromDevices, Indexed;
    HistoryLaysOut(stores, es, n);
    if address in stores[n] && Indexed(stores[n][address], index) {
      StoredPlateAgrees(stores[n], busToOp, address, index);
    }
    if SiblingOf(stores[n], address) && 0 <= index < 4 {
      SiblingAgrees(stores[n], busToOp, address - 1, index);
    }
  }

  const SWITCHED: seq<KeyRecord> := [KeyRecord(0, 0, false)]
  const MIXED: seq<KeyRecord> := [KeyRecord(0, 0, false), KeyRecord(0, 1, false)]

  /** An inventory, then a record of index 0 for the two-button plate 0, then records of index 0
      and 1: the plate is settled on the right-pair layout and stays there, as do all others. */
  lemma MixedHistory(devices: seq<Device>) returns (stores: seq<Buttons>, es: seq<StoreEvent>)
    requires AllAddressed(devices) && PlainPlates(devices)
    requires var laid := MergeDevices(map[], devices); Addressed(laid) && 0 in laid && HasPerPlateLayout(laid[0])
    ensures IsHistory(stores, es) && es == [Inventory(devices), Settling(SWITCHED), Settling(MIXED)] && Reported(es, 3) == devices
    ensures stores[3].Keys == stores[1].Keys && stores[1] == MergeDevices(map[], devices)
    ensures forall p :: p in stores[1] && p != 0 ==> stores[3][p] == stores[1][p]
    ensures HasPerPlateLayout(stores[2][0]) && stores[2][0].keyLayout == Some(RightPair) && stores[3] == stores[2]
  {
    hide Convert, MergeDevices, Indices, WithLayout, UsesOnly, LayoutShown;
    es := [Inventory(devices), Settling(SWITCHED), Settling(MIXED)];
    var laid := MergeDevices(map[], devices);
    IndicesShown();
    var switched := laid[0 := Settled(0, laid[0], Indices(SWITCHED, 0))];
    RightPairSettled(0, laid[0]);
    stores := [map[], laid, switched, switched];
    assert Reported(es, 1) == devices;
    assert Reported(es, 2) == devices + [] == devices;
    assert Reported(es, 3) == devices + [] == devices;
  }

  /** A two-button plate settled on the right-pair layout by a record of index 0, whose records
      then have indices 0 and 1: nothing moves it, and a copy of the record of index 1, filed by
      the plate's address, resolves to a key that sends another frame. */
  lemma MixedIndicesMiss(busToOp: BusIndex) returns (stores: seq<Buttons>, es: seq<StoreEvent>)
    ensures IsHistory(stores, es) && es == [Inventory([Device(0, 2, 0x04, false)]), Settling(SWITCHED), Settling(MIXED)]
    ensures PlainPlates(Reported(es, 3)) && 0 in stores[3] && 1 in Indices(MIXED, 0)
    ensures Resolve(stores[3], busToOp, 0, 1).Some? && !AgreesWithWire(stores[3], busToOp, 0, 1)
  {
    hide AgreesWithWire, Resolve, LaidOut, Happens, MergeDevices, Indices, UsesOnly, LayoutShown, Labels, Settled;
    var d := Device(0, 2, 0x04, false);
    TwoLabels();
    OneDevice(d);
    IndicesShown();
    stores, es := MixedHistory([d]);
    HistoryLaysOut(stores, es, 2);
    UnmovedByBoth(0, stores[2][0]);
    TwoButtonRecordAgreement(stores[2], stores[3], busToOp, MIXED, 0, 1);
  }

  lemma UnmovedByBoth(address: nat, p: Plate)
    requires address < FRAMES
    ensures Settled(address, p, {0, 1}) == p
  {
    hide UsesOnly, LayoutShown;
    IndicesShown();
  }

  lemma TwoLabels()
    ensures Labels(2) != []
  {
  }

  lemma RightPairSettled(address: nat, p: Plate)
    requires address < FRAMES && HasPerPlateLayout(p)
    ensures Settled(address, p, {0}).keyLayout == Some(RightPair) && HasPerPlateLayout(Settled(address, p, {0}))
  {
    hide Convert, AddNibble, UsesOnly, LayoutShown;
    IndicesShown();
  }

  lemma OneDevice(d: Device)
    requires d.address < FRAMES && Labels(d.channels) != []
    ensures var laid := MergeDevices(map[], [d]);
      laid.Keys == {d.address} && laid[d.address].channels == d.channels && laid[d.address].keyLayout == None
      && laid[d.address].deviceType == if KeepsType(d) then Some(d.deviceType) else None
  {
    hide Labels, NewOps, Convert;
    assert [d][..0] == [] && MergeDevices(map[], []) == map[];
  }

  lemma IndicesShown()
    ensures Indices(SWITCHED, 0) == {0} && Indices(MIXED, 0) == {0, 1}
    ensures forall p :: p != 0 ==> Indices(SWITCHED, p) == Indices(MIXED, p) == {}
    ensures LayoutShown({0}) == Some(RightPair) && !UsesOnly({0, 1}, Generic) && LayoutShown({0, 1}) == None
  {
    assert SWITCHED[0].index == 0 && MIXED[0].index == 0 && MIXED[1].index == 1;
  }

  lemma AgreeingResolves(buttons: Buttons, busToOp: BusIndex, address: nat, index: int)
    requires address < FRAMES && AgreesWithWire(buttons, busToOp, address, index)
    ensures Resolve(buttons, busToOp, address, index).Some?
  {
    hide Resolve;
  }

  lemma RightPairMisses(buttons: Buttons, busToOp: BusIndex, address: nat, index: int)
    requires address in buttons && LaidOut(address, buttons[address]) && HasPerPlateLayout(buttons[address])
    requires (index == 1 || index == 3)
    requires buttons[address].keyLayout == Some(RightPair)
    ensures Resolve(buttons, busToOp, address, index) == Some((address, if index == 1 then Key1A else Key1B))
    ensures !AgreesWithWire(buttons, busToOp, address, index)
  {
    hide Convert, AddNibble;
    ConvertDefined(address);
    var p, base := buttons[address], Convert(address).value;
    LabelsOf(2, Key1A);
    LabelsOf(2, Key1B);
    assert Labels(2)[1..][0] == Key1B;
    NibblesApart(base, 0, 8);
    NibblesApart(base, 0, 0xC);
    NibblesApart(base, 4, 8);
    NibblesApart(base, 4, 0xC);
    forall key | key in p.ops ensures Some(p.ops[key]) != RecordBusAddress(address, index) {
      assert key in Labels(2);
    }
    assert RawToLabel(2, index) == Some(if index == 1 then Key1A else Key1B);
  }

  lemma NibblesApart(base: nat, a: nat, b: nat)
    requires a < 16 && b < 16 && a != b
    ensures AddNibble(base, a) != AddNibble(base, b)
  {
    var x, y := AddNibble(base, a), AddNibble(base, b);
    assert x / 0x100000 == (base / 0x100000 + a) % 16 && y / 0x100000 == (base / 0x100000 + b) % 16;
  }

  // ---- what the layouts and the settling say ----------------------------------------------------------

  /** A key of a two-button plate sends the frame of its records' index: 1 and 3 in the generic layout, 0
      and 2 in the right pair, 1A before 1B. */
  lemma LayoutKeys(layout: Layout, key: Key)
    ensures LayoutNibble(layout, key) ==
      match key
      case Key1A => IndexNibble(2, if layout == Generic then 1 else 0)
      case Key1B => IndexNibble(2, if layout == Generic then 3 else 2)
      case _ => None
    ensures forall index :: InFamily(layout, index) <==> if layout == Generic then index in {1, 3} else index in {0, 2}
  {
  }

  /** The motion detector sends 1 and 3 for its output and 7 and 5 for light and dark. */
  lemma DetectorKeys(key: Key)
    ensures DetectorNibble(key) ==
      match key
      case Key1A => IndexNibble(8, 1)
      case Key1B => IndexNibble(8, 3)
      case Key1C => IndexNibble(8, 7)
      case Key1D => IndexNibble(8, 5)
      case _ => None
  {
  }

  /** A logic input of two keys sends 0 and 2, any other the codes of its keys. */
  lemma LogicInputKeys(buttons: Buttons, d: Device, key: Key)
    requires d.address < PLATES && d.logicInput && Labels(d.channels) != [] && d.address !in buttons
    ensures var p := MergeDevice(buttons, d)[d.address];
      && p.channels == d.channels && p.deviceType == None && p.keyLayout == None
      && (key in p.ops <==> KeyNibble(d.channels, key).Some?)
      && (key in p.ops ==> Some(p.ops[key]) == if d.channels == 2 then RecordBusAddress(d.address, if key == Key1A then 0 else 2)
                                               else KeyFrame(d.address, d.channels, key))
  {
    hide Convert, AddNibble;
    ConvertDefined(d.address);
    LabelsAreKeys(d.channels, key);
  }

  /** The store's records of a plate, controllers' copies aside, are all of a given kind of index. */
  predicate AllOf(records: seq<KeyRecord>, plate: nat, x: int, y: int) {
    forall i :: 0 <= i < |records| && records[i].plate == plate && !records[i].fromRegistry ==> records[i].index == x || records[i].index == y
  }

  predicate AnyOf(records: seq<KeyRecord>, plate: nat) {
    exists i :: 0 <= i < |records| && records[i].plate == plate && !records[i].fromRegistry
  }

  lemma IndicesAllOf(records: seq<KeyRecord>, plate: nat, layout: Layout)
    ensures UsesOnly(Indices(records, plate), layout) <==> if layout == Generic then AllOf(records, plate, 1, 3) else AllOf(records, plate, 0, 2)
    ensures Indices(records, plate) != {} <==> AnyOf(records, plate)
  {
    forall i | 0 <= i < |records| && records[i].plate == plate && !records[i].fromRegistry ensures records[i].index in Indices(records, plate) {
    }
  }

  /** What the settling does to a plate: a two-button one of the types without a layout of their own
      takes the generic layout if the records of modules' own tables use only indices 1 and 3, the
      right pair if only 0 and 2; any other plate, or any other records, leave it as it is. */
  lemma SettledExactly(address: nat, p: Plate, records: seq<KeyRecord>)
    requires address < FRAMES
    ensures var q := Settled(address, p, Indices(records, address));
      var moves := p.channels == 2 && p.deviceType in {Some(0x04), Some(0x05), Some(0x3F)} && AnyOf(records, address);
      if moves && AllOf(records, address, 1, 3) then
        q == p.(keyLayout := None, ops := p.ops[Key1A := RecordBusAddress(address, 1).value][Key1B := RecordBusAddress(address, 3).value])
      else if moves && AllOf(records, address, 0, 2) then
        q == p.(keyLayout := Some(RightPair), ops := p.ops[Key1A := RecordBusAddress(address, 0).value][Key1B := RecordBusAddress(address, 2).value])
      else q == p
  {
    hide Convert, AddNibble, Indices, UsesOnly, AllOf, AnyOf;
    ConvertDefined(address);
    IndicesAllOf(records, address, Generic);
    IndicesAllOf(records, address, RightPair);
    if AnyOf(records, address) {
      NotBoth(records, address);
    }
  }

  lemma NotBoth(records: seq<KeyRecord>, plate: nat)
    requires AnyOf(records, plate)
    ensures !(AllOf(records, plate, 1, 3) && AllOf(records, plate, 0, 2))
  {
  }
}
