/** The plates of the button store and the frame each of their keys sends: built from the
    inventory, and settled by what link records show (`discovery/fileio.py`). */
module ButtonPlates {
  import opened Wrappers
  import opened Addresses

  /** The two layouts a two-button plate may be in: first digits 8 / C, or 0 / 4. */
  datatype Layout = Generic | RightPair

  /** A stored plate; each op point has the frame of its key. */
  datatype Plate = Plate(channels: nat, deviceType: Option<nat>, keyLayout: Option<Layout>, ops: map<Key, nat>)

  datatype Device = Device(address: nat, channels: nat, deviceType: nat, logicInput: bool)

  type Buttons = map<nat, Plate>

  predicate PerPlateType(t: nat) {
    t == 0x04 || t == 0x05 || t == 0x3F
  }

  /** `TWO_BUTTON_LAYOUTS` */
  function LayoutNibble(layout: Layout, key: Key): Option<nat> {
    match (layout, key)
    case (Generic, Key1A) => Some(8)
    case (Generic, Key1B) => Some(0xC)
    case (RightPair, Key1A) => Some(0)
    case (RightPair, Key1B) => Some(4)
    case _ => None
  }

  /** The key indices a link record carries in each layout. */
  predicate InFamily(layout: Layout, index: int) {
    if layout == Generic then index == 1 || index == 3 else index == 0 || index == 2
  }

  /** The motion detector: its output pair at 8 / C, its light pair at E / A. */
  function DetectorNibble(key: Key): Option<nat> {
    match key
    case Key1A => Some(8) case Key1B => Some(0xC) case Key1C => Some(0xE) case Key1D => Some(0xA)
    case _ => None
  }

  /** Types whose keys follow a layout of their own (`DEVICE_TYPE_KEY_MAPPING`). */
  predicate OwnLayoutType(t: Option<nat>) {
    t == Some(0x10) || t == Some(0x28)
  }

  /** What the inventory adds to the first digit of the converted address for a key. */
  function DeviceNibble(d: Device, layout: Option<Layout>, key: Key): Option<nat> {
    if d.logicInput then (if d.channels == 2 then LayoutNibble(RightPair, key) else KeyNibble(d.channels, key))
    else if d.deviceType == 0x10 then LayoutNibble(RightPair, key)
    else if d.deviceType == 0x28 then DetectorNibble(key)
    else if PerPlateType(d.deviceType) && d.channels == 2 then LayoutNibble(if layout.Some? then layout.value else Generic, key)
    else KeyNibble(d.channels, key)
  }

  function StoredLayout(buttons: Buttons, address: nat): Option<Layout> {
    if address in buttons then buttons[address].keyLayout else None
  }

  predicate KeepsType(d: Device) {
    !d.logicInput && (d.deviceType == 0x10 || d.deviceType == 0x28 || (PerPlateType(d.deviceType) && d.channels == 2))
  }

  function NewOps(d: Device, layout: Option<Layout>, base: nat, labels: seq<Key>): map<Key, nat> {
    map key | key in labels && DeviceNibble(d, layout, key).Some? :: AddNibble(base, DeviceNibble(d, layout, key).value)
  }

  /** One button of the inventory, stored or refreshed. */
  function MergeDevice(buttons: Buttons, d: Device): Buttons
    requires d.address < FRAMES
  {
    if Labels(d.channels) == [] then buttons
    else
      var stored := if d.address in buttons then buttons[d.address] else Plate(d.channels, None, None, map[]);
      var layout := StoredLayout(buttons, d.address);
      buttons[d.address := Plate(
        d.channels, if KeepsType(d) then Some(d.deviceType) else stored.deviceType, stored.keyLayout,
        stored.ops + NewOps(d, layout, Convert(d.address).value, Labels(d.channels)))]
  }

  predicate AllAddressed(devices: seq<Device>) {
    forall i :: 0 <= i < |devices| ==> devices[i].address < FRAMES
  }

  function MergeDevices(buttons: Buttons, devices: seq<Device>): Buttons
    requires AllAddressed(devices)
  {
    if devices == [] then buttons else MergeDevice(MergeDevices(buttons, devices[..|devices| - 1]), devices[|devices| - 1])
  }

  // ---- link records settle the layout --------------------------------------------------------------

  /** A decoded record as far as keys go: the plate, the key index, and whether it is only a
      controller's copy. */
  datatype KeyRecord = KeyRecord(plate: nat, index: int, fromRegistry: bool)

  /** `has_per_plate_key_layout`, by the stored type byte. */
  predicate HasPerPlateLayout(p: Plate) {
    p.channels == 2 && p.deviceType.Some? && PerPlateType(p.deviceType.value)
  }

  function Indices(records: seq<KeyRecord>, plate: nat): set<int> {
    set i | 0 <= i < |records| && records[i].plate == plate && !records[i].fromRegistry :: records[i].index
  }

  predicate UsesOnly(indices: set<int>, layout: Layout) {
    forall i :: i in indices ==> InFamily(layout, i)
  }

  /** The one family the indices are of, if there is one. */
  function LayoutShown(indices: set<int>): Option<Layout> {
    if UsesOnly(indices, Generic) && UsesOnly(indices, RightPair) then None
    else if UsesOnly(indices, Generic) then Some(Generic)
    else if UsesOnly(indices, RightPair) then Some(RightPair)
    else None
  }

  /** `_apply_two_button_layout` */
  function WithLayout(address: nat, p: Plate, layout: Layout): Plate
    requires address < FRAMES
  {
    var base := Convert(address).value;
    p.(ops := p.ops[Key1A := AddNibble(base, LayoutNibble(layout, Key1A).value)][Key1B := AddNibble(base, LayoutNibble(layout, Key1B).value)],
       keyLayout := if layout == RightPair then Some(RightPair) else None)
  }

  function Settled(address: nat, p: Plate, indices: set<int>): Plate
    requires address < FRAMES
  {
    if indices != {} && HasPerPlateLayout(p) && LayoutShown(indices).Some? then WithLayout(address, p, LayoutShown(indices).value) else p
  }

  ghost predicate Addressed(buttons: Buttons) {
    forall p :: p in buttons ==> p < FRAMES
  }

  class ButtonPlateStore {
    var buttons: Buttons

    constructor (initial: Buttons)
      ensures buttons == initial
    {
      buttons := initial;
    }

    /** `merge_discovered_buttons`, for plates, logic inputs and detectors. */
    method MergeDiscoveredButtons(devices: seq<Device>)
      requires AllAddressed(devices)
      modifies this
      ensures buttons == MergeDevices(old(buttons), devices)
    {
      hide NewOps, MergeDevice, Convert;
      for n := 0 to |devices|
        invariant buttons == MergeDevices(old(buttons), devices[..n])
      {
        assert devices[..n + 1][..n] == devices[..n];
        MergeDiscovered(devices[n]);
      }
      assert devices[..|devices|] == devices;
    }

    method MergeDiscovered(d: Device)
      requires d.address < FRAMES
      modifies this
      ensures buttons == MergeDevice(old(buttons), d)
    {
      hide Convert, AddNibble, DeviceNibble;
      var keys := Labels(d.channels);
      if keys == [] {
        return;
      }
      var layout := StoredLayout(buttons, d.address);
      var entry := if d.address in buttons then buttons[d.address] else Plate(d.channels, None, None, map[]);
      entry := entry.(channels := d.channels);
      if KeepsType(d) {
        entry := entry.(deviceType := Some(d.deviceType));
      }
      var converted := ConvertNikobusAddress(d.address);
      ConvertDefined(d.address);
      var ops := entry.ops;
      for j := 0 to |keys|
        invariant buttons == old(buttons) && ops == entry.ops + NewOps(d, layout, converted.value, keys[..j])
      {
        OneMoreOp(d, layout, converted.value, keys, j, entry.ops);
        var add := DeviceNibble(d, layout, keys[j]);
        if add.Some? {
          ops := ops[keys[j] := AddNibble(converted.value, add.value)];
        }
      }
      assert keys[..|keys|] == keys;
      assert converted == Convert(d.address);
      buttons := buttons[d.address := entry.(ops := ops)];
    }

    lemma OneMoreOp(d: Device, layout: Option<Layout>, base: nat, keys: seq<Key>, j: nat, before: map<Key, nat>)
      requires j < |keys|
      ensures before + NewOps(d, layout, base, keys[..j + 1]) == var ops := before + NewOps(d, layout, base, keys[..j]);
        if DeviceNibble(d, layout, keys[j]).Some? then ops[keys[j] := AddNibble(base, DeviceNibble(d, layout, keys[j]).value)] else ops
    {
      hide DeviceNibble, AddNibble;
      assert forall k :: k in keys[..j + 1] <==> k in keys[..j] || k == keys[j];
    }

    /** `_settle_two_button_layouts` */
    method SettleTwoButtonLayouts(records: seq<KeyRecord>)
      requires Addressed(buttons)
      modifies this
      ensures buttons.Keys == old(buttons).Keys
      ensures forall p :: p in buttons ==> buttons[p] == Settled(p, old(buttons)[p], Indices(records, p))
    {
      hide Settled, Indices;
      var byPlate := IndicesByPlate(records);
      var left := byPlate.Keys;
      while left != {}
        invariant left <= byPlate.Keys && buttons.Keys == old(buttons).Keys
        invariant forall p :: p in buttons ==>
          buttons[p] == if p in byPlate && p !in left then Settled(p, old(buttons)[p], byPlate[p]) else old(buttons)[p]
        decreases |left|
      {
        var p := Next(left);
        if p in buttons {
          var settled := SettlePlate(p, buttons[p], byPlate[p]);
          buttons := buttons[p := settled];
        }
        left := left - {p};
      }
      forall p | p in buttons ensures buttons[p] == Settled(p, old(buttons)[p], Indices(records, p)) {
        NothingShown(p, old(buttons)[p]);
      }
    }

    /** The key indices the records of each plate use. */
    static method IndicesByPlate(records: seq<KeyRecord>) returns (byPlate: map<nat, set<int>>)
      ensures forall p :: p in byPlate <==> Indices(records, p) != {}
      ensures forall p :: p in byPlate ==> byPlate[p] == Indices(records, p)
    {
      hide Indices;
      byPlate := map[];
      NoIndexYet(records);
      for i := 0 to |records|
        invariant forall p :: p in byPlate <==> Indices(records[..i], p) != {}
        invariant forall p :: p in byPlate ==> byPlate[p] == Indices(records[..i], p)
      {
        OneMoreIndex(records, i);
        if !records[i].fromRegistry {
          var plate := records[i].plate;
          byPlate := byPlate[plate := (if plate in byPlate then byPlate[plate] else {}) + {records[i].index}];
        }
      }
      assert records[..|records|] == records;
    }

    static lemma NoIndexYet(records: seq<KeyRecord>)
      ensures forall p :: Indices(records[..0], p) == {}
    {
    }

    /** One plate given the layout its records show. */
    static method SettlePlate(address: nat, entry: Plate, indices: set<int>) returns (p: Plate)
      requires address < FRAMES
      ensures p == Settled(address, entry, indices)
    {
      if indices == {} || !HasPerPlateLayout(entry) {
        return entry;
      }
      var generic, right := UsesOnly(indices, Generic), UsesOnly(indices, RightPair);
      if generic == right {
        return entry;
      }
      return WithLayout(address, entry, if generic then Generic else RightPair);
    }

    lemma NothingShown(address: nat, p: Plate)
      requires address < FRAMES
      ensures Settled(address, p, {}) == p
    {
    }

    static lemma OneMoreIndex(records: seq<KeyRecord>, i: nat)
      requires i < |records|
      ensures forall p :: Indices(records[..i + 1], p) == Indices(records[..i], p) + (if records[i].plate == p && !records[i].fromRegistry then {records[i].index} else {})
    {
      forall p ensures Indices(records[..i + 1], p) == Indices(records[..i], p) + (if records[i].plate == p && !records[i].fromRegistry then {records[i].index} else {}) {
        OneMoreIndexOf(records, i, p);
      }
    }

    static lemma OneMoreIndexOf(records: seq<KeyRecord>, i: nat, p: nat)
      requires i < |records|
      ensures Indices(records[..i + 1], p) == Indices(records[..i], p) + (if records[i].plate == p && !records[i].fromRegistry then {records[i].index} else {})
    {
      var all, some := records[..i + 1], records[..i];
      assert forall j :: 0 <= j < i ==> all[j] == some[j];
      assert all[i] == records[i];
    }
  }

  /** Any of the plates a loop has not been through yet. */
  method Next(left: set<nat>) returns (p: nat)
    requires left != {}
    ensures p in left
  {
    p :| p in left;
  }
}
