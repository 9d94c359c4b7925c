/** Bus addresses: how a plate, a key and a stored link record each lead to the `#N` frame
    a key puts on the bus (`protocol.py`, `discovery/protocol.py`, `nkb/parser.py`).
    A six-digit hex address is the number it spells. */
module Addresses {
  import opened Wrappers
  import opened Bits

  const FRAMES: nat := 0x1000000
  const PLATES: nat := 0x400000

  datatype Key = Key1A | Key1B | Key1C | Key1D | Key2A | Key2B | Key2C | Key2D

  /** The labels of a plate, in the order of its `KEY_MAPPING` row. */
  function Labels(channels: nat): seq<Key> {
    if channels == 1 then [Key1A]
    else if channels == 2 then [Key1A, Key1B]
    else if channels == 4 then [Key1A, Key1B, Key1C, Key1D]
    else if channels == 8 then [Key1A, Key1B, Key1C, Key1D, Key2A, Key2B, Key2C, Key2D]
    else []
  }

  /** `KEY_MAPPING[channels][key]`: what the key adds to the first digit of the frame. */
  function KeyNibble(channels: nat, key: Key): Option<nat> {
    if channels == 8 then
      match key
      case Key1A => Some(0xA) case Key1B => Some(0xE) case Key1C => Some(2) case Key1D => Some(6)
      case Key2A => Some(8) case Key2B => Some(0xC) case Key2C => Some(0) case Key2D => Some(4)
    else if channels != 1 && channels != 2 && channels != 4 then None
    else
      match key
      case Key1A => Some(8)
      case Key1B => if channels >= 2 then Some(0xC) else None
      case Key1C => if channels == 4 then Some(0) else None
      case Key1D => if channels == 4 then Some(4) else None
      case _ => None
  }

  /** `KEY_MAPPING_MODULE[channels][index]`: the same for the key index of a link record. */
  function IndexNibble(channels: nat, index: int): Option<nat> {
    if channels == 1 then (if index == 1 then Some(8) else None)
    else if channels != 2 && channels != 4 && channels != 8 then None
    else if index == 0 then Some(0) else if index == 1 then Some(8)
    else if index == 2 then Some(4) else if index == 3 then Some(0xC)
    else if channels != 8 then None
    else if index == 4 then Some(2) else if index == 5 then Some(0xA)
    else if index == 6 then Some(6) else if index == 7 then Some(0xE)
    else None
  }

  /** `convert_nikobus_address`: 21 bits reversed and moved up one, the other three added. */
  function Convert(address: nat): Option<nat> {
    if address >= FRAMES then None else Some(2 * Rev(address, 21) + address / 0x200000 % 8)
  }

  method ConvertNikobusAddress(address: nat) returns (r: Option<nat>)
    ensures r == Convert(address)
  {
    hide Rev, Pow2, Gathered;
    if address > 0xFFFFFF {
      return None;
    }
    var nikobus: nat := 0;
    var rest := address;
    GatherBounds(rest, 21, 0);
    for i := 0 to 21
      invariant Gathered(nikobus, rest, 21 - i) == Rev(address, 21)
    {
      ReverseStep(nikobus, rest, 21 - i);
      assert 21 - i - 1 == 21 - (i + 1);
      nikobus := 2 * nikobus + rest % 2;
      rest := rest / 2;
    }
    GatherBounds(rest, 0, nikobus);
    return Some(2 * nikobus + address / 0x200000 % 8);
  }

  /** Add to the first of six hex digits, modulo sixteen. */
  function AddNibble(frame: nat, add: nat): (r: nat)
    ensures r < FRAMES
  {
    (frame / 0x100000 + add) % 16 * 0x100000 + frame % 0x100000
  }

  /** The frame the inventory files a key under, and `per_key_bus_address` derives. */
  function KeyFrame(plate: nat, channels: nat, key: Key): Option<nat> {
    match (Convert(plate), KeyNibble(channels, key))
    case (Some(c), Some(n)) => Some(AddNibble(c, n))
    case _ => None
  }

  /** `record_bus_address` */
  function RecordBusAddress(physical: nat, index: int): Option<nat> {
    match (Convert(physical), IndexNibble(if index >= 4 then 8 else 4, index))
    case (Some(c), Some(n)) => Some(AddNibble(c, n))
    case _ => None
  }

  /** `get_push_button_address`, given the channel count the host knows for the plate. */
  function PushButtonAddress(index: int, plate: nat, channels: Option<nat>): Option<nat> {
    match channels
    case None => None
    case Some(count) =>
      match (Convert(plate), IndexNibble(count, index))
      case (Some(c), Some(n)) => Some(AddNibble(c, n))
      case _ => None
  }

  function CodeOfNibble(n: nat): nat {
    n / 8 % 2 + 2 * (n / 4 % 2) + 4 * (n / 2 % 2)
  }

  /** `_key_code`: the nibble's top three bits, reversed. */
  function KeyCode(channels: nat, key: Key): (code: Option<nat>)
    ensures code.Some? ==> code.value < 8 && (channels != 8 ==> code.value < 4)
  {
    match KeyNibble(channels, key)
    case None => None
    case Some(n) => Some(CodeOfNibble(n))
  }

  function Or(a: nat, b: nat): nat
    decreases a + b
  {
    if a == 0 && b == 0 then 0
    else 2 * Or(a / 2, b / 2) + (if a % 2 == 1 || b % 2 == 1 then 1 else 0)
  }

  /** `nikobus_to_button_address`; an unknown key raises. */
  function ToButtonAddress(address: nat, key: Key, channels: nat): Option<nat> {
    match KeyCode(channels, key)
    case None => None
    case Some(code) =>
      var plate := address % PLATES;
      Some(Rev(Or(4 * (if channels == 8 then 2 * (plate / 2) else plate), code), 24))
  }

  function FindLabel(labels: seq<Key>, channels: nat, code: nat): Option<Key> {
    if labels == [] then None
    else if KeyCode(channels, labels[0]) == Some(code) then Some(labels[0])
    else FindLabel(labels[1..], channels, code)
  }

  /** `nikobus_button_to_module`: the plate and the key label behind a frame. */
  function ButtonToModule(frame: nat, channels: nat): (nat, Option<Key>) {
    var combined := Rev(frame, 24);
    var plate, code := combined / 4, combined % 8;
    if channels == 8 then (2 * (plate / 2), FindLabel(Labels(8), 8, code))
    else (plate, FindLabel(Labels(channels), channels, code % 4))
  }

  // ---- bit facts ------------------------------------------------------------------------------

  lemma {:induction false} OrDisjoint(a: nat, b: nat, k: nat)
    requires b < Pow2(k)
    ensures Or(Pow2(k) * a, b) == Pow2(k) * a + b
    decreases k
  {
    if k == 0 {
      OrZero(a);
    } else {
      var p := Pow2(k - 1);
      assert Pow2(k) * a == 2 * (p * a);
      OrDisjoint(a, b / 2, k - 1);
    }
  }

  lemma {:induction false} OrZero(a: nat)
    ensures Or(a, 0) == a
  {
    if a != 0 {
      OrZero(a / 2);
    }
  }

  lemma SmallRev(code: nat)
    requires code < 8
    ensures code < 4 ==> Rev(code, 2) == 2 * (code % 2) + code / 2
    ensures Rev(code, 3) == 4 * (code % 2) + 2 * (code / 2 % 2) + code / 4
  {
    assert Pow2(0) == 1 && Pow2(1) == 2 && Pow2(2) == 4;
  }

  /** On plate addresses the conversion is the reversal of all 22 bits. */
  lemma ConvertReverses(plate: nat)
    requires plate < PLATES
    ensures Convert(plate) == Some(Rev(plate, 22)) && Rev(plate, 22) < PLATES
  {
    hide Rev;
    Pow2Values();
    var hi, lo := plate / 0x200000, plate % 0x200000;
    RevSplit(hi, lo, 1, 21);
    RevSplit(0, lo, 0, 21);
    RevLow(plate, 21);
    SmallRev(hi);
    RevBound(plate, 22);
    RevOne(hi);
    assert Pow2(1) == 2;
  }

  lemma RevOne(b: nat)
    requires b < 2
    ensures Rev(b, 1) == b
  {
    assert Pow2(0) == 1;
  }

  lemma {:induction false} RevLow(v: nat, width: nat)
    ensures Rev(v, width) == Rev(v % Pow2(width), width)
    decreases width
  {
    if width > 0 {
      ModDouble(v, Pow2(width - 1));
      RevLow(v / 2, width - 1);
    }
  }

  lemma PlateAndKey(plate: nat, code: nat)
    requires plate < PLATES && code < 4
    ensures Rev(Or(4 * plate, code), 24) == (2 * (code % 2) + code / 2) * PLATES + Rev(plate, 22)
  {
    hide Rev, Or, Pow2;
    Pow2Values();
    OrDisjoint(plate, code, 2);
    RevSplit(plate, code, 22, 2);
    SmallRev(code);
  }

  lemma EvenPlateAndKey(plate: nat, code: nat)
    requires plate < PLATES && plate % 2 == 0 && code < 8
    ensures Rev(Or(4 * plate, code), 24) == (4 * (code % 2) + 2 * (code / 2 % 2) + code / 4) * 0x200000 + Rev(plate, 22)
  {
    assert Pow2(1) == 2 && Pow2(3) == 8;
    hide Rev, Or, Pow2;
    Pow2Values();
    var half := plate / 2;
    assert 4 * plate == 8 * half && plate == 2 * half + 0;
    assert Rev(plate, 22) == Rev(half, 21) by {
      RevSplit(half, 0, 21, 1);
      RevOne(0);
    }
    OrDisjoint(half, code, 3);
    assert Rev(8 * half + code, 24) == Rev(code, 3) * 0x200000 + Rev(half, 21) by { RevSplit(half, code, 21, 3); }
    SmallRev(code);
  }

  // ---- the derivations agree --------------------------------------------------------------------

  /** `convert_nikobus_address` undoes itself on 22-bit addresses. */
  lemma ConvertInvolution(plate: nat)
    requires plate < PLATES
    ensures Convert(Convert(plate).value) == Some(plate)
  {
    hide Rev;
    Pow2Values();
    ConvertReverses(plate);
    ConvertReverses(Rev(plate, 22));
    RevInvolution(plate, 22);
  }

  /** On 24 bits it has no inverse: the three added bits can carry into the reversed ones. */
  lemma ConvertCollides()
    ensures 0x500000 != 0x080000 && Convert(0x500000) == Convert(0x080000) == Some(4)
  {
    hide Rev;
    Pow2Values();
    RevLow(0x500000, 21);
    RevSplit(1, 0, 1, 20);
    RevSplit(1, 0, 2, 19);
    RevOfZero(19);
    RevOfZero(20);
    RevOne(1);
    SmallRev(1);
    assert Pow2(19) == 0x80000;
  }

  lemma {:induction false} RevOfZero(w: nat)
    ensures Rev(0, w) == 0
  {
    if w > 0 {
      RevOfZero(w - 1);
    }
  }

  /** Every way to a key's frame gives the same frame, and the frame gives plate and key back.
      An eight-key plate has an even address; its first row is also reached from the sibling
      address plus a key index below four. */
  lemma DerivationsAgree(plate: nat, channels: nat, key: Key, index: int)
    requires plate < PLATES && KeyNibble(channels, key).Some?
    requires IndexNibble(channels, index) == KeyNibble(channels, key)
    requires channels == 8 ==> plate % 2 == 0
    ensures KeyFrame(plate, channels, key).Some?
    ensures ToButtonAddress(plate, key, channels) == KeyFrame(plate, channels, key)
    ensures RecordBusAddress(plate, index) == KeyFrame(plate, channels, key)
    ensures PushButtonAddress(index, plate, Some(channels)) == KeyFrame(plate, channels, key)
    ensures ButtonToModule(KeyFrame(plate, channels, key).value, channels) == (plate, Some(key))
    ensures channels == 8 && index >= 4 ==> RecordBusAddress(plate + 1, index - 4) == KeyFrame(plate, channels, key)
  {
    hide Rev, Or, Convert, KeyNibble, IndexNibble, KeyCode, ToButtonAddress, ButtonToModule, AddNibble;
    ConvertReverses(plate);
    FrameOfKey(plate, channels, key);
    FrameToPlate(plate, channels, key, KeyFrame(plate, channels, key).value);
    TablesAgree(channels, index);
    if channels == 8 && index >= 4 {
      SiblingFrame(plate, index);
    }
  }

  lemma TablesAgree(channels: nat, index: int)
    requires IndexNibble(channels, index).Some?
    ensures IndexNibble(if index >= 4 then 8 else 4, index) == IndexNibble(channels, index)
    ensures 0 <= index < 8
  {
  }

  lemma FrameOfKey(plate: nat, channels: nat, key: Key)
    requires plate < PLATES && KeyNibble(channels, key).Some?
    requires channels == 8 ==> plate % 2 == 0
    ensures KeyFrame(plate, channels, key) == Some(Rev(plate, 22) + KeyNibble(channels, key).value * 0x100000)
    ensures ToButtonAddress(plate, key, channels) == KeyFrame(plate, channels, key)
  {
    hide Rev, Or, Convert, KeyNibble, CodeOfNibble, AddNibble;
    FrameFromNibble(plate, channels, key);
    NibbleIsReversedCode(channels, key);
    var code := KeyCode(channels, key).value;
    assert plate % PLATES == plate;
    if channels == 8 {
      EvenPlateAndKey(plate, code);
    } else {
      PlateAndKey(plate, code);
      FourKeyCode(code);
    }
  }

  lemma FrameFromNibble(plate: nat, channels: nat, key: Key)
    requires plate < PLATES && KeyNibble(channels, key).Some?
    requires channels == 8 ==> plate % 2 == 0
    ensures KeyFrame(plate, channels, key) == Some(Rev(plate, 22) + KeyNibble(channels, key).value * 0x100000)
  {
    hide Rev, Convert, KeyNibble, AddNibble;
    ConvertReverses(plate);
    EvenNibbles(channels, key);
    var n := KeyNibble(channels, key).value;
    if channels == 8 {
      EvenPlateFrame(plate);
      AddToFrame(Rev(plate, 22), n, 0x200000);
    } else {
      AddToFrame(Rev(plate, 22), n, 0x400000);
    }
  }

  lemma FourKeyCode(code: nat)
    requires code < 4
    ensures (4 * (code % 2) + 2 * (code / 2 % 2) + code / 4) * 0x200000 == (2 * (code % 2) + code / 2) * PLATES
  {
  }

  /** Adding a nibble to a frame whose top bits are clear where the nibble has its own. */
  lemma AddToFrame(frame: nat, n: nat, room: nat)
    requires n < 16 && frame < room
    requires (room == 0x200000 && n % 2 == 0) || (room == 0x400000 && n % 4 == 0)
    ensures AddNibble(frame, n) == frame + n * 0x100000
  {
    var q := frame / 0x100000;
    assert frame == q * 0x100000 + frame % 0x100000 && q + n < 16;
    assert (q + n) * 0x100000 == q * 0x100000 + n * 0x100000;
  }

  lemma EvenNibbles(channels: nat, key: Key)
    requires KeyNibble(channels, key).Some?
    ensures var n := KeyNibble(channels, key).value; n < 16 && n % 2 == 0 && (channels != 8 ==> n % 4 == 0)
  {
  }

  lemma NibbleOfCode(n: nat)
    requires n < 16 && n % 2 == 0
    ensures var code := CodeOfNibble(n); n == 2 * (4 * (code % 2) + 2 * (code / 2 % 2) + code / 4)
    ensures n % 4 == 0 ==> CodeOfNibble(n) < 4
  {
    if n < 8 {
      assert n == 0 || n == 2 || n == 4 || n == 6;
    } else {
      assert n == 8 || n == 10 || n == 12 || n == 14;
    }
  }

  lemma NibbleIsReversedCode(channels: nat, key: Key)
    requires KeyNibble(channels, key).Some?
    ensures var code, n := KeyCode(channels, key).value, KeyNibble(channels, key).value;
      && n * 0x100000 == (4 * (code % 2) + 2 * (code / 2 % 2) + code / 4) * 0x200000
      && n < 16 && (channels != 8 ==> n % 4 == 0)
  {
    hide KeyNibble, CodeOfNibble;
    EvenNibbles(channels, key);
    NibbleOfCode(KeyNibble(channels, key).value);
  }

  lemma EvenPlateFrame(plate: nat)
    requires plate < PLATES && plate % 2 == 0
    ensures Rev(plate, 22) < 0x200000
  {
    hide Rev;
    Pow2Values();
    RevSplit(plate / 2, 0, 21, 1);
    RevOne(0);
    RevBound(plate / 2, 21);
    assert Pow2(1) == 2;
  }

  lemma SiblingReversed(plate: nat)
    requires plate < PLATES && plate % 2 == 0
    ensures Rev(plate + 1, 22) == Rev(plate, 22) + 0x200000
  {
    hide Rev, Pow2;
    Pow2Values();
    RevBit(0);
    RevBit(1);
    RevSplit(plate / 2, 0, 21, 1);
    RevSplit(plate / 2, 1, 21, 1);
    assert plate / 2 * 2 == plate;
  }

  lemma SiblingNibble(index: int)
    requires 4 <= index < 8
    ensures IndexNibble(8, index - 4).Some? && IndexNibble(8, index) == Some(IndexNibble(8, index - 4).value + 2)
    ensures IndexNibble(4, index - 4) == IndexNibble(8, index - 4)
    ensures IndexNibble(8, index - 4).value % 4 == 0 && IndexNibble(8, index - 4).value < 16
  {
  }

  lemma SiblingSum(frame: nat, n: nat)
    requires frame < 0x200000 && n < 16 && n % 4 == 0
    ensures AddNibble(frame + 0x200000, n) == AddNibble(frame, n + 2)
  {
    assert (frame + 0x200000) / 0x100000 == frame / 0x100000 + 2;
  }

  /** The sibling address sets frame bit 21, as a key index from four on does. */
  lemma SiblingFrame(plate: nat, index: int)
    requires plate < PLATES && plate % 2 == 0 && 4 <= index < 8
    ensures RecordBusAddress(plate + 1, index - 4) == RecordBusAddress(plate, index)
  {
    hide Rev, Convert, IndexNibble;
    ConvertReverses(plate);
    EvenPlateFrame(plate);
    ConvertReverses(plate + 1);
    SiblingReversed(plate);
    SiblingNibble(index);
    var f, n := Rev(plate, 22), IndexNibble(8, index - 4).value;
    SiblingSum(f, n);
    assert RecordBusAddress(plate, index) == Some(AddNibble(f, n + 2));
  }

  lemma FrameToPlate(plate: nat, channels: nat, key: Key, frame: nat)
    requires plate < PLATES && KeyNibble(channels, key).Some?
    requires channels == 8 ==> plate % 2 == 0
    requires ToButtonAddress(plate, key, channels) == Some(frame)
    ensures ButtonToModule(frame, channels) == (plate, Some(key))
  {
    hide Rev, Or, KeyCode, FindLabel, Labels;
    var code := KeyCode(channels, key).value;
    CombinedBits(plate, code, channels == 8);
    LabelOfCode(channels, key);
    SplitCombined(plate, code);
  }

  lemma SplitCombined(plate: nat, code: nat)
    requires code < 8
    ensures code < 4 ==> (4 * plate + code) / 4 == plate && (4 * plate + code) % 4 == code
    ensures plate % 2 == 0 ==> (4 * plate + code) / 4 / 2 == plate / 2 && (4 * plate + code) % 8 == code
  {
  }

  lemma CombinedBits(plate: nat, code: nat, eight: bool)
    requires plate < PLATES && code < 8 && (if eight then plate % 2 == 0 else code < 4)
    ensures Or(4 * plate, code) == 4 * plate + code
    ensures Rev(Rev(4 * plate + code, 24), 24) == 4 * plate + code
  {
    hide Rev, Or;
    Pow2Values();
    assert Pow2(3) == 8;
    if eight {
      OrDisjoint(plate / 2, code, 3);
    } else {
      OrDisjoint(plate, code, 2);
    }
    RevInvolution(4 * plate + code, 24);
  }

  lemma LabelOfCode(channels: nat, key: Key)
    requires KeyNibble(channels, key).Some?
    ensures FindLabel(Labels(channels), channels, KeyCode(channels, key).value) == Some(key)
  {
    LabelsAreKeys(channels, key);
    FindLabelUnique(Labels(channels), channels, key);
  }

  lemma LabelsAreKeys(channels: nat, key: Key)
    ensures key in Labels(channels) <==> KeyNibble(channels, key).Some?
    ensures forall k :: k in Labels(channels) ==> KeyNibble(channels, k).Some?
  {
  }

  lemma {:induction false} FindLabelUnique(l: seq<Key>, channels: nat, key: Key)
    requires key in l && forall k :: k in l ==> KeyNibble(channels, k).Some?
    ensures FindLabel(l, channels, KeyCode(channels, key).value) == Some(key)
    decreases |l|
  {
    assert l[0] in l;
    if l[0] != key {
      CodesDistinct(channels, l[0], key);
      assert forall k :: k in l[1..] ==> k in l;
      FindLabelUnique(l[1..], channels, key);
    }
  }

  lemma CodesDistinct(channels: nat, a: Key, b: Key)
    requires KeyNibble(channels, a).Some? && KeyNibble(channels, b).Some? && a != b
    ensures KeyCode(channels, a) != KeyCode(channels, b)
  {
    hide KeyCode;
    NibbleIsReversedCode(channels, a);
    NibbleIsReversedCode(channels, b);
    NibblesDistinct(channels, a, b);
  }

  lemma NibblesDistinct(channels: nat, a: Key, b: Key)
    requires KeyNibble(channels, a).Some? && KeyNibble(channels, b).Some? && a != b
    ensures KeyNibble(channels, a) != KeyNibble(channels, b)
  {
  }

  // ---- virtual buttons ---------------------------------------------------------------------------

  /** `virtual_plate_address`; an address over 24 bits raises. */
  function VirtualPlate(physical: nat): Option<nat> {
    match Convert(physical)
    case None => None
    case Some(frame) => Convert(frame % PLATES)
  }

  /** Canonical spelling: it keeps the 22 frame bits that are not the key's, and is its own
      canonical spelling. */
  lemma VirtualPlateCanonical(physical: nat)
    requires physical < FRAMES
    ensures VirtualPlate(physical).Some? && VirtualPlate(physical).value < PLATES
    ensures Convert(VirtualPlate(physical).value).value == Convert(physical).value % PLATES
    ensures VirtualPlate(VirtualPlate(physical).value) == VirtualPlate(physical)
    ensures physical < PLATES ==> VirtualPlate(physical) == Some(physical)
  {
    hide Rev, Convert;
    ConvertDefined(physical);
    var base := Convert(physical).value % PLATES;
    ConvertReverses(base);
    ConvertInvolution(base);
    if physical < PLATES {
      ConvertReverses(physical);
      ConvertInvolution(physical);
    }
  }

  lemma ConvertDefined(physical: nat)
    requires physical < FRAMES
    ensures Convert(physical).Some?
  {
  }

  // ---- stored record addresses -------------------------------------------------------------------

  /** `encode_button_address`: what a module stores for a 22-bit address; wider ones raise. */
  function EncodeButtonAddress(value: nat): Option<nat> {
    if value >= PLATES then None
    else Some(value % 64 * 0x40000 + value / 64 % 256 * 256 + value / 0x4000)
  }

  /** `get_button_address` on the three bytes of a record's address. */
  function GetButtonAddress(stored: nat): nat
    requires stored < FRAMES
  {
    stored % 256 * 0x4000 + stored / 256 % 256 * 64 + stored / 0x40000
  }

  /** `reverse_hex` on three bytes. */
  function ReverseBytes(value: nat): (r: nat)
    requires value < FRAMES
    ensures r < FRAMES
  {
    value % 256 * 0x10000 + value / 256 % 256 * 256 + value / 0x10000
  }

  lemma GetInvertsEncode(value: nat)
    requires value < PLATES
    ensures EncodeButtonAddress(value).value < FRAMES
    ensures GetButtonAddress(EncodeButtonAddress(value).value) == value
  {
    var a, b, c := value % 64, value / 64 % 256, value / 0x4000;
    var s := EncodeButtonAddress(value).value;
    StoredFields(s, a, 0, b, c);
  }

  /** The fields of a stored address: six bits, two unused, a byte, a byte. */
  lemma StoredFields(s: nat, a: nat, d: nat, b: nat, c: nat)
    requires a < 64 && d < 4 && b < 256 && c < 256
    requires s == a * 0x40000 + d * 0x10000 + b * 256 + c
    ensures s < FRAMES && s % 256 == c && s / 256 % 256 == b && s / 0x40000 == a && s / 0x10000 % 4 == d
  {
    DivModUnique(s, 256, a * 0x400 + d * 0x100 + b, c);
    DivModUnique(s / 256, 256, 4 * a + d, b);
    DivModUnique(s, 0x40000, a, d * 0x10000 + b * 256 + c);
    DivModUnique(s, 0x10000, 4 * a + d, b * 256 + c);
  }

  lemma AddressFields(v: nat, c: nat, b: nat, a: nat)
    requires v == c * 0x4000 + b * 64 + a && a < 64 && b < 256 && c < 256
    ensures v % 64 == a && v / 64 % 256 == b && v / 0x4000 == c && v < PLATES
  {
    DivModUnique(v, 64, c * 256 + b, a);
    DivModUnique(v / 64, 256, c, b);
    DivModUnique(v, 0x4000, c, b * 64 + a);
  }

  /** The bits `get_button_address` drops are the two `encode_button_address` leaves zero. */
  lemma EncodeInvertsGet(stored: nat)
    requires stored < FRAMES
    ensures EncodeButtonAddress(GetButtonAddress(stored)) == Some(stored) <==> stored / 0x10000 % 4 == 0
  {
    hide EncodeButtonAddress;
    JoinFields(stored);
    EncodeFields(stored % 256, stored / 256 % 256, stored / 0x40000);
  }

  lemma EncodeFields(c: nat, b: nat, a: nat)
    requires a < 64 && b < 256 && c < 256
    ensures EncodeButtonAddress(c * 0x4000 + b * 64 + a) == Some(a * 0x40000 + b * 256 + c)
  {
    AddressFields(c * 0x4000 + b * 64 + a, c, b, a);
  }

  lemma JoinFields(s: nat)
    ensures s == s / 0x40000 * 0x40000 + s / 0x10000 % 4 * 0x10000 + s / 256 % 256 * 256 + s % 256
  {
    assert s / 0x10000 / 4 == s / 0x40000 && s / 256 / 256 == s / 0x10000;
  }

  /** A stored big-endian address is the plate and the key code, and listens for its own
      24-bit reversal. */
  lemma StoredAddressMeansItsFrame(address: nat)
    requires address < FRAMES
    ensures GetButtonAddress(ReverseBytes(address)) == address / 4
    ensures RecordBusAddress(address / 4, address % 4) == Some(Rev(address, 24))
  {
    var b0, b1, b2 := address % 256, address / 256 % 256, address / 0x10000;
    assert address == b2 * 0x10000 + b1 * 256 + b0;
    StoredFields(ReverseBytes(address), b0 / 4, b0 % 4, b1, b2);
    PlateFrame(address / 4, address % 4);
  }

  lemma PlateFrame(plate: nat, index: nat)
    requires plate < PLATES && index < 4
    ensures RecordBusAddress(plate, index) == Some(Rev(4 * plate + index, 24))
  {
    hide Rev, Convert;
    Pow2Values();
    RevSplit(plate, index, 22, 2);
    SmallRev(index);
    ConvertReverses(plate);
  }

  // ---- calendar channels ---------------------------------------------------------------------------

  datatype CalendarChannel = CalendarChannel(number: nat, halfB: bool, address: nat)

  /** `calendar_channel_from_link` */
  function CalendarChannelFromLink(stored: nat): Option<CalendarChannel>
    requires stored < FRAMES
  {
    var value := Rev(stored, 24);
    if !(0xE00320 <= value < 0xE00320 + 400) then None
    else
      var number, half := (value - 0xE00320) / 4, (value - 0xE00320) % 4;
      if half != 0 && half != 2 then None else Some(CalendarChannel(number + 1, half == 2, value))
  }

  // ---- what the tables say -------------------------------------------------------------------------

  predicate InUpperRow(key: Key) {
    key in {Key1A, Key1B, Key1C, Key1D}
  }

  /** The three bits of a key's code: the upper row of an eight-key plate, the lower key of a rocker,
      and the left rocker. */
  lemma KeyCodeBits(channels: nat, key: Key)
    requires KeyNibble(channels, key).Some?
    ensures KeyCode(channels, key) == Some(
      (if channels == 8 && InUpperRow(key) then 4 else 0)
      + (if key in {Key1B, Key1D, Key2B, Key2D} then 2 else 0) + (if key in {Key1A, Key1B, Key2A, Key2B} then 1 else 0))
  {
  }

  /** Which keys a plate has. */
  lemma KeysOfPlate(channels: nat, key: Key)
    ensures KeyNibble(channels, key).Some? <==>
      (channels in {1, 2, 4, 8} && key == Key1A) || (channels in {2, 4, 8} && key == Key1B)
      || (channels in {4, 8} && key in {Key1C, Key1D}) || (channels == 8 && !InUpperRow(key))
  {
  }

  /** The index a link record carries is the code of its key. */
  lemma IndexIsKeyCode(channels: nat, index: int)
    ensures IndexNibble(channels, index).Some? <==>
      (channels == 1 && index == 1) || (channels in {2, 4} && 0 <= index < 4) || (channels == 8 && 0 <= index < 8)
    ensures IndexNibble(channels, index).Some? ==>
      var n := IndexNibble(channels, index).value; n < 16 && n % 2 == 0 && CodeOfNibble(n) == index
  {
  }

  /** Which addresses are too long: over 24 bits for the bus, over 22 to be stored. */
  lemma AddressLimits(address: nat)
    ensures Convert(address).None? <==> address >= 0x1000000
    ensures EncodeButtonAddress(address).None? <==> address >= 0x400000
  {
    hide Rev;
  }

  /** The stored form has the bytes the other way round. */
  lemma BytesReversed(b0: nat, b1: nat, b2: nat)
    requires b0 < 256 && b1 < 256 && b2 < 256
    ensures ReverseBytes(0x10000 * b2 + 0x100 * b1 + b0) == 0x10000 * b0 + 0x100 * b1 + b2
  {
    var v := 0x10000 * b2 + 0x100 * b1 + b0;
    DivModUnique(v, 256, 256 * b2 + b1, b0);
    DivModUnique(v / 256, 256, b2, b1);
    DivModUnique(v, 0x10000, b2, 0x100 * b1 + b0);
  }

  /** A stored address is calendar channel `n`, half A or B, exactly when it is the reversal of the
      `n`th pair of addresses from E00320 on; there are a hundred. */
  lemma CalendarExactly(stored: nat, n: nat, halfB: bool)
    requires stored < FRAMES
    ensures var c := CalendarChannelFromLink(stored);
      (c.Some? && c.value.number == n && c.value.halfB == halfB)
      <==> 1 <= n <= 100 && Rev(stored, 24) == 0xE00320 + 4 * (n - 1) + (if halfB then 2 else 0)
    ensures CalendarChannelFromLink(stored).Some? ==> CalendarChannelFromLink(stored).value.address == Rev(stored, 24)
  {
    hide Rev;
  }

  /** The three bytes a switch record holds for an installed plate. */
  lemma KnownStoredAddress()
    ensures EncodeButtonAddress(0x1772B8) == Some(0xE0CA5D) && GetButtonAddress(0xE0CA5D) == 0x1772B8
  {
    hide GetButtonAddress;
    assert 0x1772B8 % 64 == 0x38 && 0x1772B8 / 64 == 0x5DCA && 0x5DCA % 256 == 0xCA && 0x1772B8 / 0x4000 == 0x5D;
    GetInvertsEncode(0x1772B8);
  }
}
