/** Link records as a scan files them: by the frame of the key once the plate's channel count is
    known, and then resolved like any other address (`discovery/discovery.py`,
    `add_to_command_mapping`). */
module FrameSpelling {
  import opened Wrappers
  import opened Bits
  import opened Addresses
  import opened ButtonPlates
  import opened KeyResolver

  /** The address a record read from a module's table is filed under; the host knows the channel
      count of every stored plate. */
  function Spelled(buttons: Buttons, plate: nat, index: int): (address: nat)
    requires plate < FRAMES
    ensures address < FRAMES
  {
    match PushButtonAddress(index, plate, if plate in buttons then Some(buttons[plate].channels) else None)
    case None => plate
    case Some(frame) => frame
  }

  // ---- who sends a frame, and whose key is found by it ---------------------------------------------

  predicate SendsFrame(buttons: Buttons, plate: nat, frame: nat) {
    plate in buttons && exists key :: key in buttons[plate].ops && buttons[plate].ops[key] == frame
  }

  /** The frame is also filed under the eight-key button that sends the one before it. */
  predicate Aliases(buttons: Buttons, plate: nat, frame: nat) {
    plate in buttons && buttons[plate].channels == 8
    && exists key :: key in buttons[plate].ops && (buttons[plate].ops[key] + 1) % FRAMES == frame
  }

  /** A stored plate sends the frame, and no eight-key button filed before it sends the frame
      before. */
  ghost predicate SentFirst(buttons: Buttons, order: seq<nat>, frame: nat) {
    exists j :: 0 <= j < |order| && SendsFrame(buttons, order[j], frame) && NoAlias(buttons, order[..j], frame)
  }

  ghost predicate NoAlias(buttons: Buttons, order: seq<nat>, frame: nat) {
    forall i :: 0 <= i < |order| ==> !Aliases(buttons, order[i], frame)
  }

  ghost predicate Claimed(buttons: Buttons, frame: nat) {
    exists plate :: SendsFrame(buttons, plate, frame) || Aliases(buttons, plate, frame)
  }

  /** The hit is a key that sends the frame. */
  predicate IsSentBy(buttons: Buttons, hit: Option<(nat, Key)>, frame: nat) {
    hit.Some? && IsKey(buttons, hit.value) && buttons[hit.value.0].ops[hit.value.1] == frame
  }

  lemma KeyFrameOf(buttons: Buttons, plate: nat, key: Key)
    requires AllLaidOut(buttons) && IsKey(buttons, (plate, key))
    ensures Convert(plate).Some? && buttons[plate].ops[key] < FRAMES
    ensures buttons[plate].ops[key] % 0x100000 == Convert(plate).value % 0x100000
  {
    hide Convert, PlateNibble, Labels;
    assert LaidOut(plate, buttons[plate]);
    ConvertDefined(plate);
    LowPart(Convert(plate).value, PlateNibble(buttons[plate], key).value);
  }

  lemma LowPart(frame: nat, n: nat)
    ensures AddNibble(frame, n) % 0x100000 == frame % 0x100000
  {
  }

  lemma NextFrame(frame: nat)
    requires frame < FRAMES
    ensures (frame + 1) % FRAMES % 0x100000 != frame % 0x100000
  {
  }

  /** No plate both sends a frame and has it for an alias. */
  lemma SendsOrAliases(buttons: Buttons, plate: nat, frame: nat)
    requires AllLaidOut(buttons) && SendsFrame(buttons, plate, frame)
    ensures !Aliases(buttons, plate, frame)
  {
    hide AllLaidOut, Convert;
    var key :| key in buttons[plate].ops && buttons[plate].ops[key] == frame;
    KeyFrameOf(buttons, plate, key);
    forall other | other in buttons[plate].ops ensures (buttons[plate].ops[other] + 1) % FRAMES != frame {
      KeyFrameOf(buttons, plate, other);
      NextFrame(buttons[plate].ops[other]);
    }
  }

  lemma ClaimAtPlate(buttons: Buttons, plate: nat, frame: nat)
    requires AllLaidOut(buttons)
    ensures var hit := ClaimAt(buttons, plate, ALL_KEYS, frame);
      && (hit.Some? <==> SendsFrame(buttons, plate, frame) || Aliases(buttons, plate, frame))
      && (IsSentBy(buttons, hit, frame) <==> SendsFrame(buttons, plate, frame))
  {
    hide AllLaidOut;
    forall key ensures key in ALL_KEYS { AllKeysListed(key); }
    if SendsFrame(buttons, plate, frame) {
      var key :| key in buttons[plate].ops && buttons[plate].ops[key] == frame;
      assert Claims(buttons[plate], key, frame);
      SendsOrAliases(buttons, plate, frame);
    } else if Aliases(buttons, plate, frame) {
      var key :| key in buttons[plate].ops && (buttons[plate].ops[key] + 1) % FRAMES == frame;
      assert Claims(buttons[plate], key, frame);
    }
  }

  /** What is filed under a frame sends it exactly when a plate that does comes before every
      eight-key button that sends the frame before. */
  lemma {:induction false} FirstClaimSends(buttons: Buttons, order: seq<nat>, frame: nat)
    requires AllLaidOut(buttons)
    ensures FirstClaim(buttons, order, frame).Some? <==>
      exists j :: 0 <= j < |order| && (SendsFrame(buttons, order[j], frame) || Aliases(buttons, order[j], frame))
    ensures IsSentBy(buttons, FirstClaim(buttons, order, frame), frame) <==> SentFirst(buttons, order, frame)
  {
    hide AllLaidOut, SendsFrame, Aliases, ClaimAt, SentFirst;
    if order == [] {
      NothingSent(buttons, order, frame);
    } else {
      var n := |order| - 1;
      var before, last := order[..n], order[n];
      FirstClaimSends(buttons, before, frame);
      ClaimAtPlate(buttons, last, frame);
      assert forall j :: 0 <= j < n ==> before[j] == order[j];
      OneMorePlate(buttons, order, frame);
      if FirstClaim(buttons, before, frame).Some? {
        var j :| 0 <= j < n && (SendsFrame(buttons, before[j], frame) || Aliases(buttons, before[j], frame));
        if NoAlias(buttons, before, frame) {
          SentBeforeAlias(buttons, before, j, frame);
        }
      } else {
        assert NoAlias(buttons, before, frame);
        NothingSent(buttons, before, frame);
      }
    }
  }

  lemma OneMorePlate(buttons: Buttons, order: seq<nat>, frame: nat)
    requires order != []
    ensures var before, last := order[..|order| - 1], order[|order| - 1];
      SentFirst(buttons, order, frame) <==>
        SentFirst(buttons, before, frame) || (NoAlias(buttons, before, frame) && SendsFrame(buttons, last, frame))
  {
    hide SendsFrame, NoAlias;
    var n := |order| - 1;
    assert forall j :: 0 <= j < n ==> order[..n][j] == order[j] && order[..n][..j] == order[..j];
    if SentFirst(buttons, order[..n], frame) {
      var j :| 0 <= j < n && SendsFrame(buttons, order[..n][j], frame) && NoAlias(buttons, order[..n][..j], frame);
      assert SendsFrame(buttons, order[j], frame) && NoAlias(buttons, order[..j], frame);
    }
  }

  lemma SentBeforeAlias(buttons: Buttons, order: seq<nat>, j: nat, frame: nat)
    requires j < |order| && NoAlias(buttons, order, frame)
    requires SendsFrame(buttons, order[j], frame) || Aliases(buttons, order[j], frame)
    ensures SentFirst(buttons, order, frame)
  {
    hide SendsFrame, Aliases;
    assert forall i :: 0 <= i < j ==> order[..j][i] == order[i];
    assert NoAlias(buttons, order[..j], frame);
  }

  lemma NothingSent(buttons: Buttons, order: seq<nat>, frame: nat)
    requires forall j :: 0 <= j < |order| ==> !SendsFrame(buttons, order[j], frame)
    ensures !SentFirst(buttons, order, frame)
  {
    hide SendsFrame, NoAlias;
  }

  lemma ClaimedFiles(buttons: Buttons, order: seq<nat>, index: BusIndex, frame: nat)
    requires AllLaidOut(buttons) && Lists(order, buttons) && Files(buttons, order, index)
    ensures Hit(buttons, index, Some(frame)).Some? <==> Claimed(buttons, frame)
    ensures IsSentBy(buttons, Hit(buttons, index, Some(frame)), frame) <==> SentFirst(buttons, order, frame)
    ensures Claimed(buttons, frame) ==> Sends(buttons, Hit(buttons, index, Some(frame)).value, frame)
  {
    hide AllLaidOut, SendsFrame, Aliases, FirstClaim, SentFirst;
    FirstClaimSends(buttons, order, frame);
    ClaimIsKey(buttons, order, frame);
    assert Lookup(index, frame) == FirstClaim(buttons, order, frame);
    SendersListed(buttons, order, frame);
  }

  lemma SendersListed(buttons: Buttons, order: seq<nat>, frame: nat)
    requires Lists(order, buttons)
    ensures Claimed(buttons, frame) <==>
      exists j :: 0 <= j < |order| && (SendsFrame(buttons, order[j], frame) || Aliases(buttons, order[j], frame))
  {
    if Claimed(buttons, frame) {
      var plate :| SendsFrame(buttons, plate, frame) || Aliases(buttons, plate, frame);
      assert plate in order;
    }
  }

  // ---- the paths before the index ------------------------------------------------------------------

  predicate SendsIndex(p: Plate, index: int) {
    exists key :: PlateNibble(p, key).Some? && PlateNibble(p, key) == IndexNibble(if index >= 4 then 8 else 4, index)
  }

  /** What a plate adds for the key it answers a record of its own address with, if it does. */
  function AnswerNibble(p: Plate, index: int): Option<nat> {
    if SendsIndex(p, index) then IndexNibble(if index >= 4 then 8 else 4, index)
    else if OwnLayoutType(p.deviceType) || RawToLabel(p.channels, index).None? then None
    else PlateNibble(p, RawToLabel(p.channels, index).value)
  }

  /** The same for an eight-key button asked for its sibling's address. */
  function SiblingNibbleOf(p: Plate, index: int): Option<nat> {
    if p.channels == 8 then PlateNibble(p, KeyOfIndex(8, index % 4 + 4)) else None
  }

  lemma NibbleBounds(p: Plate, key: Key, index: int)
    ensures PlateNibble(p, key).Some? ==> PlateNibble(p, key).value < 16
    ensures IndexNibble(if index >= 4 then 8 else 4, index).Some? ==> IndexNibble(if index >= 4 then 8 else 4, index).value < 16
  {
    hide Labels;
  }

  lemma SendsIndexed(buttons: Buttons, address: nat, index: int)
    requires address in buttons && LaidOut(address, buttons[address])
    ensures SendsIndex(buttons[address], index) <==>
      RecordBusAddress(address, index).Some? && SendsFrame(buttons, address, RecordBusAddress(address, index).value)
  {
    hide Convert, AddNibble, PlateNibble, Labels, IndexNibble;
    ConvertDefined(address);
    var p, base := buttons[address], Convert(address).value;
    var n := IndexNibble(if index >= 4 then 8 else 4, index);
    forall key | key in p.ops ensures n.Some? ==> (p.ops[key] == AddNibble(base, n.value) <==> PlateNibble(p, key) == n) {
      NibbleBounds(p, key, index);
      if n.Some? && PlateNibble(p, key) != n {
        NibblesApart(base, PlateNibble(p, key).value, n.value);
      }
    }
  }

  lemma PlateAnswers(buttons: Buttons, address: nat, index: int)
    requires address in buttons && LaidOut(address, buttons[address])
    ensures Convert(address).Some?
    ensures ByPlate(buttons, address, index).Some? <==> AnswerNibble(buttons[address], index).Some?
    ensures AnswerNibble(buttons[address], index).Some? ==>
      IsSentBy(buttons, ByPlate(buttons, address, index), AddNibble(Convert(address).value, AnswerNibble(buttons[address], index).value))
  {
    hide Convert, AddNibble, PlateNibble, Labels, IndexNibble, SendsIndex, RawToLabel;
    ConvertDefined(address);
    SendsIndexed(buttons, address, index);
    forall key ensures key in ALL_KEYS { AllKeysListed(key); }
  }

  lemma SiblingAnswers(buttons: Buttons, address: nat, index: int)
    requires AllLaidOut(buttons) && Before(address) in buttons
    ensures Convert(Before(address)).Some?
    ensures BySibling(buttons, address, index).Some? <==> SiblingNibbleOf(buttons[Before(address)], index).Some?
    ensures SiblingNibbleOf(buttons[Before(address)], index).Some? ==>
      IsSentBy(buttons, BySibling(buttons, address, index),
               AddNibble(Convert(Before(address)).value, SiblingNibbleOf(buttons[Before(address)], index).value))
  {
    hide Convert, AddNibble, PlateNibble, Labels, RawToLabel;
    assert LaidOut(Before(address), buttons[Before(address)]);
    ConvertDefined(Before(address));
    UpperRow(index % 4 + 4);
  }

  // ---- the exact condition -------------------------------------------------------------------------

  /** The numbers of logic outputs, in both spellings, and of the programming software's input banks:
      they begin with 38, with 6 and with 3CF. */
  predicate NoPlatesNumber(address: nat) {
    address / 0x10000 == 0x38 || address / 0x100000 == 6 || address / 0x1000 == 0x3CF
  }

  lemma VirtualNumbers(address: nat)
    ensures VirtualButton(address) <==> NoPlatesNumber(address)
  {
  }

  /** Whether a record filed under a frame finds a key that sends it: by the plate stored at the
      frame's own number, by the frame that record would mean there if the number is no plate's,
      by the eight-key button one below, or by the plates that send the frame. */
  ghost predicate FiledRight(buttons: Buttons, order: seq<nat>, frame: nat, index: int)
    requires frame < FRAMES
  {
    var meant := RecordBusAddress(frame, index);
    if frame in buttons && AnswerNibble(buttons[frame], index).Some? then
      frame == AddNibble(Convert(frame).value, AnswerNibble(buttons[frame], index).value)
    else if NoPlatesNumber(frame) && meant.Some? && Claimed(buttons, meant.value) then
      meant.value == if SentFirst(buttons, order, meant.value) then frame else (frame + 1) % FRAMES
    else if Before(frame) in buttons && SiblingNibbleOf(buttons[Before(frame)], index).Some? then
      frame == AddNibble(Convert(Before(frame)).value, SiblingNibbleOf(buttons[Before(frame)], index).value)
    else SentFirst(buttons, order, frame)
  }

  lemma MeantHit(buttons: Buttons, order: seq<nat>, index: BusIndex, meant: nat, frame: nat)
    requires AllLaidOut(buttons) && Lists(order, buttons) && Files(buttons, order, index) && Claimed(buttons, meant) && frame < FRAMES
    ensures IsSentBy(buttons, Hit(buttons, index, Some(meant)), frame) <==>
      meant == if SentFirst(buttons, order, meant) then frame else (frame + 1) % FRAMES
  {
    hide AllLaidOut, SentFirst, Claimed, Files;
    ClaimedFiles(buttons, order, index, meant);
    var hit := Hit(buttons, index, Some(meant)).value;
    KeyFrameOf(buttons, hit.0, hit.1);
    var own := buttons[hit.0].ops[hit.1];
    if (own + 1) % FRAMES == (frame + 1) % FRAMES {
      NextIsOwn(own, frame);
    }
  }

  lemma NextIsOwn(a: nat, b: nat)
    requires a < FRAMES && b < FRAMES && (a + 1) % FRAMES == (b + 1) % FRAMES
    ensures a == b
  {
  }

  /** A frame nobody sends is never resolved to a key that does. */
  lemma UnsentNeverRight(buttons: Buttons, hit: Option<(nat, Key)>, frame: nat)
    requires !Claimed(buttons, frame)
    ensures !IsSentBy(buttons, hit, frame)
  {
    if IsSentBy(buttons, hit, frame) {
      assert SendsFrame(buttons, hit.value.0, frame);
    }
  }

  lemma FirstIsClaimed(buttons: Buttons, order: seq<nat>, frame: nat)
    requires SentFirst(buttons, order, frame)
    ensures Claimed(buttons, frame)
  {
    hide SendsFrame, Aliases, NoAlias;
  }

  /** For every frame and key index, whatever is stored: a record filed under the frame resolves
      to a key that sends it if and only if the stored addresses meet the condition. */
  lemma FrameFiledExactly(buttons: Buttons, order: seq<nat>, busToOp: BusIndex, frame: nat, index: int)
    requires AllLaidOut(buttons) && Lists(order, buttons) && Files(buttons, order, busToOp) && frame < FRAMES
    ensures IsSentBy(buttons, Resolve(buttons, busToOp, frame, index), frame) <==> FiledRight(buttons, order, frame, index)
  {
    hide AllLaidOut, Lists, Files, RecordBusAddress, ByPlate, BySibling, ByConverted, Hit, AnswerNibble, SiblingNibbleOf, SentFirst, Claimed, VirtualButton,
      NoPlatesNumber;
    VirtualNumbers(frame);
    var meant := RecordBusAddress(frame, index);
    if frame in buttons {
      PlateAt(buttons, frame);
      PlateAnswers(buttons, frame, index);
    }
    if Before(frame) in buttons {
      SiblingAnswers(buttons, frame, index);
    }
    EarlyPaths(buttons, frame, index);
    if meant.Some? {
      ClaimedFiles(buttons, order, busToOp, meant.value);
      if Claimed(buttons, meant.value) {
        MeantHit(buttons, order, busToOp, meant.value, frame);
      }
    }
    NoHit(buttons, busToOp);
    ClaimedFiles(buttons, order, busToOp, frame);
    if !Claimed(buttons, frame) {
      UnsentNeverRight(buttons, Resolve(buttons, busToOp, frame, index), frame);
      if SentFirst(buttons, order, frame) {
        FirstIsClaimed(buttons, order, frame);
      }
    }
  }

  lemma PlateAt(buttons: Buttons, plate: nat)
    requires AllLaidOut(buttons) && plate in buttons
    ensures LaidOut(plate, buttons[plate])
  {
    hide LaidOut;
  }

  lemma EarlyPaths(buttons: Buttons, address: nat, index: int)
    ensures address !in buttons ==> ByPlate(buttons, address, index).None?
    ensures Before(address) !in buttons ==> BySibling(buttons, address, index).None?
  {
    hide RecordBusAddress, RawToLabel, Stored;
  }

  lemma NoHit(buttons: Buttons, index: BusIndex)
    ensures Hit(buttons, index, None).None?
  {
  }

  /** The number reads, reversed, as a frame with the same last five digits, or the next, or the
      number before it does. */
  predicate Mirrored(frame: nat)
    requires frame < FRAMES
  {
    Convert(frame).value % 0x100000 == frame % 0x100000 || Convert(frame).value % 0x100000 == (frame + 1) % FRAMES % 0x100000
    || Convert(Before(frame)).value % 0x100000 == frame % 0x100000
  }

  /** Any other frame is filed right exactly when no plate with that number and no eight-key
      button with the number below answers, the number is not a virtual button's with a stored
      key, and no eight-key button that sends the frame before is filed before a plate that sends
      it. */
  lemma PlainFrameFiledExactly(buttons: Buttons, order: seq<nat>, busToOp: BusIndex, frame: nat, index: int)
    requires AllLaidOut(buttons) && Lists(order, buttons) && Files(buttons, order, busToOp) && frame < FRAMES && !Mirrored(frame)
    ensures IsSentBy(buttons, Resolve(buttons, busToOp, frame, index), frame) <==>
      && SentFirst(buttons, order, frame)
      && (frame in buttons ==> AnswerNibble(buttons[frame], index).None?)
      && (NoPlatesNumber(frame) && RecordBusAddress(frame, index).Some? ==> !Claimed(buttons, RecordBusAddress(frame, index).value))
      && (Before(frame) in buttons ==> SiblingNibbleOf(buttons[Before(frame)], index).None?)
  {
    hide AllLaidOut, Lists, Files, Resolve, AnswerNibble, SiblingNibbleOf, SentFirst, Claimed, IsSentBy, NoPlatesNumber, Convert, IndexNibble, AddNibble;
    FrameFiledExactly(buttons, order, busToOp, frame, index);
    ConvertDefined(frame);
    ConvertDefined(Before(frame));
    forall n: nat
      ensures AddNibble(Convert(frame).value, n) % 0x100000 == Convert(frame).value % 0x100000
      ensures AddNibble(Convert(Before(frame)).value, n) % 0x100000 == Convert(Before(frame)).value % 0x100000
    {
      LowPart(Convert(frame).value, n);
      LowPart(Convert(Before(frame)).value, n);
    }
  }

  /** A frame whose first digit is 8 or more is no plate's number. */
  lemma HighFrame(buttons: Buttons, frame: nat)
    requires AllLaidOut(buttons) && 0x800000 <= frame < FRAMES
    ensures frame !in buttons && Before(frame) !in buttons && !VirtualButton(frame)
  {
    LowPlates(buttons);
  }

  lemma LowPlates(buttons: Buttons)
    requires AllLaidOut(buttons)
    ensures forall p :: p in buttons ==> p < PLATES
  {
    hide LaidOut;
    forall p | p in buttons ensures p < PLATES { LaidOutPlate(p, buttons[p]); }
  }

  /** It is filed right exactly when no alias comes first. */
  lemma HighFrameFiledExactly(buttons: Buttons, order: seq<nat>, busToOp: BusIndex, frame: nat, index: int)
    requires AllLaidOut(buttons) && Lists(order, buttons) && Files(buttons, order, busToOp) && 0x800000 <= frame < FRAMES
    ensures IsSentBy(buttons, Resolve(buttons, busToOp, frame, index), frame) <==> SentFirst(buttons, order, frame)
  {
    hide AllLaidOut, Lists, Files, Resolve, SentFirst, IsSentBy, VirtualButton, NoPlatesNumber;
    FrameFiledExactly(buttons, order, busToOp, frame, index);
    HighFrame(buttons, frame);
    VirtualNumbers(frame);
  }

  // ---- records filed under an address --------------------------------------------------------------

  /** Whether a record filed under an address finds a key that sends the frame its module listens
      for: by the plate of that address, the frame if the address is a virtual button's, the
      eight-key button one below, the plates that send the address itself as a frame, or those
      that send the frame. */
  ghost predicate AddressRight(buttons: Buttons, order: seq<nat>, address: nat, index: int)
    requires address < FRAMES && RecordBusAddress(address, index).Some?
  {
    var frame := RecordBusAddress(address, index).value;
    if address in buttons && AnswerNibble(buttons[address], index).Some? then SendsIndex(buttons[address], index)
    else if NoPlatesNumber(address) && Claimed(buttons, frame) then SentFirst(buttons, order, frame)
    else if Before(address) in buttons && SiblingNibbleOf(buttons[Before(address)], index).Some? then
      frame == AddNibble(Convert(Before(address)).value, SiblingNibbleOf(buttons[Before(address)], index).value)
    else if Claimed(buttons, address) then frame == if SentFirst(buttons, order, address) then address else Before(address)
    else SentFirst(buttons, order, frame)
  }

  /** For every address and key index, whatever is stored: a record filed under the address, as
      those of plates whose channel count is not known and controllers' copies are, is filed right
      if and only if the stored addresses meet the condition. */
  lemma AddressFiledExactly(buttons: Buttons, order: seq<nat>, busToOp: BusIndex, address: nat, index: int)
    requires AllLaidOut(buttons) && Lists(order, buttons) && Files(buttons, order, busToOp)
    requires address < FRAMES && RecordBusAddress(address, index).Some?
    ensures AgreesWithWire(buttons, busToOp, address, index) <==> AddressRight(buttons, order, address, index)
  {
    hide AllLaidOut, Lists, Files, RecordBusAddress, ByPlate, BySibling, ByConverted, Hit, SiblingNibbleOf, SentFirst, Claimed, VirtualButton, AnswerNibble,
      SendsIndex, NoPlatesNumber;
    VirtualNumbers(address);
    var frame := RecordBusAddress(address, index).value;
    EarlyPaths(buttons, address, index);
    if address in buttons {
      PlateAt(buttons, address);
      PlateAnswers(buttons, address, index);
      if AnswerNibble(buttons[address], index).Some? {
        AnswersRightly(buttons[address], address, index);
      }
    }
    if Before(address) in buttons {
      SiblingAnswers(buttons, address, index);
    }
    ClaimedFiles(buttons, order, busToOp, frame);
    ClaimedFiles(buttons, order, busToOp, address);
    if Claimed(buttons, address) {
      AddressHit(buttons, order, busToOp, address, frame);
    }
    if !Claimed(buttons, frame) {
      UnsentNeverRight(buttons, Resolve(buttons, busToOp, address, index), frame);
      if SentFirst(buttons, order, frame) {
        FirstIsClaimed(buttons, order, frame);
      }
    }
  }

  /** A plate answers with the frame of the record exactly when a key of its layout sends it. */
  lemma AnswersRightly(p: Plate, address: nat, index: int)
    requires address < FRAMES && RecordBusAddress(address, index).Some? && AnswerNibble(p, index).Some?
    ensures Convert(address).Some?
    ensures RecordBusAddress(address, index).value == AddNibble(Convert(address).value, AnswerNibble(p, index).value) <==> SendsIndex(p, index)
  {
    hide Convert, AddNibble, PlateNibble, RawToLabel, IndexNibble;
    ConvertDefined(address);
    if !SendsIndex(p, index) {
      var key := RawToLabel(p.channels, index).value;
      assert PlateNibble(p, key) != IndexNibble(if index >= 4 then 8 else 4, index);
      NibbleBounds(p, key, index);
      NibblesApart(Convert(address).value, IndexNibble(if index >= 4 then 8 else 4, index).value, PlateNibble(p, key).value);
    }
  }

  lemma AddressHit(buttons: Buttons, order: seq<nat>, index: BusIndex, address: nat, frame: nat)
    requires AllLaidOut(buttons) && Lists(order, buttons) && Files(buttons, order, index) && Claimed(buttons, address) && address < FRAMES
    ensures IsSentBy(buttons, Hit(buttons, index, Some(address)), frame) <==>
      frame == if SentFirst(buttons, order, address) then address else Before(address)
  {
    hide AllLaidOut, SentFirst, Claimed, Files, Lists;
    ClaimedFiles(buttons, order, index, address);
    var hit := Hit(buttons, index, Some(address)).value;
    KeyFrameOf(buttons, hit.0, hit.1);
    var own := buttons[hit.0].ops[hit.1];
    if own != address {
      BeforeNext(own);
    }
  }

  lemma BeforeNext(frame: nat)
    requires frame < FRAMES
    ensures Before((frame + 1) % FRAMES) == frame
  {
  }

  // ---- what a scan files ---------------------------------------------------------------------------

  /** The record, as a scan files it, resolves to a key that sends the frame its module listens
      for. */
  predicate ScannedRight(buttons: Buttons, busToOp: BusIndex, plate: nat, index: int)
    requires plate < FRAMES
  {
    var meant := RecordBusAddress(plate, index);
    meant.Some? && IsSentBy(buttons, Resolve(buttons, busToOp, Spelled(buttons, plate, index), index), meant.value)
  }

  lemma SpelledAs(buttons: Buttons, plate: nat, index: int)
    requires plate < FRAMES
    ensures var known := plate in buttons && IndexNibble(buttons[plate].channels, index).Some?;
      && (known ==> RecordBusAddress(plate, index) == Some(Spelled(buttons, plate, index)))
      && (!known ==> Spelled(buttons, plate, index) == plate)
  {
    hide Convert, AddNibble, IndexNibble;
    ConvertDefined(plate);
    if plate in buttons && IndexNibble(buttons[plate].channels, index).Some? {
      TablesAgree(buttons[plate].channels, index);
    }
  }

  /** Index 1 and 3 make the first digit 8 or more. */
  lemma OddIndexIsHigh(plate: nat, index: int)
    requires plate < PLATES && (index == 1 || index == 3)
    ensures RecordBusAddress(plate, index).Some? && 0x800000 <= RecordBusAddress(plate, index).value < FRAMES
  {
    hide Rev, Convert, AddNibble;
    ConvertReverses(plate);
    HighSum(Convert(plate).value, if index == 1 then 8 else 0xC);
  }

  lemma HighSum(frame: nat, n: nat)
    requires frame < PLATES && 8 <= n <= 0xC
    ensures 0x800000 <= AddNibble(frame, n) < FRAMES
  {
    var q := frame / 0x100000;
    assert q < 4 && (q + n) % 16 == q + n >= 8;
  }

  /** In every state of every history, a scanned record is filed under the frame its module
      listens for if its plate is stored and its index in the table of the plate's channel count,
      and else under the plate's address; it is filed right exactly when the stored addresses meet
      the condition. For index 1 and 3 of a stored plate that is that no alias comes first. */
  lemma ScannedFiledExactly(stores: seq<Buttons>, es: seq<StoreEvent>, n: nat, order: seq<nat>, busToOp: BusIndex, plate: nat, index: int)
    requires IsHistory(stores, es) && n <= |es| && PlainPlates(Reported(es, n))
    requires Lists(order, stores[n]) && Files(stores[n], order, busToOp) && plate < FRAMES && RecordBusAddress(plate, index).Some?
    ensures var buttons, frame := stores[n], RecordBusAddress(plate, index).value;
      if plate in buttons && IndexNibble(buttons[plate].channels, index).Some? then
        && Spelled(buttons, plate, index) == frame
        && (ScannedRight(buttons, busToOp, plate, index) <==> FiledRight(buttons, order, frame, index))
        && (index == 1 || index == 3 ==> (ScannedRight(buttons, busToOp, plate, index) <==> SentFirst(buttons, order, frame)))
      else
        && Spelled(buttons, plate, index) == plate
        && (ScannedRight(buttons, busToOp, plate, index) <==> AddressRight(buttons, order, plate, index))
  {
    hide Happens, PlainPlates, Files, Lists, LaidOut, Resolve, FiledRight, SentFirst, FromDevices, AddressRight, RecordBusAddress;
    HistoryLaysOut(stores, es, n);
    SpelledAs(stores[n], plate, index);
    var frame := RecordBusAddress(plate, index).value;
    if plate in stores[n] && IndexNibble(stores[n][plate].channels, index).Some? {
      FrameFiledExactly(stores[n], order, busToOp, frame, index);
      if index == 1 || index == 3 {
        LowPlates(stores[n]);
        OddIndexIsHigh(plate, index);
        HighFrameFiledExactly(stores[n], order, busToOp, frame, index);
      }
    } else {
      AddressFiledExactly(stores[n], order, busToOp, plate, index);
    }
  }

  lemma LaidOutPlate(address: nat, p: Plate)
    requires LaidOut(address, p)
    ensures address < PLATES && Labels(p.channels) != []
  {
    hide Labels, Convert;
  }

  // ---- an eight-key button in front ----------------------------------------------------------------

  /** The address 0x200000 above converts to the next frame. */
  lemma PlateAbove(plate: nat)
    requires plate < 0x200000
    ensures Convert(plate).Some? && Convert(plate + 0x200000) == Some(Convert(plate).value + 1) && Convert(plate).value % 2 == 0
  {
    hide Rev;
    Pow2Values();
    RevLow(plate, 21);
    RevLow(plate + 0x200000, 21);
  }

  lemma NextNibble(frame: nat, n: nat)
    requires frame % 2 == 0
    ensures (AddNibble(frame, n) + 1) % FRAMES == AddNibble(frame + 1, n)
  {
    var q, r := frame / 0x100000, frame % 0x100000;
    EvenRest(frame);
    DivModUnique(frame + 1, 0x100000, q, r + 1);
  }

  lemma EvenRest(frame: nat)
    requires frame % 2 == 0
    ensures frame % 0x100000 + 1 < 0x100000
  {
    var half, q, r := frame / 2, frame / 0x100000, frame % 0x100000;
    assert frame == 2 * half && frame == q * 0x100000 + r;
    var x := half - q * 0x80000;
    assert r == 2 * x;
  }

  lemma EightKeysCover(p: Plate, n: nat) returns (key: Key)
    requires p.channels == 8 && !OwnLayoutType(p.deviceType) && n < 16 && n % 2 == 0
    ensures PlateNibble(p, key) == Some(n)
  {
    key := if n == 0 then Key2C else if n == 2 then Key1C else if n == 4 then Key2D else if n == 6 then Key1D
      else if n == 8 then Key2A else if n == 10 then Key1A else if n == 12 then Key2B else Key1B;
    LabelsOf(8, key);
  }

  /** An eight-key button claims every frame scanned for the plate 0x200000 above it. */
  lemma EightKeysAlias(buttons: Buttons, plate: nat, index: int)
    requires AllLaidOut(buttons) && plate in buttons && plate < 0x200000 && plate + 0x200000 in buttons
    requires buttons[plate].channels == 8 && !OwnLayoutType(buttons[plate].deviceType)
    requires IndexNibble(buttons[plate + 0x200000].channels, index).Some?
    ensures Aliases(buttons, plate, Spelled(buttons, plate + 0x200000, index))
  {
    hide Convert, AddNibble, PlateNibble, Labels, AllLaidOut;
    PlateAt(buttons, plate);
    PlateAbove(plate);
    var base, n := Convert(plate).value, IndexNibble(buttons[plate + 0x200000].channels, index).value;
    NextNibble(base, n);
    assert n < 16 && n % 2 == 0;
    var key := EightKeysCover(buttons[plate], n);
    assert buttons[plate].ops[key] == AddNibble(base, n);
  }

  lemma ClaimedFirst(buttons: Buttons, order: seq<nat>, busToOp: BusIndex, frame: nat, index: int)
    requires AllLaidOut(buttons) && Lists(order, buttons) && Files(buttons, order, busToOp) && 0x800000 <= frame < FRAMES
    requires order != [] && ClaimAt(buttons, order[0], ALL_KEYS, frame).Some?
    ensures Resolve(buttons, busToOp, frame, index) == ClaimAt(buttons, order[0], ALL_KEYS, frame)
  {
    hide AllLaidOut, Lists, ClaimAt, RecordBusAddress, ByConverted, VirtualButton;
    HighFrame(buttons, frame);
    EarlyPaths(buttons, frame, index);
    FirstIsFirst(buttons, order, frame);
    assert Lookup(busToOp, frame) == FirstClaim(buttons, order, frame);
    ClaimIsKey(buttons, order, frame);
  }

  lemma {:induction false} FirstIsFirst(buttons: Buttons, order: seq<nat>, frame: nat)
    requires order != [] && ClaimAt(buttons, order[0], ALL_KEYS, frame).Some?
    ensures FirstClaim(buttons, order, frame) == ClaimAt(buttons, order[0], ALL_KEYS, frame)
  {
    hide ClaimAt;
    if |order| > 1 {
      FirstIsFirst(buttons, order[..|order| - 1], frame);
    } else {
      assert order[..0] == [];
    }
  }

  const EIGHT: Device := Device(0, 8, 0x12, false)
  const FOUR: Device := Device(0x200000, 4, 0x06, false)

  /** An inventory of two plates: with the eight-key one first, the record of index 1 of the other
      is filed under frame 800001 and lands on the first. */
  lemma AliasMisfiles(busToOp: BusIndex) returns (stores: seq<Buttons>, es: seq<StoreEvent>)
    requires var buttons := MergeDevices(map[], [EIGHT, FOUR]); Files(buttons, [0, 0x200000], busToOp)
    ensures IsHistory(stores, es) && es == [Inventory([EIGHT, FOUR])] && PlainPlates(Reported(es, 1)) && Lists([0, 0x200000], stores[1])
    ensures Files(stores[1], [0, 0x200000], busToOp)
    ensures Spelled(stores[1], 0x200000, 1) == 0x800001 && !ScannedRight(stores[1], busToOp, 0x200000, 1)
    ensures var r := Resolve(stores[1], busToOp, 0x800001, 1); r.Some? && r.value.0 == 0
  {
    hide Files, Lists, IsHistory, PlainPlates, Spelled, AllLaidOut, MergeDevices, Resolve, ScannedRight, SentFirst;
    stores, es := TwoPlates();
    var buttons, order := stores[1], [0, 0x200000];
    HistoryLaysOut(stores, es, 1);
    AliasAnswers(buttons, order, busToOp);
    ScannedFiledExactly(stores, es, 1, order, busToOp, 0x200000, 1);
  }

  /** The history of that inventory. */
  lemma TwoPlates() returns (stores: seq<Buttons>, es: seq<StoreEvent>)
    ensures |stores| == 2 && IsHistory(stores, es) && es == [Inventory([EIGHT, FOUR])] && PlainPlates(Reported(es, 1))
    ensures stores[1] == MergeDevices(map[], [EIGHT, FOUR]) && Lists([0, 0x200000], stores[1])
    ensures stores[1].Keys == {0, 0x200000} && IsFresh(stores[1][0], EIGHT) && IsFresh(stores[1][0x200000], FOUR)
  {
    hide MergeDevices;
    es := [Inventory([EIGHT, FOUR])];
    stores := [map[], MergeDevices(map[], [EIGHT, FOUR])];
    assert Reported(es, 1) == [EIGHT, FOUR];
    FourLabels();
    TwoDevices(EIGHT, FOUR);
  }

  /** With the eight-key plate first, it answers for the other's frame. */
  lemma AliasAnswers(buttons: Buttons, order: seq<nat>, busToOp: BusIndex)
    requires AllLaidOut(buttons) && order == [0, 0x200000] && Lists(order, buttons) && Files(buttons, order, busToOp)
    requires IsFresh(buttons[0], EIGHT) && IsFresh(buttons[0x200000], FOUR)
    ensures Spelled(buttons, 0x200000, 1) == 0x800001 && RecordBusAddress(0x200000, 1) == Some(0x800001)
    ensures 0x200000 in buttons && IndexNibble(buttons[0x200000].channels, 1).Some? && !SentFirst(buttons, order, 0x800001)
    ensures var r := Resolve(buttons, busToOp, 0x800001, 1); r.Some? && r.value.0 == 0
  {
    hide Files, AllLaidOut, Resolve, ClaimAt, SendsFrame, Aliases, Convert, SentFirst;
    assert order[0] == 0 && order[1] == 0x200000;
    FirstFrames();
    SpelledAs(buttons, 0x200000, 1);
    EightKeysAlias(buttons, 0, 1);
    NotSentFirst(buttons, order, 0x800001);
    ClaimAtPlate(buttons, 0, 0x800001);
    ClaimedFirst(buttons, order, busToOp, 0x800001, 1);
    ClaimsItself(buttons, 0, 0x800001);
  }

  lemma ClaimsItself(buttons: Buttons, plate: nat, frame: nat)
    ensures ClaimAt(buttons, plate, ALL_KEYS, frame).Some? ==> ClaimAt(buttons, plate, ALL_KEYS, frame).value.0 == plate
  {
  }

  lemma NotSentFirst(buttons: Buttons, order: seq<nat>, frame: nat)
    requires AllLaidOut(buttons) && order != [] && Aliases(buttons, order[0], frame)
    ensures !SentFirst(buttons, order, frame)
  {
    hide AllLaidOut, SendsFrame, Aliases;
    if SendsFrame(buttons, order[0], frame) {
      SendsOrAliases(buttons, order[0], frame);
    }
    forall j | 0 < j < |order| ensures !NoAlias(buttons, order[..j], frame) {
      assert order[..j][0] == order[0];
    }
  }

  lemma FourLabels()
    ensures Labels(2) != [] && Labels(4) != [] && Labels(8) != []
  {
  }

  lemma FirstFrames()
    ensures RecordBusAddress(0x200000, 1) == Some(0x800001)
    ensures RecordBusAddress(0, 1) == Some(0x800000)
  {
    hide Convert, RecordBusAddress;
    ConvertsZero();
    PlateAbove(0);
    FrameOfFirst(0, 0);
    FrameOfFirst(0x200000, 1);
  }

  lemma FrameOfFirst(plate: nat, converted: nat)
    requires Convert(plate) == Some(converted) && converted < 0x100000
    ensures RecordBusAddress(plate, 1) == Some(0x800000 + converted)
  {
    hide Convert;
  }

  lemma ConvertsZero()
    ensures Convert(0) == Some(0)
  {
    hide Rev;
    RevOfZero(21);
  }

  lemma TwoDevices(d: Device, e: Device)
    requires d.address < FRAMES && e.address < FRAMES && d.address != e.address && Labels(d.channels) != [] && Labels(e.channels) != []
    ensures var buttons := MergeDevices(map[], [d, e]);
      && buttons.Keys == {d.address, e.address}
      && IsFresh(buttons[d.address], d) && IsFresh(buttons[e.address], e)
  {
    hide Labels, MergeDevice, IsFresh;
    OneDevice(d);
    assert [d, e][..1] == [d];
    MergesFresh(MergeDevices(map[], [d]), e);
    OthersStay(MergeDevices(map[], [d]), e);
    FreshEntry(d);
  }

  predicate IsFresh(p: Plate, d: Device) {
    p.channels == d.channels && p.keyLayout == None && p.deviceType == if KeepsType(d) then Some(d.deviceType) else None
  }

  lemma FreshEntry(d: Device)
    requires d.address < FRAMES && Labels(d.channels) != []
    ensures MergeDevices(map[], [d]).Keys == {d.address} && IsFresh(MergeDevices(map[], [d])[d.address], d)
  {
    hide Labels, MergeDevices;
    OneDevice(d);
  }

  lemma MergesFresh(buttons: Buttons, d: Device)
    requires d.address < FRAMES && Labels(d.channels) != [] && d.address !in buttons
    ensures d.address in MergeDevice(buttons, d) && IsFresh(MergeDevice(buttons, d)[d.address], d)
  {
    hide Labels, NewOps, Convert;
  }

  // ---- records whose frame nobody sends ------------------------------------------------------------

  predicate TableAnswers(p: Plate, index: int) {
    RawToLabel(p.channels, index).Some? && PlateNibble(p, RawToLabel(p.channels, index).value).Some?
  }

  /** A plate is stored at the converted address, or an eight-key button at that of the address
      below, and has a key for the index. */
  predicate ConvertedAnswers(buttons: Buttons, address: nat, index: int)
    requires address < FRAMES
  {
    var converted, below := Convert(address).value, Convert(Before(address)).value;
    && converted != address
    && ((converted in buttons && TableAnswers(buttons[converted], index))
        || (below in buttons && SiblingNibbleOf(buttons[below], index).Some?))
  }

  lemma ConvertedIsExact(buttons: Buttons, address: nat, index: int)
    requires AllLaidOut(buttons) && address < FRAMES
    ensures ByConverted(buttons, address, index).Some? <==> ConvertedAnswers(buttons, address, index)
    ensures ByConverted(buttons, address, index).Some? ==>
      var plate := ByConverted(buttons, address, index).value.0; plate == Convert(address).value || plate == Convert(Before(address)).value
  {
    hide Convert, PlateNibble, Labels, RawToLabel;
    ConvertDefined(address);
    ConvertDefined(Before(address));
    UpperRow(index % 4 + 4);
    var converted, below := Convert(address).value, Convert(Before(address)).value;
    if converted in buttons { assert LaidOut(converted, buttons[converted]); }
    if below in buttons { assert LaidOut(below, buttons[below]); }
  }

  /** What becomes of a record under a frame no plate is numbered by. It is dropped exactly when
      nobody claims the frame, nobody claims the frame it would mean as an address, and no plate
      answers at the converted address. If nobody claims the frame and it is not dropped it is
      filed on a key that sends another, and unless by the frame meant, on a plate at the converted
      address or the eight-key button at the one below. */
  lemma HighFrameFate(buttons: Buttons, order: seq<nat>, busToOp: BusIndex, frame: nat, index: int)
    requires AllLaidOut(buttons) && Lists(order, buttons) && Files(buttons, order, busToOp) && 0x800000 <= frame < FRAMES
    ensures var r, meant := Resolve(buttons, busToOp, frame, index), RecordBusAddress(frame, index);
      && (r.None? <==> !Claimed(buttons, frame) && (meant.Some? ==> !Claimed(buttons, meant.value)) && !ConvertedAnswers(buttons, frame, index))
      && (!Claimed(buttons, frame) ==> !IsSentBy(buttons, r, frame))
      && (!Claimed(buttons, frame) && (meant.Some? ==> !Claimed(buttons, meant.value)) && r.Some? ==>
            r.value.0 == Convert(frame).value || r.value.0 == Convert(Before(frame)).value)
  {
    hide AllLaidOut, Lists, Files, RecordBusAddress, ByPlate, BySibling, ByConverted, Hit, ConvertedAnswers, Claimed, IsSentBy, VirtualButton;
    HighFrame(buttons, frame);
    EarlyPaths(buttons, frame, index);
    ConvertedIsExact(buttons, frame, index);
    ConvertDefined(frame);
    ConvertDefined(Before(frame));
    NoHit(buttons, busToOp);
    ClaimedFiles(buttons, order, busToOp, frame);
    if RecordBusAddress(frame, index).Some? {
      ClaimedFiles(buttons, order, busToOp, RecordBusAddress(frame, index).value);
    }
    if !Claimed(buttons, frame) {
      UnsentNeverRight(buttons, Resolve(buttons, busToOp, frame, index), frame);
    }
  }

  // ---- two-button plates ---------------------------------------------------------------------------

  /** After the settling, a scanned record of index 1 or 3 of a two-button plate is filed right
      exactly when a plate that sends its frame comes before every alias of it; its own plate sends
      the frame exactly when it did not start in the right-pair layout or its records use no index
      but 1 and 3. */
  lemma TwoButtonScannedExactly(before: Buttons, after: Buttons, order: seq<nat>, busToOp: BusIndex, records: seq<KeyRecord>, plate: nat, index: int)
    requires plate in before && LaidOut(plate, before[plate]) && HasPerPlateLayout(before[plate])
    requires plate in after && after[plate] == Settled(plate, before[plate], Indices(records, plate))
    requires AllLaidOut(after) && Lists(order, after) && Files(after, order, busToOp)
    requires index in Indices(records, plate) && (index == 1 || index == 3)
    ensures RecordBusAddress(plate, index) == Some(Spelled(after, plate, index)) && 0x800000 <= Spelled(after, plate, index) < FRAMES
    ensures ScannedRight(after, busToOp, plate, index) <==> SentFirst(after, order, Spelled(after, plate, index))
    ensures SendsFrame(after, plate, Spelled(after, plate, index)) <==>
      (before[plate].keyLayout == Some(RightPair) ==> UsesOnly(Indices(records, plate), Generic))
  {
    hide LaidOut, AllLaidOut, Lists, Files, Resolve, Indices, UsesOnly, Spelled, RecordBusAddress, SentFirst, SendsFrame, Convert;
    PlateAt(after, plate);
    LaidOutPlate(plate, after[plate]);
    LayoutAfter(plate, before[plate], Indices(records, plate), index);
    SpelledAs(after, plate, index);
    OddIndexIsHigh(plate, index);
    HighFrameFiledExactly(after, order, busToOp, Spelled(after, plate, index), index);
    OwnFrameSent(after, plate, index);
  }

  lemma LayoutAfter(address: nat, p: Plate, indices: set<int>, index: int)
    requires address < FRAMES && HasPerPlateLayout(p) && index in indices && (index == 1 || index == 3)
    ensures HasPerPlateLayout(Settled(address, p, indices))
    ensures Settled(address, p, indices).keyLayout != Some(RightPair) <==> (p.keyLayout == Some(RightPair) ==> UsesOnly(indices, Generic))
  {
    hide Convert, AddNibble;
    assert !UsesOnly(indices, RightPair);
  }

  lemma OwnFrameSent(buttons: Buttons, plate: nat, index: int)
    requires plate in buttons && LaidOut(plate, buttons[plate]) && HasPerPlateLayout(buttons[plate]) && (index == 1 || index == 3)
    ensures RecordBusAddress(plate, index).Some?
    ensures SendsFrame(buttons, plate, RecordBusAddress(plate, index).value) <==> buttons[plate].keyLayout != Some(RightPair)
  {
    hide Convert, AddNibble, SendsFrame;
    ConvertDefined(plate);
    SendsIndexed(buttons, plate, index);
    LabelsOf(2, Key1A);
    LabelsOf(2, Key1B);
    var p := buttons[plate];
    assert PlateNibble(p, Key1A).Some? && PlateNibble(p, Key1B).Some?;
  }

  lemma ConvertsToFour()
    ensures Convert(0x800000) == Some(4) && Convert(0) == Some(0) && Convert(4) == Some(0x80000)
    ensures Convert(0x7FFFFF).Some? && Convert(0x7FFFFF).value % 2 == 1
  {
    hide Rev;
    Pow2Values();
    RevLow(0x800000, 21);
    RevOfZero(21);
    RevSplit(1, 0, 19, 2);
    RevOfZero(2);
    RevSplit(0, 1, 18, 1);
    RevOfZero(18);
    RevOne(1);
    assert Pow2(1) == 2 && Pow2(18) == 0x40000;
  }

  /** A frame with other last digits is nobody's. */
  lemma NotClaimedAt(buttons: Buttons, plate: nat, frame: nat)
    requires AllLaidOut(buttons) && plate in buttons && buttons[plate].channels != 8
    requires Convert(plate).Some? ==> Convert(plate).value % 0x100000 != frame % 0x100000
    ensures !SendsFrame(buttons, plate, frame) && !Aliases(buttons, plate, frame)
  {
    hide AllLaidOut, Convert;
    forall key | key in buttons[plate].ops ensures buttons[plate].ops[key] != frame {
      KeyFrameOf(buttons, plate, key);
    }
  }

  lemma NobodyClaims(buttons: Buttons, frame: nat)
    requires forall p :: p in buttons ==> !SendsFrame(buttons, p, frame) && !Aliases(buttons, p, frame)
    ensures !Claimed(buttons, frame)
  {
  }

  /** Plate 0 in the right-pair layout, alone or with a four-key plate 4: nobody claims the frame
      of a scanned record of index 1, or the frame it would mean as an address. */
  lemma NobodySends(buttons: Buttons)
    requires AllLaidOut(buttons) && 0 in buttons && HasPerPlateLayout(buttons[0]) && buttons[0].keyLayout == Some(RightPair)
    requires forall p :: p in buttons ==> p == 0 || (p == 4 && buttons[p].channels == 4)
    ensures Spelled(buttons, 0, 1) == 0x800000 && RecordBusAddress(0x800000, 1) == Some(0x800004)
    ensures !Claimed(buttons, 0x800000) && !Claimed(buttons, 0x800004)
  {
    hide AllLaidOut, Claimed, SendsFrame, Aliases, Convert, RecordBusAddress, Spelled;
    ConvertsToFour();
    FirstFrames();
    MeantByFirst();
    SpelledAs(buttons, 0, 1);
    PlateAt(buttons, 0);
    OwnFrameSent(buttons, 0, 1);
    TwoButtonsNeverAlias(buttons, 0, 0x800000);
    NotClaimedAt(buttons, 0, 0x800004);
    if 4 in buttons {
      NotClaimedAt(buttons, 4, 0x800000);
      NotClaimedAt(buttons, 4, 0x800004);
    }
    NobodyClaims(buttons, 0x800000);
    NobodyClaims(buttons, 0x800004);
  }

  lemma MeantByFirst()
    ensures RecordBusAddress(0x800000, 1) == Some(0x800004)
  {
    hide Convert;
    ConvertsToFour();
  }

  lemma TwoButtonsNeverAlias(buttons: Buttons, plate: nat, frame: nat)
    requires plate in buttons && buttons[plate].channels != 8
    ensures !Aliases(buttons, plate, frame)
  {
  }

  /** The store of a plate whose records use both families: the scanned record of index 1 is filed
      under frame 800000, which nobody sends, and dropped. */
  lemma MixedScannedDropped(busToOp: BusIndex) returns (stores: seq<Buttons>, es: seq<StoreEvent>)
    ensures IsHistory(stores, es) && es == [Inventory([Device(0, 2, 0x04, false)]), Settling(SWITCHED), Settling(MIXED)]
    ensures stores[3].Keys == {0} && Spelled(stores[3], 0, 1) == 0x800000 && 1 in Indices(MIXED, 0)
    ensures Files(stores[3], [0], busToOp) ==> Resolve(stores[3], busToOp, 0x800000, 1) == None
  {
    hide Resolve, LaidOut, Files, Happens, Claimed, Convert, Indices, MergeDevices, Labels, UsesOnly, LayoutShown;
    var d := Device(0, 2, 0x04, false);
    FourLabels();
    OneDevice(d);
    IndicesShown();
    stores, es := MixedHistory([d]);
    HistoryLaysOut(stores, es, 3);
    NobodySends(stores[3]);
    if Files(stores[3], [0], busToOp) {
      assert [0 as nat][0] == 0;
      ConvertsToFour();
      HighFrameFate(stores[3], [0], busToOp, 0x800000, 1);
    }
  }

  /** With a four-key plate at address 4 in the inventory it is filed on that plate's key 1A. */
  lemma MixedScannedMisfiled(busToOp: BusIndex) returns (stores: seq<Buttons>, es: seq<StoreEvent>)
    ensures IsHistory(stores, es)
    ensures es == [Inventory([Device(0, 2, 0x04, false), Device(4, 4, 0x06, false)]), Settling(SWITCHED), Settling(MIXED)]
    ensures stores[3].Keys == {0, 4} && Spelled(stores[3], 0, 1) == 0x800000 && 1 in Indices(MIXED, 0)
    ensures Files(stores[3], [0, 4], busToOp) ==> Resolve(stores[3], busToOp, 0x800000, 1) == Some((4, Key1A))
  {
    hide Resolve, LaidOut, Files, Happens, Claimed, Convert, Indices, MergeDevices, Labels, UsesOnly, LayoutShown;
    var d, e := Device(0, 2, 0x04, false), Device(4, 4, 0x06, false);
    FourLabels();
    TwoDevices(d, e);
    IndicesShown();
    stores, es := MixedHistory([d, e]);
    HistoryLaysOut(stores, es, 3);
    NobodySends(stores[3]);
    if Files(stores[3], [0, 4], busToOp) {
      assert [0 as nat, 4][0] == 0 && [0 as nat, 4][1] == 4;
      OnKey1A(stores[3], busToOp);
    }
  }

  lemma OnKey1A(buttons: Buttons, busToOp: BusIndex)
    requires AllLaidOut(buttons) && Lists([0, 4], buttons) && Files(buttons, [0, 4], busToOp)
    requires 4 in buttons && buttons[4].channels == 4 && buttons[4].deviceType == None
    requires RecordBusAddress(0x800000, 1) == Some(0x800004) && !Claimed(buttons, 0x800000) && !Claimed(buttons, 0x800004)
    ensures Resolve(buttons, busToOp, 0x800000, 1) == Some((4, Key1A))
  {
    hide AllLaidOut, Lists, Files, RecordBusAddress, ByPlate, BySibling, Hit, Claimed, VirtualButton, Convert, Labels;
    HighFrame(buttons, 0x800000);
    EarlyPaths(buttons, 0x800000, 1);
    ClaimedFiles(buttons, [0, 4], busToOp, 0x800000);
    ClaimedFiles(buttons, [0, 4], busToOp, 0x800004);
    ConvertsToFour();
    PlateAt(buttons, 4);
    LabelsOf(4, Key1A);
    FirstLabel();
  }

  lemma FirstLabel()
    ensures RawToLabel(4, 1) == Some(Key1A)
  {
  }
}
