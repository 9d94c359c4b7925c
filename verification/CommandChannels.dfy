/** One output channel of the command handler: the bytes that concern it, and the one move each
    event makes of them, whatever happens to the other channels. */
module CommandChannels {
  import opened Wrappers
  import opened Bits
  import opened CommandState
  import opened CommandRuns

  /** Everything about one channel: the value waiting for a frame, the value being written, its
      byte of the frame being sent, its byte of the shared buffer, and the module's output. */
  datatype Chan = Chan(pending: Option<Byte>, writing: Option<Byte>, frame: Option<Byte>, buffer: Byte, output: Byte)

  function GroupKeyOf(a: Address, c: int): GroupKey {
    (a, GroupOf(c))
  }

  function Pick(channels: Channels, c: int): Option<Byte> {
    if c in channels then Some(channels[c]) else None
  }

  function PendingByte(pending: map<GroupKey, nat>, items: map<nat, Item>, a: Address, c: int): Option<Byte> {
    Pick(PendingChannels(pending, items, GroupKeyOf(a, c)), c)
  }

  function WritingByte(writing: map<GroupKey, Channels>, a: Address, c: int): Option<Byte> {
    Pick(WritingChannels(writing, GroupKeyOf(a, c)), c)
  }

  function FrameByte(items: map<nat, Item>, phase: Phase, a: Address, c: int): Option<Byte>
    requires IsChannel(c)
  {
    if phase.Sending? && phase.id in items && items[phase.id].group == GroupKeyOf(a, c) && |phase.frame| == 6
    then Some(phase.frame[(c - 1) % 6]) else None
  }

  function ImageByte(images: map<Address, Image>, a: Address, c: int): Byte
    requires IsChannel(c)
  {
    Buffer(images, a)[c - 1]
  }

  function View(w: World, a: Address, c: int): Chan
    requires IsChannel(c)
  {
    Chan(PendingByte(w.h.pending, w.h.items, a, c), WritingByte(w.h.writing, a, c),
         FrameByte(w.h.items, w.h.phase, a, c), ImageByte(w.h.buffers, a, c), ImageByte(w.outputs, a, c))
  }

  /** What can happen to a channel. */
  datatype Move = Stay | Ask(value: Byte) | Apply | Close | CloseAndBuild | ApplyAndBuild | Build | Deliver | Over | Turn(value: Byte)

  function Applied(ch: Chan): Chan {
    ch.(buffer := if ch.writing.Some? then ch.writing.value else if ch.pending.Some? then ch.pending.value else ch.output)
  }

  function Closed(ch: Chan): Chan {
    ch.(pending := None, writing := ch.pending)
  }

  function Built(ch: Chan): Chan {
    var value := if ch.writing.Some? then ch.writing.value else ch.buffer;
    ch.(buffer := value, frame := Some(value))
  }

  function Moved(ch: Chan, m: Move): Chan {
    match m
    case Stay => ch
    case Ask(value) => ch.(pending := Some(value), buffer := value)
    case Apply => Applied(ch)
    case Close => Closed(ch)
    case CloseAndBuild => Built(Closed(ch))
    case ApplyAndBuild => Built(Applied(ch))
    case Build => Built(ch)
    case Deliver => if ch.frame.Some? then ch.(output := ch.frame.value) else ch
    case Over => ch.(writing := None, frame := None)
    case Turn(value) => ch.(output := value)
  }

  /** The group of the item the worker is busy with. */
  function BusyGroup(h: Handler): Option<GroupKey> {
    if h.phase != Idle && h.phase.id in h.items then Some(h.items[h.phase.id].group) else None
  }

  /** How an event moves a channel; all that matters is whether it concerns the channel's group. */
  function MoveOf(w: World, e: Event, a: Address, c: int): Move {
    var k := GroupKeyOf(a, c);
    var busy := BusyGroup(w.h) == Some(k);
    match e
    case Set(a', c', value) => if a' == a && c' == c then Ask(value) else Stay
    case HostApply(k') => if k' == k then Apply else Stay
    case Feedback(k') => if k' == k then Apply else Stay
    case GetAnswered => if busy then Apply else Stay
    case Coalesced => if !busy then Stay else if Recent(w.h, k, w.now) then CloseAndBuild else Close
    case ReadAnswered => if busy then ApplyAndBuild else Stay
    case ReadFailed => if busy then Build else Stay
    case Deliver => if busy then Move.Deliver else Stay
    case SetDone => if busy then Over else Stay
    case SetFailed => if busy then Over else Stay
    case Wall(a', c', value) => if a' == a && c' == c then Turn(value) else Stay
    case _ => Stay
  }

  // ---- the pieces of a view, event by event -----------------------------------------------------------

  lemma ChannelPlace(c: int)
    requires IsChannel(c)
    ensures IsGroup(GroupOf(c)) && (c - 1) % 6 == c - 1 - Start(GroupOf(c))
    ensures Start(GroupOf(c)) <= c - 1 < Start(GroupOf(c)) + 6
  {
  }

  /** The six bytes of another group of the module leave the channel alone. */
  lemma OtherGroup(c: int, group: int)
    requires IsChannel(c) && IsGroup(group) && group != GroupOf(c)
    ensures !(Start(group) <= c - 1 < Start(group) + 6)
  {
  }

  /** A request adds its own channel to its group's waiting writes. */
  lemma JoinedPending(h: Handler, k: GroupKey, a: Address, c: int, c': int, value: Byte)
    requires k in h.pending && h.pending[k] in h.items && h.items[h.pending[k]].SetItem? && k.1 == GroupOf(c')
    requires GroupKeyOf(a, c) in h.pending && h.pending[GroupKeyOf(a, c)] in h.items && h.items[h.pending[GroupKeyOf(a, c)]].SetItem?
      ==> h.items[h.pending[GroupKeyOf(a, c)]].group == GroupKeyOf(a, c)
    requires h.items[h.pending[k]].group == k
    ensures var id := h.pending[k];
      PendingByte(h.pending, h.items[id := h.items[id].(channels := h.items[id].channels[c' := value])], a, c) ==
        if k.0 == a && c' == c then Some(value) else PendingByte(h.pending, h.items, a, c)
  {
  }

  lemma QueuedPending(h: Handler, k: GroupKey, a: Address, c: int, c': int, value: Byte)
    requires k !in h.pending && k.1 == GroupOf(c') && h.nextItem !in h.items
    requires GroupKeyOf(a, c) in h.pending ==> h.pending[GroupKeyOf(a, c)] in h.items
    ensures PendingByte(h.pending[k := h.nextItem], h.items[h.nextItem := SetItem(k, map[c' := value])], a, c) ==
        if k.0 == a && c' == c then Some(value) else PendingByte(h.pending, h.items, a, c)
  {
  }

  lemma PutByte(images: map<Address, Image>, a: Address, c: int, a': Address, c': int, value: Byte)
    requires IsChannel(c) && IsChannel(c')
    ensures ImageByte(images[a' := PutChannel(Buffer(images, a'), c', value)], a, c) ==
      if a' == a && c' == c then value else ImageByte(images, a, c)
  {
  }

  lemma SameFrame(items: map<nat, Item>, id: nat, item: Item, phase: Phase, a: Address, c: int)
    requires IsChannel(c) && (phase.Sending? && phase.id == id ==> id in items && items[id].group == item.group)
    ensures FrameByte(items[id := item], phase, a, c) == FrameByte(items, phase, a, c)
  {
  }

  lemma SetMoves(w: World, a: Address, c: int, a': Address, c': int, value: Byte)
    requires Bookkeeping(w.h) && IsChannel(c) && IsChannel(c')
    ensures View(w.(h := SetOutputState(w.h, a', c', value)), a, c) ==
      Moved(View(w, a, c), if a' == a && c' == c then Ask(value) else Stay)
  {
    hide Bookkeeping, PendingByte, WritingByte, FrameByte, ImageByte, PutChannel, Buffer;
    var h, k := w.h, GroupKeyOf(a', c');
    QueueFacts(h);
    PutByte(h.buffers, a, c, a', c', value);
    if k in h.pending {
      PendingFacts(h, k);
      if GroupKeyOf(a, c) in h.pending { PendingFacts(h, GroupKeyOf(a, c)); }
      JoinedPending(h, k, a, c, c', value);
      SameFrame(h.items, h.pending[k], h.items[h.pending[k]].(channels := h.items[h.pending[k]].channels[c' := value]), h.phase, a, c);
    } else {
      if GroupKeyOf(a, c) in h.pending { PendingFacts(h, GroupKeyOf(a, c)); }
      QueuedPending(h, k, a, c, c', value);
      SameFrame(h.items, h.nextItem, SetItem(k, map[c' := value]), h.phase, a, c);
    }
  }

  /** Another group's answer leaves the channel alone, its own group's shows the channel's
      output under the writes not yet made. */
  lemma AppliedByte(h: Handler, k: GroupKey, outputs: map<Address, Image>, a: Address, c: int)
    requires Bookkeeping(h) && IsChannel(c) && IsGroup(k.1)
    ensures var image := PutGroup(Buffer(h.buffers, k.0), k.1, GroupBytes(Buffer(outputs, k.0), k.1)[..6]);
      ImageByte(h.buffers[k.0 := Overlay(Overlay(image, PendingChannels(h.pending, h.items, k)), WritingChannels(h.writing, k))], a, c) ==
        if k == GroupKeyOf(a, c) then
          if WritingByte(h.writing, a, c).Some? then WritingByte(h.writing, a, c).value
          else if PendingByte(h.pending, h.items, a, c).Some? then PendingByte(h.pending, h.items, a, c).value
          else ImageByte(outputs, a, c)
        else ImageByte(h.buffers, a, c)
  {
    hide Bookkeeping, PutGroup, Overlay, PendingChannels, WritingChannels;
    ChannelPlace(c);
    var image := PutGroup(Buffer(h.buffers, k.0), k.1, GroupBytes(Buffer(outputs, k.0), k.1)[..6]);
    var pending, writing := PendingChannels(h.pending, h.items, k), WritingChannels(h.writing, k);
    LaidByte(image, pending, writing, c);
    if k.1 != GroupOf(c) {
      OtherGroup(c, k.1);
      OwnChannelsOnly(h, k, c);
      assert image[c - 1] == Buffer(h.buffers, k.0)[c - 1];
    } else {
      var six := GroupBytes(Buffer(outputs, k.0), k.1);
      assert six[..6][c - 1 - Start(k.1)] == six[c - 1 - Start(k.1)] == Buffer(outputs, k.0)[c - 1];
    }
  }

  lemma LaidByte(image: Image, pending: Channels, writing: Channels, c: int)
    requires IsChannel(c)
    ensures Overlay(Overlay(image, pending), writing)[c - 1] ==
      if c in writing then writing[c] else if c in pending then pending[c] else image[c - 1]
  {
    var i := c - 1;
    assert i + 1 == c;
  }

  /** No write of a group carries a channel of another. */
  lemma OwnChannelsOnly(h: Handler, k: GroupKey, c: int)
    requires Bookkeeping(h) && k.1 != GroupOf(c)
    ensures c !in PendingChannels(h.pending, h.items, k) && c !in WritingChannels(h.writing, k)
  {
    hide Bookkeeping;
    WritingFacts(h);
    if k in h.pending {
      PendingFacts(h, k);
      ItemFacts(h, h.pending[k]);
    }
    if Exchanging(h.phase) { ItemFacts(h, h.phase.id); }
  }

  lemma ApplyMoves(w: World, k: GroupKey, a: Address, c: int)
    requires Bookkeeping(w.h) && IsChannel(c) && IsGroup(k.1)
    ensures View(w.(h := ApplyGroupState(w.h, k, Answer(w, k), w.now)), a, c) ==
      Moved(View(w, a, c), if k == GroupKeyOf(a, c) then Apply else Stay)
  {
    hide Bookkeeping, PendingByte, WritingByte, FrameByte, ImageByte, PutGroup, Overlay, PendingChannels, WritingChannels;
    AppliedByte(w.h, k, w.outputs, a, c);
    assert Outputs(w, k.0) == Buffer(w.outputs, k.0);
  }

  /** The frame takes the buffer with the item's writes on top. */
  lemma BuiltBytes(h: Handler, id: nat, a: Address, c: int)
    requires id in h.items && h.items[id].SetItem? && WellGrouped(h.items[id]) && IsChannel(c)
    requires h.writing == map[h.items[id].group := h.items[id].channels] && !h.phase.Sending?
    ensures var h' := CommandState.Build(h, id);
      ImageByte(h'.buffers, a, c) == if h.items[id].group == GroupKeyOf(a, c) && WritingByte(h.writing, a, c).Some? then WritingByte(h.writing, a, c).value else ImageByte(h.buffers, a, c)
    ensures FrameByte(CommandState.Build(h, id).items, CommandState.Build(h, id).phase, a, c) ==
      if h.items[id].group == GroupKeyOf(a, c) then Some(ImageByte(CommandState.Build(h, id).buffers, a, c)) else FrameByte(h.items, h.phase, a, c)
  {
    hide Overlay;
    ChannelPlace(c);
  }

  lemma BuildMoves(w: World, id: nat, a: Address, c: int)
    requires id in w.h.items && w.h.items[id].SetItem? && WellGrouped(w.h.items[id]) && IsChannel(c)
    requires w.h.writing == map[w.h.items[id].group := w.h.items[id].channels] && !w.h.phase.Sending?
    ensures View(w.(h := CommandState.Build(w.h, id)), a, c) ==
      Moved(View(w, a, c), if w.h.items[id].group == GroupKeyOf(a, c) then Move.Build else Stay)
  {
    hide PendingByte, ImageByte, FrameByte, Overlay, GroupBytes, Buffer;
    BuiltBytes(w.h, id, a, c);
  }

  lemma CloseBytes(h: Handler, a: Address, c: int)
    requires Bookkeeping(h) && h.phase.Coalescing? && BusyWithSet(h) && IsChannel(c)
    ensures var item := h.items[h.phase.id];
      var own := item.group == GroupKeyOf(a, c);
      && PendingByte(Released(h.pending, item.group, h.phase.id), h.items, a, c) == (if own then None else PendingByte(h.pending, h.items, a, c))
      && WritingByte(h.writing[item.group := item.channels], a, c) == (if own then PendingByte(h.pending, h.items, a, c) else WritingByte(h.writing, a, c))
  {
    hide Bookkeeping;
    assert Waiting(h.queue, h.phase, h.phase.id);
    WaitingFacts(h, h.phase.id);
    WritingFacts(h);
  }

  lemma CoalescedMoves(w: World, a: Address, c: int)
    requires Bookkeeping(w.h) && IsChannel(c) && w.h.phase.Coalescing? && BusyWithSet(w.h)
    ensures View(w.(h := CommandState.Coalesced(w.h, w.now)), a, c) == Moved(View(w, a, c), MoveOf(w, Event.Coalesced, a, c))
  {
    hide Bookkeeping, PendingByte, WritingByte, FrameByte, ImageByte, CommandState.Build, Recent, Released;
    var h := w.h;
    var id, item := h.phase.id, h.items[h.phase.id];
    CloseBytes(h, a, c);
    WritingFacts(h);
    ItemFacts(h, id);
    NoFrame(h, a, c);
    var open := h.(pending := Released(h.pending, item.group, id), writing := h.writing[item.group := item.channels]);
    RecentIgnoresTables(h, open, item.group, w.now);
    NoFrame(open.(phase := Reading(id)), a, c);
    OpenMoves(w, open, a, c);
    if Recent(h, item.group, w.now) {
      BuildMoves(w.(h := open), id, a, c);
    }
  }

  lemma OpenMoves(w: World, open: Handler, a: Address, c: int)
    requires Bookkeeping(w.h) && IsChannel(c) && w.h.phase.Coalescing? && BusyWithSet(w.h)
    requires var item := w.h.items[w.h.phase.id];
      open == w.h.(pending := Released(w.h.pending, item.group, w.h.phase.id), writing := w.h.writing[item.group := item.channels])
    ensures View(w.(h := open), a, c) ==
      if w.h.items[w.h.phase.id].group == GroupKeyOf(a, c) then Closed(View(w, a, c)) else View(w, a, c)
  {
    hide Bookkeeping, PendingByte, WritingByte, FrameByte, ImageByte, Released;
    CloseBytes(w.h, a, c);
  }

  lemma RecentIgnoresTables(h: Handler, h': Handler, k: GroupKey, now: int)
    requires h'.knownAt == h.knownAt
    ensures Recent(h', k, now) == Recent(h, k, now)
  {
  }

  lemma NoFrame(h: Handler, a: Address, c: int)
    requires IsChannel(c) && !h.phase.Sending?
    ensures FrameByte(h.items, h.phase, a, c) == None
  {
  }

  lemma ReadDoneMoves(w: World, answered: bool, a: Address, c: int)
    requires Bookkeeping(w.h) && IsChannel(c) && w.h.phase.Reading? && BusyWithSet(w.h)
    ensures View(w.(h := ReadDone(w.h, if answered then Some(Answer(w, w.h.items[w.h.phase.id].group)) else None, w.now)), a, c)
      == Moved(View(w, a, c), MoveOf(w, if answered then ReadAnswered else ReadFailed, a, c))
  {
    hide Bookkeeping, View, CommandState.Build, ApplyGroupState, ResolvePendingGet;
    var h := w.h;
    var id, k := h.phase.id, h.items[h.phase.id].group;
    ItemFacts(h, id);
    WritingFacts(h);
    if answered {
      var applied := w.(h := ApplyGroupState(h, k, Answer(w, k), w.now));
      ApplyKeepsWork(h, k, Answer(w, k), w.now);
      ApplyMoves(w, k, a, c);
      ResolveMoves(applied, k, Answer(w, k), a, c);
      BuildMoves(applied.(h := ResolvePendingGet(applied.h, k, Answer(w, k), w.now)), id, a, c);
    } else {
      BuildMoves(w, id, a, c);
    }
  }

  lemma ApplyKeepsWork(h: Handler, k: GroupKey, state: seq<Byte>, now: int)
    requires |state| >= 6
    ensures ApplyGroupState(h, k, state, now).items == h.items && ApplyGroupState(h, k, state, now).writing == h.writing
    ensures ApplyGroupState(h, k, state, now).phase == h.phase
    ensures ResolvePendingGet(h, k, state, now).items == h.items
    ensures ResolvePendingGet(h, k, state, now).writing == h.writing
    ensures ResolvePendingGet(h, k, state, now).phase == h.phase
  {
    hide Overlay, PutGroup;
  }

  lemma ResolveMoves(w: World, k: GroupKey, state: seq<Byte>, a: Address, c: int)
    requires IsChannel(c) && |state| >= 6
    ensures View(w.(h := ResolvePendingGet(w.h, k, state, w.now)), a, c) == View(w, a, c)
    ensures ResolvePendingGet(w.h, k, state, w.now).items == w.h.items
    ensures ResolvePendingGet(w.h, k, state, w.now).writing == w.h.writing
    ensures ResolvePendingGet(w.h, k, state, w.now).phase == w.h.phase
  {
    hide PendingByte, WritingByte, FrameByte, ImageByte;
  }

  lemma SetFailedMoves(w: World, a: Address, c: int)
    requires Bookkeeping(w.h) && IsChannel(c) && w.h.phase.Sending? && BusyWithSet(w.h)
    ensures View(w.(h := CommandState.SetFailed(w.h)), a, c) == Moved(View(w, a, c), MoveOf(w, Event.SetFailed, a, c))
  {
    hide Bookkeeping, PendingByte, ImageByte, WritingByte, FrameByte, FinishShared;
    OverBytes(w.h, a, c);
  }

  lemma SetDoneMoves(w: World, a: Address, c: int)
    requires Bookkeeping(w.h) && IsChannel(c) && w.h.phase.Sending? && BusyWithSet(w.h)
    ensures View(w.(h := CommandState.SetDone(w.h, w.now)), a, c) == Moved(View(w, a, c), MoveOf(w, Event.SetDone, a, c))
  {
    hide Bookkeeping, PendingByte, ImageByte, WritingByte, FrameByte, FinishShared;
    OverBytes(w.h, a, c);
  }

  lemma OverBytes(h: Handler, a: Address, c: int)
    requires Bookkeeping(h) && IsChannel(c) && h.phase.Sending? && BusyWithSet(h)
    ensures WritingByte(h.writing - {h.items[h.phase.id].group}, a, c) == None
    ensures h.items[h.phase.id].group != GroupKeyOf(a, c) ==>
      WritingByte(h.writing, a, c) == None && FrameByte(h.items, h.phase, a, c) == None
    ensures FrameByte(h.items, Idle, a, c) == None
  {
    hide Bookkeeping;
    WritingFacts(h);
  }

  lemma GetAnsweredMoves(w: World, a: Address, c: int)
    requires Bookkeeping(w.h) && IsChannel(c) && BusyWithGet(w.h)
    ensures View(w.(h := GetDone(AppliedGet(w), Answer(w, w.h.items[w.h.phase.id].group), w.now)), a, c) ==
      Moved(View(w, a, c), MoveOf(w, GetAnswered, a, c))
  {
    hide Bookkeeping, ApplyGroupState, PendingByte, ImageByte, WritingByte, GetDone;
    var k := w.h.items[w.h.phase.id].group;
    ItemFacts(w.h, w.h.phase.id);
    ApplyMoves(w, k, a, c);
    GetOverView(w.(h := AppliedGet(w)), GetDone(AppliedGet(w), Answer(w, k), w.now), Answer(w, k), a, c);
  }

  lemma GetOverView(w: World, h': Handler, state: seq<Byte>, a: Address, c: int)
    requires IsChannel(c) && BusyWithGet(w.h) && (h' == GetDone(w.h, state, w.now) || h' == CommandState.GetFailed(w.h))
    ensures View(w.(h := h'), a, c) == View(w, a, c)
  {
    hide PendingByte, WritingByte, ImageByte, Waiters, FinishedAll;
  }

  lemma DeliverMoves(w: World, a: Address, c: int)
    requires Bookkeeping(w.h) && IsChannel(c) && Enabled(w, Event.Deliver)
    ensures View(w.(outputs := OutputStep(w, Event.Deliver)), a, c) == Moved(View(w, a, c), MoveOf(w, Event.Deliver, a, c))
  {
    hide Bookkeeping, PendingByte, WritingByte, PutGroup, Buffer, ImageByte;
    var k := w.h.items[w.h.phase.id].group;
    ItemFacts(w.h, w.h.phase.id);
    OutputsAre(w, k.0);
    GroupSet(w.outputs, k, w.h.phase.frame, a, c);
  }

  lemma OutputsAre(w: World, a: Address)
    ensures Outputs(w, a) == Buffer(w.outputs, a)
  {
  }

  /** Six bytes put into an image are its group's channels. */
  lemma GroupSet(images: map<Address, Image>, k: GroupKey, frame: seq<Byte>, a: Address, c: int)
    requires IsChannel(c) && IsGroup(k.1) && |frame| == 6
    ensures ImageByte(images[k.0 := PutGroup(Buffer(images, k.0), k.1, frame)], a, c) ==
      if k == GroupKeyOf(a, c) then frame[(c - 1) % 6] else ImageByte(images, a, c)
  {
    ChannelPlace(c);
    var image := PutGroup(Buffer(images, k.0), k.1, frame);
    if k.1 != GroupOf(c) {
      OtherGroup(c, k.1);
      assert image[c - 1] == Buffer(images, k.0)[c - 1];
    } else {
      assert image[c - 1] == frame[c - 1 - Start(k.1)];
    }
  }

  lemma WallMoves(w: World, a: Address, c: int, a': Address, c': int, value: Byte)
    requires IsChannel(c) && IsChannel(c')
    ensures View(w.(outputs := OutputStep(w, Wall(a', c', value))), a, c) ==
      Moved(View(w, a, c), MoveOf(w, Wall(a', c', value), a, c))
  {
    hide PendingByte, WritingByte, FrameByte, ImageByte, PutChannel;
    PutByte(w.outputs, a, c, a', c', value);
    assert Outputs(w, a') == Buffer(w.outputs, a');
  }

  /** Events that concern no channel at all. */
  predicate Aside(e: Event) {
    e.CancelView? || e.BeginGet? || e.GiveUpGet? || e.LeaveGet? || e.Pop? || e.GetFailed? || e.Tick?
  }

  lemma PopMoves(w: World, a: Address, c: int)
    requires Bookkeeping(w.h) && IsChannel(c) && Enabled(w, Event.Pop)
    ensures View(w.(h := CommandState.Pop(w.h)), a, c) == View(w, a, c)
  {
    hide Bookkeeping, PendingByte, WritingByte, ImageByte, FrameByte, AllFinished, Waiters, Released;
    ResultFacts(w.h);
    assert w.h.queue[0] in w.h.queue;
    NoFrame(w.h, a, c);
    NoFrame(w.h.(phase := CommandState.Pop(w.h).phase), a, c);
    match w.h.items[w.h.queue[0]] {
      case GetItem(k, f) =>
      case SetItem(k, channels) =>
    }
  }

  lemma BeginGetMoves(w: World, k: GroupKey, a: Address, c: int)
    requires Bookkeeping(w.h) && IsChannel(c)
    ensures View(w.(h := CommandState.BeginGet(w.h, k)), a, c) == View(w, a, c)
  {
    hide Bookkeeping, WritingByte, ImageByte, Waiters;
    QueueFacts(w.h);
    PhaseFacts(w.h);
    if GroupKeyOf(a, c) in w.h.pending { PendingFacts(w.h, GroupKeyOf(a, c)); }
  }

  lemma AsideMoves(w: World, e: Event, a: Address, c: int)
    requires Bookkeeping(w.h) && IsChannel(c) && Enabled(w, e) && Aside(e)
    ensures View(w.(h := HandlerStep(w, e)), a, c) == View(w, a, c)
  {
    hide Bookkeeping, PendingByte, WritingByte, FrameByte, ImageByte, Waiters, CommandState.BeginGet, CommandState.Pop, CommandState.GetFailed,
      WaitersLeft, OwnerFuture;
    if e.Pop? {
      PopMoves(w, a, c);
    } else if e.BeginGet? {
      BeginGetMoves(w, e.k, a, c);
    } else if e.GetFailed? {
      GetOverView(w, CommandState.GetFailed(w.h), [], a, c);
    }
  }

  lemma ViewIgnoresClock(w: World, w': World, a: Address, c: int)
    requires IsChannel(c) && w'.h == w.h && w'.outputs == w.outputs
    ensures View(w', a, c) == View(w, a, c)
  {
  }

  /** The refinement: whatever happens in the handler, each channel makes one move of its own. */
  lemma StepMovesChannel(w: World, e: Event, a: Address, c: int)
    requires Bookkeeping(w.h) && Enabled(w, e) && IsChannel(c)
    ensures View(Step(w, e), a, c) == Moved(View(w, a, c), MoveOf(w, e, a, c))
  {
    hide Bookkeeping, View, Moved, SetOutputState, CommandState.CancelView, ApplyGroupState, ResolvePendingGet, CommandState.BeginGet,
      CommandState.GiveUpGet, LeaveWaiters, CommandState.Pop, CommandState.Coalesced, ReadDone, CommandState.SetDone, CommandState.SetFailed,
      GetDone, CommandState.GetFailed, AppliedGet, Recent;
    ViewIgnoresClock(World(HandlerStep(w, e), OutputStep(w, e), w.now, w.delivered), Step(w, e), a, c);
    if Aside(e) {
      AsideMoves(w, e, a, c);
      assert Moved(View(w, a, c), Stay) == View(w, a, c) by { StayMoves(View(w, a, c)); }
    } else {
      match e {
        case Set(a', c', value) => SetMoves(w, a, c, a', c', value);
        case HostApply(k) => ApplyMoves(w, k, a, c);
        case Feedback(k) =>
          ApplyMoves(w, k, a, c);
          ResolveMoves(w.(h := ApplyGroupState(w.h, k, Answer(w, k), w.now)), k, Answer(w, k), a, c);
        case Coalesced => CoalescedMoves(w, a, c);
        case ReadAnswered => ReadDoneMoves(w, true, a, c);
        case ReadFailed => ReadDoneMoves(w, false, a, c);
        case Deliver => DeliverMoves(w, a, c);
        case SetDone => SetDoneMoves(w, a, c);
        case SetFailed => SetFailedMoves(w, a, c);
        case GetAnswered => GetAnsweredMoves(w, a, c);
        case Wall(a', c', value) => WallMoves(w, a, c, a', c', value);
        case _ =>
      }
    }
  }

  lemma StayMoves(ch: Chan)
    ensures Moved(ch, Stay) == ch
  {
  }
}
