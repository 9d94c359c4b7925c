/** The command handler among its surroundings: every interleaving of callers, host, queue
    worker, module, wall keys and clock, and the bookkeeping each of them keeps. */
module CommandRuns {
  import opened Wrappers
  import opened Bits
  import opened CommandState

  /** The handler, the module outputs, the clock in milliseconds, and whether the frame being
      sent has reached its module. */
  datatype World = World(h: Handler, outputs: map<Address, Image>, now: int, delivered: bool)

  datatype Event =
    | Set(a: Address, channel: int, value: Byte)
    | CancelView(d: Future)
    | HostApply(k: GroupKey)
    | Feedback(k: GroupKey)
    | BeginGet(k: GroupKey)
    | GiveUpGet(k: GroupKey, f: Future)
    | LeaveGet(k: GroupKey, f: Future)
    | Pop
    | Coalesced
    | ReadAnswered
    | ReadFailed
    | Deliver
    | SetDone
    | SetFailed
    | GetAnswered
    | GetFailed
    | Wall(a: Address, channel: int, value: Byte)
    | Tick(ms: nat)

  function Outputs(w: World, a: Address): Image {
    if a in w.outputs then w.outputs[a] else ZEROS
  }

  predicate IsChannel(channel: int) {
    1 <= channel <= 12
  }

  predicate IsGroup(group: int) {
    group == 1 || group == 2
  }

  predicate Exchanging(phase: Phase) {
    phase.Reading? || phase.Sending?
  }

  predicate BusyWithSet(h: Handler) {
    (h.phase.Coalescing? || Exchanging(h.phase)) && h.phase.id in h.items && h.items[h.phase.id].SetItem?
  }

  predicate BusyWithGet(h: Handler) {
    h.phase.Getting? && h.phase.id in h.items && h.items[h.phase.id].GetItem?
  }

  /** The module answers for one of its groups; the answer is what it drives at that moment. */
  function Answer(w: World, k: GroupKey): seq<Byte> {
    GroupBytes(Outputs(w, k.0), k.1)
  }

  /** The group whose frame is on its way. */
  function SendingGroup(h: Handler): Option<GroupKey> {
    if h.phase.Sending? && h.phase.id in h.items && h.items[h.phase.id].SetItem? then Some(h.items[h.phase.id].group) else None
  }

  /** When an event can happen. A write is acknowledged only by a module that took it. */
  predicate Enabled(w: World, e: Event) {
    match e
    case Set(_, channel, _) => IsChannel(channel)
    case CancelView(d) => d.Derived?
    case HostApply(k) => IsGroup(k.1)
    case Feedback(k) => IsGroup(k.1)
    case BeginGet(k) => IsGroup(k.1)
    case GiveUpGet(k, f) => f in Waiters(w.h, k)
    case LeaveGet(k, f) => f in Waiters(w.h, k) && f in w.h.results
    case Pop => w.h.phase == Idle && w.h.queue != [] && w.h.queue[0] in w.h.items
    case Coalesced => w.h.phase.Coalescing? && BusyWithSet(w.h)
    case ReadAnswered => w.h.phase.Reading? && BusyWithSet(w.h)
    case ReadFailed => w.h.phase.Reading? && BusyWithSet(w.h)
    case Deliver => w.h.phase.Sending? && BusyWithSet(w.h) && |w.h.phase.frame| == 6
    case SetDone => w.h.phase.Sending? && BusyWithSet(w.h) && w.delivered
    case SetFailed => w.h.phase.Sending? && BusyWithSet(w.h)
    case GetAnswered => BusyWithGet(w.h)
    case GetFailed => BusyWithGet(w.h)
    case Wall(_, channel, _) => IsChannel(channel)
    case Tick(_) => true
  }

  /** The host has the answer of the read under way when the worker hands it out. */
  function AppliedGet(w: World): (r: Handler)
    requires BusyWithGet(w.h)
    ensures BusyWithGet(r) && r.phase == w.h.phase && r.items == w.h.items && r.queue == w.h.queue
  {
    var k := w.h.items[w.h.phase.id].group;
    ApplyGroupState(w.h, k, Answer(w, k), w.now)
  }

  /** What the handler does at an event. The host applies every answer as it arrives. */
  function HandlerStep(w: World, e: Event): Handler
    requires Enabled(w, e)
  {
    var h := w.h;
    match e
    case Set(a, channel, value) => SetOutputState(h, a, channel, value)
    case CancelView(d) => CommandState.CancelView(h, d)
    case HostApply(k) => ApplyGroupState(h, k, Answer(w, k), w.now)
    case Feedback(k) => ResolvePendingGet(ApplyGroupState(h, k, Answer(w, k), w.now), k, Answer(w, k), w.now)
    case BeginGet(k) => CommandState.BeginGet(h, k)
    case GiveUpGet(k, f) => CommandState.GiveUpGet(h, k, f)
    case LeaveGet(k, f) => LeaveWaiters(h, k, f)
    case Pop => CommandState.Pop(h)
    case Coalesced => CommandState.Coalesced(h, w.now)
    case ReadAnswered => ReadDone(h, Some(Answer(w, h.items[h.phase.id].group)), w.now)
    case ReadFailed => ReadDone(h, None, w.now)
    case SetDone => CommandState.SetDone(h, w.now)
    case SetFailed => CommandState.SetFailed(h)
    case GetAnswered => GetDone(AppliedGet(w), Answer(w, h.items[h.phase.id].group), w.now)
    case GetFailed => CommandState.GetFailed(h)
    case Deliver => h
    case Wall(_, _, _) => h
    case Tick(_) => h
  }

  /** What the modules do at an event. */
  function OutputStep(w: World, e: Event): map<Address, Image>
    requires Enabled(w, e)
  {
    match e
    case Deliver =>
      var k := w.h.items[w.h.phase.id].group;
      w.outputs[k.0 := PutGroup(Outputs(w, k.0), k.1, w.h.phase.frame)]
    case Wall(a, channel, value) => w.outputs[a := PutChannel(Outputs(w, a), channel, value)]
    case _ => w.outputs
  }

  function Step(w: World, e: Event): World
    requires Enabled(w, e)
  {
    World(HandlerStep(w, e), OutputStep(w, e),
          if e.Tick? then w.now + e.ms else w.now,
          if e.Coalesced? || e.ReadAnswered? || e.ReadFailed? then false else w.delivered || e.Deliver?)
  }

  predicate Initial(w: World) {
    && w.h.queue == [] && w.h.items == map[] && w.h.pending == map[] && w.h.writing == map[]
    && w.h.knownAt == map[] && w.h.owners == map[] && w.h.waiters == map[] && w.h.results == map[]
    && w.h.follows == map[] && w.h.phase == Idle
  }

  /** Runs: every event enabled when it happens. */
  ghost predicate IsRun(ws: seq<World>, es: seq<Event>) {
    && |ws| == |es| + 1 && Initial(ws[0])
    && forall i :: 0 <= i < |es| ==> Enabled(ws[i], es[i]) && ws[i + 1] == Step(ws[i], es[i])
  }

  lemma RunStep(ws: seq<World>, es: seq<Event>, i: nat)
    requires IsRun(ws, es) && i < |es|
    ensures |ws| == |es| + 1 && Enabled(ws[i], es[i]) && ws[i + 1] == Step(ws[i], es[i])
  {
    hide Step, Enabled, Initial;
  }

  ghost predicate Follows(w: World, e: Event, w': World) {
    Enabled(w, e) && w' == Step(w, e)
  }

  lemma RunOf(ws: seq<World>, es: seq<Event>)
    requires |ws| == |es| + 1 && Initial(ws[0]) && forall i :: 0 <= i < |es| ==> Follows(ws[i], es[i], ws[i + 1])
    ensures IsRun(ws, es)
  {
    hide Step, Enabled, Initial;
    forall i | 0 <= i < |es| ensures Enabled(ws[i], es[i]) && ws[i + 1] == Step(ws[i], es[i]) {
      assert Follows(ws[i], es[i], ws[i + 1]);
    }
  }

  /** A run grows by one event. */
  lemma Extend(ws: seq<World>, es: seq<Event>, e: Event)
    requires IsRun(ws, es) && Enabled(ws[|es|], e)
    ensures IsRun(ws + [Step(ws[|es|], e)], es + [e])
  {
    hide Step, Enabled, Initial;
    var ws', es' := ws + [Step(ws[|es|], e)], es + [e];
    forall i | 0 <= i < |es'| ensures Follows(ws'[i], es'[i], ws'[i + 1]) {
      if i < |es| {
        assert Enabled(ws[i], es[i]) && ws[i + 1] == Step(ws[i], es[i]);
      }
    }
    RunOf(ws', es');
  }

  // ---- the bookkeeping invariant ------------------------------------------------------------------

  ghost predicate QueueOk(queue: seq<nat>, items: map<nat, Item>, next: nat, phase: Phase) {
    && (forall i, j :: 0 <= i < j < |queue| ==> queue[i] != queue[j])
    && (forall id :: id in queue ==> id in items)
    && (forall id :: id in items ==> id < next)
    && (phase != Idle ==> phase.id in items && phase.id !in queue)
  }

  ghost predicate PhaseOk(items: map<nat, Item>, phase: Phase) {
    && (phase.Coalescing? || Exchanging(phase) ==> phase.id in items && items[phase.id].SetItem?)
    && (phase.Getting? ==> phase.id in items && items[phase.id].GetItem?)
    && (phase.Sending? ==> |phase.frame| == 6)
  }

  /** A write carries channels of its own group only. */
  predicate WellGrouped(item: Item) {
    item.SetItem? ==> forall c :: c in item.channels ==> IsChannel(c) && GroupOf(c) == item.group.1
  }

  ghost predicate ItemsOk(items: map<nat, Item>) {
    forall id :: id in items ==> IsGroup(items[id].group.1) && WellGrouped(items[id])
  }

  predicate Waiting(queue: seq<nat>, phase: Phase, id: nat) {
    id in queue || phase == Coalescing(id)
  }

  /** The joinable write of a group is one that still waits, and every waiting write is it. */
  ghost predicate PendingOk(queue: seq<nat>, items: map<nat, Item>, pending: map<GroupKey, nat>, phase: Phase) {
    && (forall id :: id in items && items[id].SetItem? && Waiting(queue, phase, id) ==>
          items[id].group in pending && pending[items[id].group] == id)
    && (forall k :: k in pending ==>
          pending[k] in items && items[pending[k]].SetItem? && items[pending[k]].group == k && Waiting(queue, phase, pending[k]))
  }

  /** At most one write is in flight, and only while its read or its frame is. */
  ghost predicate WritingOk(items: map<nat, Item>, writing: map<GroupKey, Channels>, phase: Phase) {
    if Exchanging(phase)
    then phase.id in items && items[phase.id].SetItem? && writing == map[items[phase.id].group := items[phase.id].channels]
    else writing == map[]
  }

  /** Nobody but the worker finishes the future a write shares. */
  ghost predicate ResultsOk(queue: seq<nat>, items: map<nat, Item>, results: map<Future, Outcome>, phase: Phase) {
    forall id :: Shared(id) in results ==> id in items && id !in queue && (phase != Idle ==> phase.id != id)
  }

  /** Reads wait on read futures, and a caller's view of a write follows a shared one. */
  ghost predicate FuturesOk(items: map<nat, Item>, waiters: map<GroupKey, seq<Future>>, follows: map<Future, Future>) {
    && (forall id :: id in items && items[id].GetItem? ==> items[id].future.Get?)
    && (forall k, f :: k in waiters && f in waiters[k] ==> f.Get?)
    && (forall d :: d in follows ==> d.Derived? && follows[d].Shared?)
  }

  /** At most one joinable write per group, at most one write in flight, each with a future
      only the worker finishes. */
  ghost predicate Bookkeeping(h: Handler) {
    && QueueOk(h.queue, h.items, h.nextItem, h.phase)
    && PhaseOk(h.items, h.phase)
    && ItemsOk(h.items)
    && PendingOk(h.queue, h.items, h.pending, h.phase)
    && WritingOk(h.items, h.writing, h.phase)
    && ResultsOk(h.queue, h.items, h.results, h.phase)
    && FuturesOk(h.items, h.waiters, h.follows)
  }

  lemma Parts(h: Handler)
    requires Bookkeeping(h)
    ensures QueueOk(h.queue, h.items, h.nextItem, h.phase) && PhaseOk(h.items, h.phase) && ItemsOk(h.items)
    ensures PendingOk(h.queue, h.items, h.pending, h.phase) && WritingOk(h.items, h.writing, h.phase)
    ensures ResultsOk(h.queue, h.items, h.results, h.phase) && FuturesOk(h.items, h.waiters, h.follows)
  {
    hide QueueOk, PhaseOk, ItemsOk, PendingOk, WritingOk, FuturesOk, ResultsOk;
  }

  lemma Assemble(h: Handler)
    requires QueueOk(h.queue, h.items, h.nextItem, h.phase) && PhaseOk(h.items, h.phase) && ItemsOk(h.items)
    requires PendingOk(h.queue, h.items, h.pending, h.phase) && WritingOk(h.items, h.writing, h.phase)
    requires ResultsOk(h.queue, h.items, h.results, h.phase) && FuturesOk(h.items, h.waiters, h.follows)
    ensures Bookkeeping(h)
  {
    hide QueueOk, PhaseOk, ItemsOk, PendingOk, WritingOk, FuturesOk, ResultsOk;
  }

  lemma QueueFacts(h: Handler)
    requires Bookkeeping(h)
    ensures forall id :: id in h.queue ==> id in h.items
    ensures h.nextItem !in h.items && h.nextItem !in h.queue
    ensures h.phase != Idle ==> h.phase.id in h.items && h.phase.id !in h.queue
  {
    hide PhaseOk, ItemsOk, PendingOk, WritingOk, FuturesOk, ResultsOk;
  }

  lemma PhaseFacts(h: Handler)
    requires Bookkeeping(h)
    ensures h.phase.Coalescing? || Exchanging(h.phase) ==> BusyWithSet(h)
    ensures h.phase.Getting? ==> BusyWithGet(h)
    ensures h.phase.Sending? ==> |h.phase.frame| == 6
  {
    hide QueueOk, ItemsOk, PendingOk, WritingOk, FuturesOk, ResultsOk;
  }

  lemma PendingFacts(h: Handler, k: GroupKey)
    requires Bookkeeping(h) && k in h.pending
    ensures h.pending[k] in h.items && h.items[h.pending[k]].SetItem? && h.items[h.pending[k]].group == k
    ensures Waiting(h.queue, h.phase, h.pending[k])
  {
    hide QueueOk, ItemsOk, PhaseOk, WritingOk, FuturesOk, ResultsOk;
  }

  lemma WaitingFacts(h: Handler, id: nat)
    requires Bookkeeping(h) && id in h.items && h.items[id].SetItem? && Waiting(h.queue, h.phase, id)
    ensures h.items[id].group in h.pending && h.pending[h.items[id].group] == id
  {
    hide QueueOk, ItemsOk, PhaseOk, WritingOk, FuturesOk, ResultsOk;
  }

  lemma WritingFacts(h: Handler)
    requires Bookkeeping(h)
    ensures if Exchanging(h.phase) then BusyWithSet(h) && h.writing == map[h.items[h.phase.id].group := h.items[h.phase.id].channels] else h.writing == map[]
  {
    hide QueueOk, ItemsOk, PendingOk, FuturesOk, ResultsOk;
  }

  lemma ItemFacts(h: Handler, id: nat)
    requires Bookkeeping(h) && id in h.items
    ensures IsGroup(h.items[id].group.1) && WellGrouped(h.items[id])
  {
    hide QueueOk, PhaseOk, PendingOk, WritingOk, FuturesOk, ResultsOk;
  }

  lemma ResultFacts(h: Handler)
    requires Bookkeeping(h)
    ensures forall id :: Shared(id) in h.results ==> id in h.items && id !in h.queue && (h.phase != Idle ==> h.phase.id != id)
  {
    hide QueueOk, PhaseOk, PendingOk, WritingOk, FuturesOk, ItemsOk;
  }

  // ---- a write joins or queues ----------------------------------------------------------------------

  lemma JoinQueue(h: Handler, id: nat, item: Item)
    requires QueueOk(h.queue, h.items, h.nextItem, h.phase) && PhaseOk(h.items, h.phase) && ItemsOk(h.items)
    requires id in h.items && h.items[id].SetItem? && item.SetItem? && item.group == h.items[id].group
    requires WellGrouped(item)
    ensures QueueOk(h.queue, h.items[id := item], h.nextItem, h.phase) && PhaseOk(h.items[id := item], h.phase)
    ensures ItemsOk(h.items[id := item])
  {
  }

  lemma JoinPending(h: Handler, id: nat, item: Item)
    requires PendingOk(h.queue, h.items, h.pending, h.phase)
    requires id in h.items && h.items[id].SetItem? && item.SetItem? && item.group == h.items[id].group
    ensures PendingOk(h.queue, h.items[id := item], h.pending, h.phase)
  {
  }

  /** The write in flight is never the one being joined. */
  lemma JoinWriting(h: Handler, id: nat, item: Item)
    requires WritingOk(h.items, h.writing, h.phase) && QueueOk(h.queue, h.items, h.nextItem, h.phase)
    requires id in h.items && Waiting(h.queue, h.phase, id)
    ensures WritingOk(h.items[id := item], h.writing, h.phase)
  {
  }

  lemma JoinParts(h: Handler, id: nat, item: Item)
    requires Bookkeeping(h) && id in h.items && h.items[id].SetItem? && item.SetItem? && item.group == h.items[id].group
    requires WellGrouped(item) && Waiting(h.queue, h.phase, id)
    ensures QueueOk(h.queue, h.items[id := item], h.nextItem, h.phase) && PhaseOk(h.items[id := item], h.phase)
    ensures ItemsOk(h.items[id := item])
    ensures PendingOk(h.queue, h.items[id := item], h.pending, h.phase)
    ensures WritingOk(h.items[id := item], h.writing, h.phase)
    ensures ResultsOk(h.queue, h.items[id := item], h.results, h.phase)
  {
    hide Bookkeeping, QueueOk, PhaseOk, ItemsOk, PendingOk, WritingOk, FuturesOk;
    Parts(h);
    JoinQueue(h, id, item);
    JoinPending(h, id, item);
    JoinWriting(h, id, item);
  }

  lemma EnqueueQueue(h: Handler, item: Item)
    requires QueueOk(h.queue, h.items, h.nextItem, h.phase) && PhaseOk(h.items, h.phase) && ItemsOk(h.items)
    requires WellGrouped(item) && IsGroup(item.group.1)
    ensures QueueOk(h.queue + [h.nextItem], h.items[h.nextItem := item], h.nextItem + 1, h.phase)
    ensures PhaseOk(h.items[h.nextItem := item], h.phase) && ItemsOk(h.items[h.nextItem := item])
  {
    assert h.nextItem !in h.items && h.nextItem !in h.queue;
  }

  lemma EnqueuePending(h: Handler, item: Item, pending: map<GroupKey, nat>)
    requires PendingOk(h.queue, h.items, h.pending, h.phase) && h.nextItem !in h.items
    requires pending == if item.SetItem? then h.pending[item.group := h.nextItem] else h.pending
    requires item.SetItem? ==> item.group !in h.pending
    requires h.phase.Coalescing? ==> h.phase.id in h.items
    ensures PendingOk(h.queue + [h.nextItem], h.items[h.nextItem := item], pending, h.phase)
  {
    var queue, items := h.queue + [h.nextItem], h.items[h.nextItem := item];
    assert forall id :: id != h.nextItem ==> Waiting(queue, h.phase, id) == Waiting(h.queue, h.phase, id);
    assert Waiting(queue, h.phase, h.nextItem);
  }

  lemma EnqueueParts(h: Handler, item: Item)
    requires Bookkeeping(h) && WellGrouped(item) && IsGroup(item.group.1)
    ensures QueueOk(h.queue + [h.nextItem], h.items[h.nextItem := item], h.nextItem + 1, h.phase)
    ensures PhaseOk(h.items[h.nextItem := item], h.phase) && ItemsOk(h.items[h.nextItem := item])
    ensures item.GetItem? ==> PendingOk(h.queue + [h.nextItem], h.items[h.nextItem := item], h.pending, h.phase)
    ensures item.SetItem? && item.group !in h.pending ==>
        PendingOk(h.queue + [h.nextItem], h.items[h.nextItem := item], h.pending[item.group := h.nextItem], h.phase)
    ensures WritingOk(h.items[h.nextItem := item], h.writing, h.phase)
    ensures ResultsOk(h.queue + [h.nextItem], h.items[h.nextItem := item], h.results, h.phase)
  {
    hide Bookkeeping, QueueOk, PhaseOk, ItemsOk, PendingOk, FuturesOk, WellGrouped, Waiting;
    Parts(h);
    QueueFacts(h);
    EnqueueQueue(h, item);
    if item.GetItem? {
      EnqueuePending(h, item, h.pending);
    } else if item.group !in h.pending {
      EnqueuePending(h, item, h.pending[item.group := h.nextItem]);
    }
  }

  lemma SetFutures(h: Handler, id: nat, item: Item)
    requires FuturesOk(h.items, h.waiters, h.follows) && item.SetItem?
    ensures FuturesOk(h.items[id := item], h.waiters, h.follows[Derived(h.nextFuture) := Shared(id)])
  {
  }

  lemma SetKeeps(h: Handler, a: Address, channel: int, value: Byte)
    requires Bookkeeping(h) && IsChannel(channel)
    ensures Bookkeeping(SetOutputState(h, a, channel, value))
  {
    hide Bookkeeping, PutChannel, Buffer, Waiting, QueueOk, PhaseOk, ItemsOk, PendingOk, WritingOk, ResultsOk, FuturesOk;
    var k := (a, GroupOf(channel));
    Parts(h);
    if k in h.pending {
      PendingFacts(h, k);
      var id := h.pending[k];
      ItemFacts(h, id);
      var item := h.items[id].(channels := h.items[id].channels[channel := value]);
      SetFutures(h, id, item);
      JoinParts(h, id, item);
    } else {
      var item := SetItem(k, map[channel := value]);
      SetFutures(h, h.nextItem, item);
      EnqueueParts(h, item);
    }
    Assemble(SetOutputState(h, a, channel, value));
  }

  lemma GetFutures(h: Handler, k: GroupKey, f: Future)
    requires FuturesOk(h.items, h.waiters, h.follows) && f.Get?
    ensures FuturesOk(h.items, h.waiters[k := Waiters(h, k) + [f]], h.follows)
    ensures FuturesOk(h.items[h.nextItem := GetItem(k, f)], h.waiters[k := Waiters(h, k) + [f]], h.follows)
  {
  }

  lemma BeginGetKeeps(h: Handler, k: GroupKey)
    requires Bookkeeping(h) && IsGroup(k.1)
    ensures Bookkeeping(CommandState.BeginGet(h, k))
  {
    hide Bookkeeping, QueueOk, PhaseOk, ItemsOk, PendingOk, WritingOk, ResultsOk, FuturesOk, Waiters;
    Parts(h);
    GetFutures(h, k, Get(h.nextFuture));
    EnqueueParts(h, GetItem(k, Get(h.nextFuture)));
    Assemble(CommandState.BeginGet(h, k));
  }

  // ---- the worker -----------------------------------------------------------------------------------

  lemma TailOfDistinct(s: seq<nat>)
    requires s != [] && forall i, j :: 0 <= i < j < |s| ==> s[i] != s[j]
    ensures s[0] !in s[1..] && forall x :: x in s <==> x == s[0] || x in s[1..]
    ensures forall i, j :: 0 <= i < j < |s[1..]| ==> s[1..][i] != s[1..][j]
  {
    assert forall j :: 0 <= j < |s[1..]| ==> s[1..][j] == s[j + 1];
  }

  /** An item leaves the queue for the worker. */
  lemma PopParts(h: Handler, phase: Phase)
    requires Bookkeeping(h) && h.phase == Idle && h.queue != [] && h.queue[0] in h.items
    requires if h.items[h.queue[0]].GetItem? then phase == Idle || phase == Getting(h.queue[0]) else phase == Coalescing(h.queue[0])
    ensures QueueOk(h.queue[1..], h.items, h.nextItem, phase) && PhaseOk(h.items, phase)
    ensures PendingOk(h.queue[1..], h.items, h.pending, phase)
    ensures WritingOk(h.items, h.writing, phase) && ResultsOk(h.queue[1..], h.items, h.results, phase)
  {
    hide Bookkeeping, ItemsOk, FuturesOk;
    Parts(h);
    TailOfDistinct(h.queue);
    assert PendingOk(h.queue[1..], h.items, h.pending, phase) by {
      hide QueueOk, PhaseOk, WritingOk, ResultsOk;
      assert forall id :: id in h.items && h.items[id].SetItem? ==> Waiting(h.queue[1..], phase, id) == Waiting(h.queue, h.phase, id);
    }
  }

  lemma PopKeeps(h: Handler)
    requires Bookkeeping(h) && h.phase == Idle && h.queue != [] && h.queue[0] in h.items
    ensures Bookkeeping(CommandState.Pop(h))
  {
    hide Bookkeeping, QueueOk, PhaseOk, ItemsOk, PendingOk, WritingOk, ResultsOk, FuturesOk, Waiters, AllFinished, Released;
    Parts(h);
    ResultFacts(h);
    assert h.queue[0] in h.queue;
    PopParts(h, CommandState.Pop(h).phase);
    Assemble(CommandState.Pop(h));
  }

  /** The joiners' window closes: what was pending is now being written. */
  lemma WindowParts(h: Handler, phase: Phase)
    requires Bookkeeping(h) && h.phase.Coalescing? && BusyWithSet(h)
    requires Exchanging(phase) && phase.id == h.phase.id && (phase.Sending? ==> |phase.frame| == 6)
    ensures QueueOk(h.queue, h.items, h.nextItem, phase) && PhaseOk(h.items, phase)
    ensures PendingOk(h.queue, h.items, Released(h.pending, h.items[h.phase.id].group, h.phase.id), phase)
    ensures WritingOk(h.items, h.writing[h.items[h.phase.id].group := h.items[h.phase.id].channels], phase)
    ensures ResultsOk(h.queue, h.items, h.results, phase)
  {
    hide Bookkeeping, ItemsOk, FuturesOk;
    Parts(h);
    var id := h.phase.id;
    assert PendingOk(h.queue, h.items, Released(h.pending, h.items[id].group, id), phase) by {
      hide PhaseOk, WritingOk, ResultsOk;
      assert Waiting(h.queue, h.phase, id);
      forall x | x in h.items && h.items[x].SetItem? && Waiting(h.queue, phase, x)
        ensures x != id && Waiting(h.queue, h.phase, x)
      {
      }
    }
  }

  lemma CoalescedKeeps(h: Handler, now: int)
    requires Bookkeeping(h) && h.phase.Coalescing?
    ensures BusyWithSet(h) && Bookkeeping(CommandState.Coalesced(h, now))
  {
    hide Bookkeeping, QueueOk, PhaseOk, ItemsOk, PendingOk, WritingOk, ResultsOk, FuturesOk, Overlay, GroupBytes, Buffer, Recent, Released;
    PhaseFacts(h);
    Parts(h);
    WindowParts(h, CommandState.Coalesced(h, now).phase);
    Assemble(CommandState.Coalesced(h, now));
  }

  /** The stages of one write after its window, and the end of any exchange. */
  lemma StageParts(h: Handler, phase: Phase, results: map<Future, Outcome>)
    requires Bookkeeping(h) && (Exchanging(h.phase) || h.phase.Getting?)
    requires phase == Idle || (h.phase.Reading? && phase.Sending? && phase.id == h.phase.id && |phase.frame| == 6)
    requires forall x :: Shared(x) in results ==> Shared(x) in h.results || (phase == Idle && x == h.phase.id)
    ensures QueueOk(h.queue, h.items, h.nextItem, phase) && PhaseOk(h.items, phase)
    ensures PendingOk(h.queue, h.items, h.pending, phase)
    ensures WritingOk(h.items, if phase == Idle then map[] else h.writing, phase)
    ensures ResultsOk(h.queue, h.items, results, phase)
  {
    hide Bookkeeping, ItemsOk, FuturesOk;
    Parts(h);
    assert PendingOk(h.queue, h.items, h.pending, phase) by {
      hide QueueOk, PhaseOk, WritingOk, ResultsOk;
      assert forall id :: Waiting(h.queue, phase, id) == Waiting(h.queue, h.phase, id);
    }
    assert ResultsOk(h.queue, h.items, results, phase) by { hide PhaseOk, WritingOk, PendingOk; }
  }

  /** Finishing the reads of a group finishes no shared future. */
  lemma WaitersAreReads(h: Handler, k: GroupKey)
    requires Bookkeeping(h)
    ensures forall f :: f in Waiters(h, k) ==> f.Get?
  {
    hide Bookkeeping, QueueOk, PhaseOk, ItemsOk, PendingOk, WritingOk, ResultsOk;
    Parts(h);
    forall f | f in Waiters(h, k) ensures f.Get? {
      assert k in h.waiters;
    }
  }

  /** The read is over: what it brought is applied, and the frame goes out. */
  lemma BuildKeeps(h: Handler)
    requires Bookkeeping(h) && h.phase.Reading?
    ensures BusyWithSet(h) && Bookkeeping(Build(h, h.phase.id))
  {
    hide Bookkeeping, QueueOk, PhaseOk, ItemsOk, PendingOk, WritingOk, ResultsOk, FuturesOk, Overlay, GroupBytes, Buffer;
    PhaseFacts(h);
    Parts(h);
    StageParts(h, Build(h, h.phase.id).phase, h.results);
    Assemble(Build(h, h.phase.id));
  }

  lemma ReadDoneKeeps(h: Handler, answer: Option<seq<Byte>>, now: int)
    requires Bookkeeping(h) && h.phase.Reading?
    ensures BusyWithSet(h) && Bookkeeping(ReadDone(h, answer, now))
  {
    hide Bookkeeping, Build;
    PhaseFacts(h);
    if answer.Some? && |answer.value| >= 6 {
      var k := h.items[h.phase.id].group;
      ApplyKeeps(h, k, answer.value, now);
      var applied := ApplyGroupState(h, k, answer.value, now);
      ResolveKeeps(applied, k, answer.value, now);
      BuildKeeps(ResolvePendingGet(applied, k, answer.value, now));
    } else {
      BuildKeeps(h);
    }
  }

  /** Finishing futures other than shared ones leaves the bookkeeping alone. */
  lemma ResultsParts(h: Handler, results: map<Future, Outcome>)
    requires Bookkeeping(h)
    requires forall id :: Shared(id) in results ==> Shared(id) in h.results
    ensures ResultsOk(h.queue, h.items, results, h.phase)
  {
    hide Bookkeeping, QueueOk, PhaseOk, ItemsOk, PendingOk, WritingOk, FuturesOk;
    Parts(h);
  }

  lemma ApplyKeeps(h: Handler, k: GroupKey, state: seq<Byte>, now: int)
    requires Bookkeeping(h) && |state| >= 6
    ensures Bookkeeping(ApplyGroupState(h, k, state, now))
  {
    hide Bookkeeping, QueueOk, PhaseOk, ItemsOk, PendingOk, WritingOk, ResultsOk, FuturesOk, Overlay, PutGroup, PendingChannels, WritingChannels;
    Parts(h);
    Assemble(ApplyGroupState(h, k, state, now));
  }

  lemma ResolveKeeps(h: Handler, k: GroupKey, state: seq<Byte>, now: int)
    requires Bookkeeping(h)
    ensures Bookkeeping(ResolvePendingGet(h, k, state, now))
  {
    hide Bookkeeping, QueueOk, PhaseOk, ItemsOk, PendingOk, WritingOk, ResultsOk, FuturesOk, Waiters, FinishedAll;
    Parts(h);
    WaitersAreReads(h, k);
    ResultsParts(h, ResolvePendingGet(h, k, state, now).results);
    Assemble(ResolvePendingGet(h, k, state, now));
  }

  lemma FinishSharedResults(h: Handler, id: nat, outcome: Outcome)
    requires Bookkeeping(h)
    ensures forall x :: Shared(x) in FinishShared(h.results, h.follows, id, outcome) ==> x == id || Shared(x) in h.results
  {
    hide Bookkeeping, QueueOk, PhaseOk, ItemsOk, PendingOk, WritingOk, ResultsOk;
    Parts(h);
  }

  lemma SetOverKeeps(h: Handler, now: int)
    requires Bookkeeping(h) && h.phase.Sending?
    ensures BusyWithSet(h) && Bookkeeping(CommandState.SetDone(h, now)) && Bookkeeping(CommandState.SetFailed(h))
  {
    hide Bookkeeping, QueueOk, PhaseOk, ItemsOk, PendingOk, WritingOk, ResultsOk, FuturesOk, FinishShared;
    PhaseFacts(h);
    WritingFacts(h);
    Parts(h);
    assert h.writing - {h.items[h.phase.id].group} == map[];
    FinishSharedResults(h, h.phase.id, Answered([]));
    FinishSharedResults(h, h.phase.id, Failed);
    StageParts(h, Idle, CommandState.SetDone(h, now).results);
    StageParts(h, Idle, CommandState.SetFailed(h).results);
    Assemble(CommandState.SetDone(h, now));
    Assemble(CommandState.SetFailed(h));
  }

  lemma GetFutureOf(h: Handler)
    requires Bookkeeping(h) && h.phase.Getting?
    ensures BusyWithGet(h) && h.items[h.phase.id].future.Get? && h.writing == map[]
  {
    hide Bookkeeping, QueueOk, ItemsOk, PendingOk, WritingOk, ResultsOk;
    Parts(h);
    PhaseFacts(h);
    WritingFacts(h);
  }

  lemma GetOverKeeps(h: Handler, state: seq<Byte>, now: int)
    requires Bookkeeping(h) && h.phase.Getting?
    ensures BusyWithGet(h) && Bookkeeping(GetDone(h, state, now)) && Bookkeeping(CommandState.GetFailed(h))
  {
    hide Bookkeeping, QueueOk, PhaseOk, ItemsOk, PendingOk, WritingOk, ResultsOk, FuturesOk, Waiters, FinishedAll;
    Parts(h);
    GetFutureOf(h);
    WaitersAreReads(h, h.items[h.phase.id].group);
    StageParts(h, Idle, GetDone(h, state, now).results);
    StageParts(h, Idle, CommandState.GetFailed(h).results);
    Assemble(GetDone(h, state, now));
    Assemble(CommandState.GetFailed(h));
  }

  // ---- callers leaving --------------------------------------------------------------------------------

  lemma WaitersLeftAreReads(h: Handler, k: GroupKey, f: Future)
    requires FuturesOk(h.items, h.waiters, h.follows)
    ensures FuturesOk(h.items, WaitersLeft(h.waiters, k, f), h.follows)
  {
  }

  lemma LeaveKeeps(h: Handler, k: GroupKey, f: Future)
    requires Bookkeeping(h)
    ensures Bookkeeping(LeaveWaiters(h, k, f))
  {
    hide Bookkeeping, QueueOk, PhaseOk, ItemsOk, PendingOk, WritingOk, ResultsOk, FuturesOk, WaitersLeft;
    Parts(h);
    WaitersLeftAreReads(h, k, f);
    Assemble(LeaveWaiters(h, k, f));
  }

  lemma GiveUpKeeps(h: Handler, k: GroupKey, f: Future)
    requires Bookkeeping(h) && f in Waiters(h, k)
    ensures Bookkeeping(CommandState.GiveUpGet(h, k, f))
  {
    hide Bookkeeping, QueueOk, PhaseOk, ItemsOk, PendingOk, WritingOk, ResultsOk, FuturesOk, WaitersLeft, Waiters, OwnerFuture;
    Parts(h);
    WaitersAreReads(h, k);
    WaitersLeftAreReads(h, k, f);
    ResultsParts(h, Finished(h.results, f, Cancelled));
    Assemble(CommandState.GiveUpGet(h, k, f));
  }

  lemma CancelKeeps(h: Handler, d: Future)
    requires Bookkeeping(h) && d.Derived?
    ensures Bookkeeping(CommandState.CancelView(h, d))
  {
    hide Bookkeeping, QueueOk, PhaseOk, ItemsOk, PendingOk, WritingOk, ResultsOk, FuturesOk;
    Parts(h);
    ResultsParts(h, Finished(h.results, d, Cancelled));
    Assemble(CommandState.CancelView(h, d));
  }

  // ---- every event, every run -------------------------------------------------------------------------

  /** Every event keeps the bookkeeping. */
  lemma StepKeepsBookkeeping(w: World, e: Event)
    requires Bookkeeping(w.h) && Enabled(w, e)
    ensures Bookkeeping(Step(w, e).h)
  {
    hide Bookkeeping, GroupBytes, SetOutputState, CommandState.CancelView, ApplyGroupState, ResolvePendingGet, CommandState.BeginGet,
      CommandState.GiveUpGet, LeaveWaiters, CommandState.Pop, CommandState.Coalesced, ReadDone, CommandState.SetDone, CommandState.SetFailed,
      GetDone, CommandState.GetFailed, OutputStep;
    var h := w.h;
    match e {
      case Set(a, channel, value) => SetKeeps(h, a, channel, value);
      case CancelView(d) => CancelKeeps(h, d);
      case HostApply(k) => ApplyKeeps(h, k, Answer(w, k), w.now);
      case Feedback(k) =>
        ApplyKeeps(h, k, Answer(w, k), w.now);
        ResolveKeeps(ApplyGroupState(h, k, Answer(w, k), w.now), k, Answer(w, k), w.now);
      case BeginGet(k) => BeginGetKeeps(h, k);
      case GiveUpGet(k, f) => GiveUpKeeps(h, k, f);
      case LeaveGet(k, f) => LeaveKeeps(h, k, f);
      case Pop => PopKeeps(h);
      case Coalesced => CoalescedKeeps(h, w.now);
      case ReadAnswered => ReadDoneKeeps(h, Some(Answer(w, h.items[h.phase.id].group)), w.now);
      case ReadFailed => ReadDoneKeeps(h, None, w.now);
      case SetDone => SetOverKeeps(h, w.now);
      case SetFailed => SetOverKeeps(h, w.now);
      case GetAnswered =>
        var k := h.items[h.phase.id].group;
        ApplyKeeps(h, k, Answer(w, k), w.now);
        GetOverKeeps(AppliedGet(w), Answer(w, k), w.now);
      case GetFailed => GetOverKeeps(h, [], w.now);
      case Deliver =>
      case Wall(_, _, _) =>
      case Tick(_) =>
    }
  }

  /** The bookkeeping holds in every state of every run. */
  lemma {:induction false} RunKeepsBookkeeping(ws: seq<World>, es: seq<Event>, n: nat)
    requires IsRun(ws, es) && n <= |es|
    ensures Bookkeeping(ws[n].h)
  {
    if n > 0 {
      hide Bookkeeping, Step, Enabled, Initial;
      RunKeepsBookkeeping(ws, es, n - 1);
      StepKeepsBookkeeping(ws[n - 1], es[n - 1]);
    }
  }
}
