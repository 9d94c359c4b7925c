/** What holds over whole runs of the command handler: the last write of every channel wins,
    and a group write does not undo a change made at the wall. */
module CommandSafety {
  import opened Wrappers
  import opened Bits
  import opened CommandState
  import opened CommandRuns
  import opened CommandChannels

  // ---- last write wins -------------------------------------------------------------------------------

  /** The value will still reach the module: it waits, or its frame has not arrived yet. */
  predicate StillToCome(ch: Chan, delivered: bool) {
    ch.pending.Some? || (ch.writing.Some? && !(ch.frame.Some? && delivered))
  }

  /** The value a channel owes its callers after an event: a request sets it, a failed write
      that carried it loses it, and so does a wall key pressed once it has been delivered. */
  function WantedNext(w: World, e: Event, a: Address, c: int, want: Option<Byte>): Option<Byte>
    requires IsChannel(c)
  {
    var ch := View(w, a, c);
    match e
    case Set(a', c', value) => if a' == a && c' == c then Some(value) else want
    case SetFailed => if BusyGroup(w.h) == Some(GroupKeyOf(a, c)) && ch.writing.Some? && ch.pending.None? then None else want
    case Wall(a', c', _) => if a' == a && c' == c && !StillToCome(ch, w.delivered) then None else want
    case _ => want
  }

  function Wanted(ws: seq<World>, es: seq<Event>, n: nat, a: Address, c: int): Option<Byte>
    requires IsChannel(c) && n <= |es| && |ws| == |es| + 1
  {
    if n == 0 then None else WantedNext(ws[n - 1], es[n - 1], a, c, Wanted(ws, es, n - 1, a, c))
  }

  /** The wanted value is the newest thing known of the channel: it waits, or is being written,
      or has been written and stands in the module, the buffer and any frame under way. */
  predicate Owed(ch: Chan, delivered: bool, want: Option<Byte>) {
    want.None?
    || if ch.pending.Some? then ch.pending == want
       else if ch.writing.Some? then
         ch.writing == want && (ch.frame.Some? ==> ch.frame == want && ch.buffer == want.value && (delivered ==> ch.output == want.value))
       else ch.output == want.value && ch.buffer == want.value && (ch.frame.Some? ==> ch.frame == want)
  }

  /** Which stage of its work the worker is at shows in every channel. */
  predicate StageShows(w: World, ch: Chan, a: Address, c: int) {
    && (!Exchanging(w.h.phase) ==> ch.writing.None?)
    && (!w.h.phase.Sending? ==> ch.frame.None?)
    && (BusyGroup(w.h) != Some(GroupKeyOf(a, c)) ==> ch.writing.None? && ch.frame.None?)
    && (w.h.phase.Sending? && BusyGroup(w.h) == Some(GroupKeyOf(a, c)) ==> ch.frame.Some?)
  }

  lemma ViewShowsStage(w: World, a: Address, c: int)
    requires Bookkeeping(w.h) && IsChannel(c)
    ensures StageShows(w, View(w, a, c), a, c)
  {
    hide Bookkeeping, PendingByte, ImageByte;
    WritingFacts(w.h);
    PhaseFacts(w.h);
  }

  lemma StepOwes(w: World, e: Event, a: Address, c: int, want: Option<Byte>)
    requires Bookkeeping(w.h) && Enabled(w, e) && IsChannel(c)
    requires Owed(View(w, a, c), w.delivered, want)
    ensures Owed(View(Step(w, e), a, c), Step(w, e).delivered, WantedNext(w, e, a, c, want))
  {
    hide Bookkeeping, View, HandlerStep, OutputStep, Recent;
    StepMovesChannel(w, e, a, c);
    ViewShowsStage(w, a, c);
  }

  lemma {:induction false} RunOwes(ws: seq<World>, es: seq<Event>, n: nat, a: Address, c: int)
    requires IsRun(ws, es) && n <= |es| && IsChannel(c)
    ensures Owed(View(ws[n], a, c), ws[n].delivered, Wanted(ws, es, n, a, c))
  {
    hide Bookkeeping, View, Step, WantedNext, Enabled, Initial;
    if n > 0 {
      hide Owed, IsRun;
      RunOwes(ws, es, n - 1, a, c);
      RunKeepsBookkeeping(ws, es, n - 1);
      RunStep(ws, es, n - 1);
      StepOwes(ws[n - 1], es[n - 1], a, c, Wanted(ws, es, n - 1, a, c));
    }
  }

  /** Nothing waits for a frame and none is under way. */
  predicate AtRest(h: Handler) {
    h.queue == [] && h.phase == Idle
  }

  lemma RestShows(w: World, a: Address, c: int)
    requires Bookkeeping(w.h) && AtRest(w.h) && IsChannel(c)
    ensures View(w, a, c).pending.None? && View(w, a, c).writing.None?
  {
    hide Bookkeeping, ImageByte;
    ViewShowsStage(w, a, c);
    if GroupKeyOf(a, c) in w.h.pending {
      PendingFacts(w.h, GroupKeyOf(a, c));
    }
  }

  /** Once the queue is empty every channel holds the value it owes, whatever failed or was
      pressed on the way. */
  lemma QueueEmptyHoldsWanted(ws: seq<World>, es: seq<Event>, a: Address, c: int)
    requires IsRun(ws, es) && IsChannel(c) && AtRest(ws[|es|].h)
    ensures Wanted(ws, es, |es|, a, c).Some? ==> Outputs(ws[|es|], a)[c - 1] == Wanted(ws, es, |es|, a, c).value
  {
    hide Bookkeeping;
    RunOwes(ws, es, |es|, a, c);
    RunKeepsBookkeeping(ws, es, |es|);
    RestShows(ws[|es|], a, c);
    assert View(ws[|es|], a, c).output == Outputs(ws[|es|], a)[c - 1];
  }

  /** The last value asked for among the first `n` events. */
  function LastAsked(es: seq<Event>, n: nat, a: Address, c: int): Option<Byte>
    requires n <= |es|
  {
    if n == 0 then None
    else if es[n - 1].Set? && es[n - 1].a == a && es[n - 1].channel == c then Some(es[n - 1].value)
    else LastAsked(es, n - 1, a, c)
  }

  lemma {:induction false} UndisturbedWants(ws: seq<World>, es: seq<Event>, n: nat, a: Address, c: int)
    requires IsRun(ws, es) && n <= |es| && IsChannel(c)
    requires forall i :: 0 <= i < n ==> !es[i].SetFailed? && !es[i].Wall?
    ensures Wanted(ws, es, n, a, c) == LastAsked(es, n, a, c)
  {
    if n > 0 {
      UndisturbedWants(ws, es, n - 1, a, c);
    }
  }

  /** Last write wins: for every interleaving of requests, host reads and worker steps in which
      the writes succeed, an empty queue means every requested channel of the module holds the
      last value asked for. */
  lemma LastWriteWins(ws: seq<World>, es: seq<Event>, a: Address, c: int)
    requires IsRun(ws, es) && IsChannel(c) && AtRest(ws[|es|].h)
    requires forall i :: 0 <= i < |es| ==> !es[i].SetFailed? && !es[i].Wall?
    ensures LastAsked(es, |es|, a, c).Some? ==> Outputs(ws[|es|], a)[c - 1] == LastAsked(es, |es|, a, c).value
  {
    UndisturbedWants(ws, es, |es|, a, c);
    QueueEmptyHoldsWanted(ws, es, a, c);
  }

  // ---- a group write does not undo a wall change -----------------------------------------------------

  /** An event in the middle of a group's exchange that leaves the handler with a wrong idea of
      the channel when the exchange is over: an answer of the group applied before its frame
      arrives, or a wall key pressed after. */
  predicate Crosses(w: World, e: Event, a: Address, c: int) {
    var k := GroupKeyOf(a, c);
    SendingGroup(w.h) == Some(k)
    && match e
       case HostApply(k') => k' == k && !w.delivered
       case Feedback(k') => k' == k && !w.delivered
       case Wall(a', c', _) => a' == a && c' == c && w.delivered
       case _ => false
  }

  /** The exchange under way is one that was crossed. */
  function CrossedNext(w: World, e: Event, w': World, a: Address, c: int, crossed: bool): bool {
    var k := GroupKeyOf(a, c);
    SendingGroup(w.h) == Some(k) && SendingGroup(w'.h) == Some(k) && (crossed || Crosses(w, e, a, c))
  }

  function Crossed(ws: seq<World>, es: seq<Event>, n: nat, a: Address, c: int): bool
    requires n <= |es| && |ws| == |es| + 1
  {
    n > 0 && CrossedNext(ws[n - 1], es[n - 1], ws[n], a, c, Crossed(ws, es, n - 1, a, c))
  }

  /** What parts the buffer from the module: a wall key on the channel, a failed write that
      carried it, or the crossing of an exchange. */
  predicate Disturbs(w: World, e: Event, a: Address, c: int)
    requires IsChannel(c)
  {
    match e
    case Wall(a', c', _) => a' == a && c' == c
    case SetFailed => BusyGroup(w.h) == Some(GroupKeyOf(a, c)) && View(w, a, c).writing.Some?
    case _ => Crosses(w, e, a, c)
  }

  /** Event `j` disturbs the channel, or belongs to a crossed exchange of its group. */
  predicate Trouble(ws: seq<World>, es: seq<Event>, j: nat, a: Address, c: int)
    requires IsChannel(c) && j < |es| && |ws| == |es| + 1
  {
    Disturbs(ws[j], es[j], a, c) || Crossed(ws, es, j, a, c)
  }

  /** The event puts the buffer in step with the module. */
  predicate CatchesUp(w: World, e: Event, k: GroupKey) {
    (e.HostApply? && e.k == k) || (e.Feedback? && e.k == k)
    || ((e.GetAnswered? || e.ReadAnswered? || e.Deliver?) && BusyGroup(w.h) == Some(k))
  }

  /** The buffer was last put in step with the module after the last trouble. */
  function Settled(ws: seq<World>, es: seq<Event>, n: nat, a: Address, c: int): bool
    requires IsChannel(c) && n <= |es| && |ws| == |es| + 1
  {
    n > 0 && !Trouble(ws, es, n - 1, a, c)
    && (Settled(ws, es, n - 1, a, c) || CatchesUp(ws[n - 1], es[n - 1], GroupKeyOf(a, c)))
  }

  /** A settled channel that no request covers has the module's output in the buffer and in any
      frame under way; unless the exchange was crossed, a delivered frame is what the module
      holds. */
  predicate InStep(ch: Chan, delivered: bool, settled: bool, crossed: bool) {
    && (settled && ch.pending.None? && ch.writing.None? ==> ch.buffer == ch.output && (ch.frame.Some? ==> ch.frame.value == ch.buffer))
    && (ch.frame.Some? && ch.writing.Some? ==> ch.frame == ch.writing)
    && (ch.frame.Some? && !crossed ==>
          (ch.pending.None? ==> ch.frame.value == ch.buffer) && (delivered ==> ch.output == ch.frame.value && settled))
  }

  lemma FrameShows(w: World, a: Address, c: int)
    requires Bookkeeping(w.h) && IsChannel(c)
    ensures View(w, a, c).frame.Some? <==> SendingGroup(w.h) == Some(GroupKeyOf(a, c))
  {
    hide Bookkeeping, PendingByte, WritingByte, ImageByte;
    PhaseFacts(w.h);
  }

  lemma StepStaysInStep(w: World, e: Event, a: Address, c: int, settled: bool, crossed: bool)
    requires Bookkeeping(w.h) && Enabled(w, e) && IsChannel(c)
    requires InStep(View(w, a, c), w.delivered, settled, crossed)
    ensures InStep(View(Step(w, e), a, c), Step(w, e).delivered,
                   !(Disturbs(w, e, a, c) || crossed) && (settled || CatchesUp(w, e, GroupKeyOf(a, c))), CrossedNext(w, e, Step(w, e), a, c, crossed))
  {
    hide Bookkeeping, View, HandlerStep, OutputStep, Recent, SendingGroup;
    StepMovesChannel(w, e, a, c);
    StepKeepsBookkeeping(w, e);
    ViewShowsStage(w, a, c);
    FrameShows(w, a, c);
    FrameShows(Step(w, e), a, c);
    PhaseFacts(w.h);
  }

  lemma {:induction false} RunStaysInStep(ws: seq<World>, es: seq<Event>, n: nat, a: Address, c: int)
    requires IsRun(ws, es) && n <= |es| && IsChannel(c)
    ensures InStep(View(ws[n], a, c), ws[n].delivered, Settled(ws, es, n, a, c), Crossed(ws, es, n, a, c))
  {
    if n == 0 {
      hide Step, Enabled;
    } else {
      hide Bookkeeping, View, Step, Enabled, InStep, Disturbs, CatchesUp, CrossedNext, IsRun;
      RunStaysInStep(ws, es, n - 1, a, c);
      RunKeepsBookkeeping(ws, es, n - 1);
      RunStep(ws, es, n - 1);
      StepStaysInStep(ws[n - 1], es[n - 1], a, c, Settled(ws, es, n - 1, a, c), Crossed(ws, es, n - 1, a, c));
    }
  }

  /** The events after which a group's state counts as recent. */
  predicate Refreshes(w: World, e: Event, k: GroupKey) {
    (e.HostApply? && e.k == k) || (e.Feedback? && e.k == k)
    || ((e.GetAnswered? || e.ReadAnswered? || e.SetDone?) && BusyGroup(w.h) == Some(k))
  }

  /** A group's entry in one table of clocks, and the entry after it. */
  predicate Clocked(before: map<GroupKey, int>, after: map<GroupKey, int>, k: GroupKey, refreshed: bool, now: int) {
    if refreshed then k in after && after[k] == now
    else (k in after <==> k in before) && (k in before ==> after[k] == before[k])
  }

  lemma ApplyClock(h: Handler, k: GroupKey, state: seq<Byte>, now: int, other: GroupKey)
    requires |state| >= 6
    ensures Clocked(h.knownAt, ApplyGroupState(h, k, state, now).knownAt, other, other == k, now)
    ensures ResolvePendingGet(ApplyGroupState(h, k, state, now), k, state, now).knownAt == ApplyGroupState(h, k, state, now).knownAt
  {
    hide Overlay, PutGroup, Buffer, FinishedAll, Waiters, PendingChannels, WritingChannels;
  }

  lemma WorkerClock(w: World, e: Event, k: GroupKey)
    requires Bookkeeping(w.h) && Enabled(w, e)
    requires e.ReadAnswered? || e.GetAnswered? || e.SetDone?
    ensures Clocked(w.h.knownAt, HandlerStep(w, e).knownAt, k, BusyGroup(w.h) == Some(k), w.now)
  {
    hide Bookkeeping, ApplyGroupState, GroupBytes, FinishedAll, FinishShared, Waiters, Buffer, Overlay;
    PhaseFacts(w.h);
    if !e.SetDone? {
      var group := w.h.items[w.h.phase.id].group;
      ApplyClock(w.h, group, Answer(w, group), w.now, k);
    }
  }

  lemma OtherClock(w: World, e: Event, k: GroupKey)
    requires Bookkeeping(w.h) && Enabled(w, e)
    requires !(e.ReadAnswered? || e.GetAnswered? || e.SetDone? || e.HostApply? || e.Feedback?)
    ensures Clocked(w.h.knownAt, HandlerStep(w, e).knownAt, k, false, w.now)
  {
    hide Clocked, Bookkeeping, CommandState.Coalesced, ReadDone, SetOutputState, CommandState.BeginGet, CommandState.GiveUpGet, LeaveWaiters,
      CommandState.Pop, CommandState.SetFailed, CommandState.GetFailed, CommandState.CancelView;
    SameClock(w.h.knownAt, k, w.now);
    match e {
      case Coalesced => CoalescedClock(w.h, w.now);
      case ReadFailed => BuildClock(w.h, w.h.phase.id, w.now);
      case Set(a, channel, value) => SetClock(w.h, a, channel, value);
      case Pop => PopClock(w.h);
      case _ => QuietClock(w, e);
    }
  }

  lemma SetClock(h: Handler, a: Address, channel: int, value: Byte)
    ensures SetOutputState(h, a, channel, value).knownAt == h.knownAt
  {
    hide PutChannel, Buffer;
    if (a, GroupOf(channel)) in h.pending {
    }
  }

  lemma PopClock(h: Handler)
    requires h.phase == Idle && h.queue != [] && h.queue[0] in h.items
    ensures CommandState.Pop(h).knownAt == h.knownAt
  {
    hide Waiters, AllFinished, Released;
    match h.items[h.queue[0]] {
      case GetItem(k, f) => assert CommandState.Pop(h).knownAt == h.knownAt;
      case SetItem(k, channels) => assert CommandState.Pop(h).knownAt == h.knownAt;
    }
  }

  lemma QuietClock(w: World, e: Event)
    requires Enabled(w, e)
    requires e.BeginGet? || e.GiveUpGet? || e.LeaveGet? || e.SetFailed? || e.GetFailed? || e.CancelView? || e.Deliver? || e.Wall? || e.Tick?
    ensures HandlerStep(w, e).knownAt == w.h.knownAt
  {
    hide FinishedAll, FinishShared, Finished, WaitersLeft, Waiters, OwnerFuture;
    match e {
      case BeginGet(k) => assert CommandState.BeginGet(w.h, k).knownAt == w.h.knownAt;
      case GiveUpGet(k, f) => assert CommandState.GiveUpGet(w.h, k, f).knownAt == w.h.knownAt;
      case LeaveGet(k, f) =>
      case CancelView(d) =>
      case SetFailed =>
      case GetFailed =>
      case Deliver =>
      case Wall(_, _, _) =>
      case Tick(_) =>
    }
  }

  lemma SameClock(known: map<GroupKey, int>, k: GroupKey, now: int)
    ensures Clocked(known, known, k, false, now)
  {
  }

  lemma BuildClock(h: Handler, id: nat, now: int)
    requires id in h.items && h.items[id].SetItem?
    ensures CommandState.Build(h, id).knownAt == h.knownAt
    ensures h.phase == Reading(id) ==> ReadDone(h, None, now) == CommandState.Build(h, id)
  {
    hide Overlay, GroupBytes, Buffer;
  }

  lemma CoalescedClock(h: Handler, now: int)
    requires h.phase.Coalescing? && BusyWithSet(h)
    ensures CommandState.Coalesced(h, now).knownAt == h.knownAt
  {
    hide CommandState.Build, Released, Recent;
    var id, item := h.phase.id, h.items[h.phase.id];
    BuildClock(h.(pending := Released(h.pending, item.group, id), writing := h.writing[item.group := item.channels]), id, now);
  }

  /** Only those make it recent, and they set the clock of the group to now. */
  lemma StepRefreshes(w: World, e: Event, k: GroupKey)
    requires Bookkeeping(w.h) && Enabled(w, e)
    ensures Clocked(w.h.knownAt, Step(w, e).h.knownAt, k, Refreshes(w, e, k), w.now)
  {
    hide Bookkeeping, ApplyGroupState, GroupBytes, ResolvePendingGet, OutputStep;
    if e.HostApply? || e.Feedback? {
      ApplyClock(w.h, e.k, Answer(w, e.k), w.now, k);
    } else {
      hide HandlerStep;
      if e.ReadAnswered? || e.GetAnswered? || e.SetDone? {
        WorkerClock(w, e, k);
      } else {
        OtherClock(w, e, k);
      }
    }
  }

  lemma TimePasses(w: World, e: Event)
    requires Enabled(w, e)
    ensures w.now <= Step(w, e).now
  {
    hide HandlerStep, OutputStep;
  }

  lemma StartKnowsNothing(ws: seq<World>, es: seq<Event>, k: GroupKey)
    requires IsRun(ws, es)
    ensures k !in ws[0].h.knownAt
  {
    hide Step, Enabled;
  }

  lemma {:induction false} KnownInThePast(ws: seq<World>, es: seq<Event>, n: nat, k: GroupKey)
    requires IsRun(ws, es) && n <= |es|
    ensures k in ws[n].h.knownAt ==> ws[n].h.knownAt[k] <= ws[n].now
  {
    hide Bookkeeping, Step, Enabled, Refreshes, IsRun;
    if n == 0 {
      StartKnowsNothing(ws, es, k);
    } else {
      KnownInThePast(ws, es, n - 1, k);
      RunKeepsBookkeeping(ws, es, n - 1);
      RunStep(ws, es, n - 1);
      StepRefreshes(ws[n - 1], es[n - 1], k);
      TimePasses(ws[n - 1], es[n - 1]);
    }
  }

  /** A group whose state counts as recent is settled, or saw trouble since. */
  lemma {:induction false} RecentOrDisturbed(ws: seq<World>, es: seq<Event>, n: nat, a: Address, c: int) returns (j: nat)
    requires IsRun(ws, es) && n <= |es| && IsChannel(c)
    ensures j == n || (j < n && Trouble(ws, es, j, a, c))
    ensures GroupKeyOf(a, c) in ws[n].h.knownAt && !Settled(ws, es, n, a, c) ==>
      j < n && ws[j].now >= ws[n].h.knownAt[GroupKeyOf(a, c)]
  {
    hide Trouble, Settled, IsRun, Step, Enabled;
    if n == 0 {
      j := n;
      StartKnowsNothing(ws, es, GroupKeyOf(a, c));
    } else {
      j := RecentOrDisturbed(ws, es, n - 1, a, c);
      RunStep(ws, es, n - 1);
      if Trouble(ws, es, n - 1, a, c) {
        j := n - 1;
        StillInThePast(ws, es, n - 1, GroupKeyOf(a, c));
      } else {
        UnsettledKeepsClock(ws, es, n - 1, a, c);
        if j == n - 1 { j := n; }
      }
    }
  }

  lemma StillInThePast(ws: seq<World>, es: seq<Event>, n: nat, k: GroupKey)
    requires IsRun(ws, es) && n < |es|
    ensures k in ws[n + 1].h.knownAt ==> ws[n].now >= ws[n + 1].h.knownAt[k]
  {
    hide Bookkeeping, Step, Enabled, IsRun, Refreshes;
    RunKeepsBookkeeping(ws, es, n);
    RunStep(ws, es, n);
    StepRefreshes(ws[n], es[n], k);
    KnownInThePast(ws, es, n, k);
  }

  /** Without trouble, a known group that is not settled after an event was not before, and was
      known since the same moment. */
  lemma UnsettledKeepsClock(ws: seq<World>, es: seq<Event>, n: nat, a: Address, c: int)
    requires IsRun(ws, es) && n < |es| && IsChannel(c) && !Trouble(ws, es, n, a, c)
    ensures GroupKeyOf(a, c) in ws[n + 1].h.knownAt && !Settled(ws, es, n + 1, a, c) ==>
      && !Settled(ws, es, n, a, c) && GroupKeyOf(a, c) in ws[n].h.knownAt
      && ws[n + 1].h.knownAt[GroupKeyOf(a, c)] == ws[n].h.knownAt[GroupKeyOf(a, c)]
  {
    hide Bookkeeping, Step, Enabled, IsRun, Trouble, Settled, Refreshes;
    RunKeepsBookkeeping(ws, es, n);
    RunStep(ws, es, n);
    StepRefreshes(ws[n], es[n], GroupKeyOf(a, c));
    RefreshedIsSettled(ws, es, n, a, c);
  }

  /** Settled channels stay so, and become so when their group's state becomes recent, but for
      trouble. */
  lemma RefreshedIsSettled(ws: seq<World>, es: seq<Event>, n: nat, a: Address, c: int)
    requires IsRun(ws, es) && n < |es| && IsChannel(c) && !Trouble(ws, es, n, a, c)
    ensures Settled(ws, es, n, a, c) || Refreshes(ws[n], es[n], GroupKeyOf(a, c)) ==> Settled(ws, es, n + 1, a, c)
  {
    hide Trouble, Step, Enabled, IsRun;
    RunStep(ws, es, n);
    if es[n].SetDone? && BusyGroup(ws[n].h) == Some(GroupKeyOf(a, c)) {
      AcknowledgedIsSettled(ws, es, n, a, c);
    }
  }

  lemma AcknowledgedIsSettled(ws: seq<World>, es: seq<Event>, n: nat, a: Address, c: int)
    requires IsRun(ws, es) && n < |es| && IsChannel(c) && es[n].SetDone?
    requires BusyGroup(ws[n].h) == Some(GroupKeyOf(a, c))
    ensures Settled(ws, es, n, a, c) || Trouble(ws, es, n, a, c)
  {
    hide Bookkeeping, View, Step, Settled, Crossed;
    RunStaysInStep(ws, es, n, a, c);
    RunKeepsBookkeeping(ws, es, n);
    ViewShowsStage(ws[n], a, c);
  }

  /** The event takes a group's frame from the buffer, after a read that answered or because
      the group's state is recent. */
  predicate BuildsFrame(w: World, e: Event, k: GroupKey) {
    BusyGroup(w.h) == Some(k) && (e.ReadAnswered? || (e.Coalesced? && Recent(w.h, k, w.now)))
  }

  /** The worker reads a group before it writes it exactly when the group's state is unknown or more
      than three seconds old. */
  lemma ReadsBeforeWriting(w: World)
    requires Enabled(w, Event.Coalesced)
    ensures var k, phase := w.h.items[w.h.phase.id].group, Step(w, Event.Coalesced).h.phase;
      && (phase.Reading? <==> k !in w.h.knownAt || w.now - w.h.knownAt[k] > 3000)
      && (phase.Sending? <==> !phase.Reading?) && phase.id == w.h.phase.id
  {
    hide Overlay, Buffer, GroupBytes, Released, OutputStep;
  }

  /** A group write does not undo a wall change. In every run, each byte of a frame that no
      outstanding request covers is the module's own output at the moment the frame is built,
      always after a read that answered, and without one unless the channel saw trouble within
      the last three seconds. */
  lemma NeverUndoesWallChange(ws: seq<World>, es: seq<Event>, n: nat, a: Address, c: int)
    requires IsRun(ws, es) && n < |es| && IsChannel(c) && BuildsFrame(ws[n], es[n], GroupKeyOf(a, c))
    requires es[n].Coalesced? ==> forall j :: 0 <= j < n && Trouble(ws, es, j, a, c) ==> ws[n].now - ws[j].now > 3000
    ensures var ch := View(ws[n + 1], a, c);
      ch.frame.Some? && (ch.pending.None? && ch.writing.None? ==> ch.frame.value == Outputs(ws[n], a)[c - 1])
  {
    hide Bookkeeping, HandlerStep, OutputStep, View, Trouble, Settled, Crossed;
    RunStaysInStep(ws, es, n, a, c);
    RunKeepsBookkeeping(ws, es, n);
    StepMovesChannel(ws[n], es[n], a, c);
    ViewShowsStage(ws[n], a, c);
    OutputOfView(ws[n], a, c);
    if es[n].Coalesced? {
      var j := RecentOrDisturbed(ws, es, n, a, c);
      assert Settled(ws, es, n, a, c);
    }
  }

  /** Exchanges that nothing crosses leave wall keys and failed writes as the only trouble. */
  lemma {:induction false} NothingCrossed(ws: seq<World>, es: seq<Event>, n: nat, a: Address, c: int)
    requires |ws| == |es| + 1 && n <= |es| && forall i :: 0 <= i < n ==> !Crosses(ws[i], es[i], a, c)
    ensures !Crossed(ws, es, n, a, c)
  {
    if n > 0 {
      NothingCrossed(ws, es, n - 1, a, c);
    }
  }

  /** Where nothing crosses an exchange, only a wall key on the channel or a failed write that
      carried it, in the last three seconds, can part a built frame from the module. */
  lemma UncrossedNeverUndoes(ws: seq<World>, es: seq<Event>, n: nat, a: Address, c: int)
    requires IsRun(ws, es) && n < |es| && IsChannel(c) && BuildsFrame(ws[n], es[n], GroupKeyOf(a, c))
    requires forall i :: 0 <= i < n ==> !Crosses(ws[i], es[i], a, c)
    requires forall i :: 0 <= i < n && ws[n].now - ws[i].now <= 3000 ==>
      !(es[i].Wall? && es[i].a == a && es[i].channel == c) && !(es[i].SetFailed? && View(ws[i], a, c).writing.Some?)
    ensures var ch := View(ws[n + 1], a, c);
      ch.frame.Some? && (ch.pending.None? && ch.writing.None? ==> ch.frame.value == Outputs(ws[n], a)[c - 1])
  {
    hide View, Crossed, Step, Enabled, Initial, BuildsFrame, Crosses;
    forall j | 0 <= j < n && Trouble(ws, es, j, a, c) ensures ws[n].now - ws[j].now > 3000 {
      NothingCrossed(ws, es, j, a, c);
    }
    NeverUndoesWallChange(ws, es, n, a, c);
  }

  // ---- what an uncovered byte of a frame is -----------------------------------------------------------

  /** An answer of the group is applied. */
  predicate Shows(w: World, e: Event, k: GroupKey) {
    (e.HostApply? && e.k == k) || (e.Feedback? && e.k == k) || ((e.GetAnswered? || e.ReadAnswered?) && BusyGroup(w.h) == Some(k))
  }

  /** The last the handler has heard of the channel: a request for it, or the module's output in
      an answer applied while no request was outstanding. */
  function LastKnown(ws: seq<World>, es: seq<Event>, n: nat, a: Address, c: int): Byte
    requires IsChannel(c) && n <= |es| && |ws| == |es| + 1
  {
    if n == 0 then View(ws[0], a, c).buffer else KnownNext(ws[n - 1], es[n - 1], a, c, LastKnown(ws, es, n - 1, a, c))
  }

  function KnownNext(w: World, e: Event, a: Address, c: int, known: Byte): Byte
    requires IsChannel(c)
  {
    var ch := View(w, a, c);
    if e.Set? && e.a == a && e.channel == c then e.value
    else if Shows(w, e, GroupKeyOf(a, c)) && ch.pending.None? && ch.writing.None? then ch.output
    else known
  }

  /** Requests outstanding carry it, and without any the buffer holds it. */
  predicate Remembers(ch: Chan, known: Byte) {
    if ch.pending.Some? then ch.pending.value == known
    else if ch.writing.Some? then ch.writing.value == known && (ch.frame.Some? ==> ch.buffer == known)
    else ch.buffer == known
  }

  lemma StepRemembers(w: World, e: Event, a: Address, c: int, known: Byte)
    requires Bookkeeping(w.h) && Enabled(w, e) && IsChannel(c) && Remembers(View(w, a, c), known)
    ensures Remembers(View(Step(w, e), a, c), KnownNext(w, e, a, c, known))
  {
    hide Bookkeeping, View, HandlerStep, OutputStep, Recent;
    StepMovesChannel(w, e, a, c);
    ViewShowsStage(w, a, c);
    PhaseFacts(w.h);
  }

  lemma {:induction false} RunRemembers(ws: seq<World>, es: seq<Event>, n: nat, a: Address, c: int)
    requires IsRun(ws, es) && n <= |es| && IsChannel(c)
    ensures Remembers(View(ws[n], a, c), LastKnown(ws, es, n, a, c))
  {
    hide Bookkeeping, View, Step, Enabled, KnownNext, Initial;
    if n == 0 {
      RestKnows(ws[0], a, c);
    } else {
      hide Remembers;
      RunRemembers(ws, es, n - 1, a, c);
      RunKeepsBookkeeping(ws, es, n - 1);
      RunStep(ws, es, n - 1);
      StepRemembers(ws[n - 1], es[n - 1], a, c, LastKnown(ws, es, n - 1, a, c));
    }
  }

  lemma RestKnows(w: World, a: Address, c: int)
    requires Initial(w) && IsChannel(c)
    ensures View(w, a, c).pending.None? && View(w, a, c).writing.None?
  {
  }

  /** In every run, whatever fails and whoever interferes: a byte of a frame that no outstanding
      request covers is the last the handler has heard of its channel. So the frame keeps the
      channel as it is if and only if the read before it answered, or the module still drives what
      the handler last heard. */
  lemma UncoveredByteExactly(ws: seq<World>, es: seq<Event>, n: nat, a: Address, c: int)
    requires IsRun(ws, es) && n < |es| && IsChannel(c)
    requires BuildsFrame(ws[n], es[n], GroupKeyOf(a, c)) || (es[n].ReadFailed? && BusyGroup(ws[n].h) == Some(GroupKeyOf(a, c)))
    ensures var ch, known, driven := View(ws[n + 1], a, c), LastKnown(ws, es, n, a, c), Outputs(ws[n], a)[c - 1];
      && ch.frame.Some?
      && (ch.pending.None? && ch.writing.None? ==>
            && ch.frame.value == LastKnown(ws, es, n + 1, a, c)
            && (ch.frame.value == driven <==> es[n].ReadAnswered? || known == driven))
  {
    hide Bookkeeping, HandlerStep, OutputStep, View, Initial;
    RunRemembers(ws, es, n, a, c);
    RunRemembers(ws, es, n + 1, a, c);
    RunKeepsBookkeeping(ws, es, n);
    StepMovesChannel(ws[n], es[n], a, c);
    ViewShowsStage(ws[n], a, c);
    OutputOfView(ws[n], a, c);
  }

  lemma OutputOfView(w: World, a: Address, c: int)
    requires IsChannel(c)
    ensures View(w, a, c).output == Outputs(w, a)[c - 1]
  {
  }
}
