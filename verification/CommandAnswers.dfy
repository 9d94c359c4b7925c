/** What a caller's future is finished with, by which event, and that each is finished once. */
module CommandAnswers {
  import opened Wrappers
  import opened Bits
  import opened CommandState
  import opened CommandRuns
  import opened CommandChannels
  import opened CommandReads
  import opened CommandSafety

  /** The item the worker is busy with. */
  function Busy(h: Handler): Option<Item> {
    if h.phase != Idle && h.phase.id in h.items then Some(h.items[h.phase.id]) else None
  }

  /** The future waits for the group's state, or belongs to the read itself. */
  predicate AsksFor(h: Handler, item: Item, f: Future) {
    f in Waiters(h, item.group) || (item.GetItem? && f == item.future)
  }

  /** The future is the one the write in flight shares, or a view of it. */
  predicate TellsOf(h: Handler, id: nat, f: Future) {
    f == Shared(id) || (f in h.follows && h.follows[f] == Shared(id))
  }

  /** What an event finishes an open future with, if it does: a read with the bytes the module drives,
      a write with its acknowledgement, either with a failure, and a caller's own with its giving up. */
  function Fate(w: World, e: Event, f: Future): Option<Outcome> {
    var item := Busy(w.h);
    match e
    case CancelView(d) => if f == d then Some(Cancelled) else None
    case GiveUpGet(_, g) => if f == g then Some(Cancelled) else None
    case Feedback(k) => if f in Waiters(w.h, k) then Some(Answered(Answer(w, k))) else None
    case ReadAnswered => if item.Some? && f in Waiters(w.h, item.value.group) then Some(Answered(Answer(w, item.value.group))) else None
    case GetAnswered => if item.Some? && AsksFor(w.h, item.value, f) then Some(Answered(Answer(w, item.value.group))) else None
    case GetFailed => if item.Some? && AsksFor(w.h, item.value, f) then Some(Failed) else None
    case SetDone => if item.Some? && TellsOf(w.h, w.h.phase.id, f) then Some(Answered([])) else None
    case SetFailed => if item.Some? && TellsOf(w.h, w.h.phase.id, f) then Some(Failed) else None
    case _ => None
  }

  /** A future's outcome in two tables of results. */
  predicate Finishes(before: map<Future, Outcome>, after: map<Future, Outcome>, f: Future, fate: Option<Outcome>) {
    if f in before then f in after && after[f] == before[f]
    else if fate.Some? then f in after && after[f] == fate.value
    else f !in after
  }

  lemma FinishedAs(results: map<Future, Outcome>, g: Future, outcome: Outcome, f: Future)
    ensures Finishes(results, Finished(results, g, outcome), f, if f == g then Some(outcome) else None)
  {
  }

  lemma FinishedAllAs(results: map<Future, Outcome>, fs: seq<Future>, outcome: Outcome, f: Future)
    ensures Finishes(results, FinishedAll(results, fs, outcome), f, if f in fs then Some(outcome) else None)
  {
  }

  lemma NoFate(results: map<Future, Outcome>, f: Future)
    ensures Finishes(results, results, f, None)
  {
  }

  lemma ApplyFinishesNothing(h: Handler, k: GroupKey, state: seq<Byte>, now: int)
    requires |state| >= 6
    ensures ApplyGroupState(h, k, state, now).results == h.results && ApplyGroupState(h, k, state, now).waiters == h.waiters
    ensures ApplyGroupState(h, k, state, now).items == h.items && ApplyGroupState(h, k, state, now).phase == h.phase
  {
    hide Overlay, PutGroup, Buffer, PendingChannels, WritingChannels;
  }

  lemma BuildFinishesNothing(h: Handler, id: nat)
    requires id in h.items && h.items[id].SetItem?
    ensures CommandState.Build(h, id).results == h.results
  {
    hide Overlay, GroupBytes, Buffer;
  }

  lemma ReadDoneFinishes(h: Handler, answer: Option<seq<Byte>>, now: int, f: Future)
    requires h.phase.Reading? && BusyWithSet(h) && (answer.Some? ==> |answer.value| >= 6)
    ensures Finishes(h.results, ReadDone(h, answer, now).results, f,
      if answer.Some? && f in Waiters(h, h.items[h.phase.id].group) then Some(Answered(answer.value)) else None)
  {
    hide ApplyGroupState, CommandState.Build, FinishedAll;
    var k := h.items[h.phase.id].group;
    NoFate(h.results, f);
    if answer.Some? {
      var applied := ApplyGroupState(h, k, answer.value, now);
      ApplyFinishesNothing(h, k, answer.value, now);
      FinishedAllAs(h.results, Waiters(h, k), Answered(answer.value), f);
      var resolved := ResolvePendingGet(applied, k, answer.value, now);
      BuildFinishesNothing(resolved, h.phase.id);
    } else {
      BuildFinishesNothing(h, h.phase.id);
    }
  }

  lemma GetDoneFinishes(h: Handler, state: seq<Byte>, now: int, f: Future)
    requires BusyWithGet(h)
    ensures Finishes(h.results, GetDone(h, state, now).results, f, if AsksFor(h, h.items[h.phase.id], f) then Some(Answered(state)) else None)
  {
    hide Finished, FinishedAll, Waiters;
    var item := h.items[h.phase.id];
    FinishedAs(h.results, item.future, Answered(state), f);
    FinishedAllAs(Finished(h.results, item.future, Answered(state)), Waiters(h, item.group), Answered(state), f);
  }

  lemma GetFailedFinishes(h: Handler, f: Future)
    requires BusyWithGet(h)
    ensures Finishes(h.results, CommandState.GetFailed(h).results, f, if AsksFor(h, h.items[h.phase.id], f) then Some(Failed) else None)
  {
    hide Finished, FinishedAll, Waiters;
    var item := h.items[h.phase.id];
    FinishedAs(h.results, item.future, Failed, f);
    FinishedAllAs(Finished(h.results, item.future, Failed), Waiters(h, item.group), Failed, f);
  }

  lemma SetOverFinishes(h: Handler, now: int, f: Future)
    requires Bookkeeping(h) && h.phase.Sending? && BusyWithSet(h)
    ensures var tells := TellsOf(h, h.phase.id, f);
      && Finishes(h.results, CommandState.SetDone(h, now).results, f, if tells then Some(Answered([])) else None)
      && Finishes(h.results, CommandState.SetFailed(h).results, f, if tells then Some(Failed) else None)
  {
    hide Bookkeeping;
    ResultFacts(h);
  }

  lemma QuietlyFinishes(w: World, e: Event, f: Future)
    requires Bookkeeping(w.h) && Enabled(w, e)
    requires e.Set? || e.HostApply? || e.BeginGet? || e.LeaveGet? || e.Pop? || e.Coalesced? || e.Deliver? || e.Wall? || e.Tick?
    ensures HandlerStep(w, e).results == w.h.results
  {
    hide Bookkeeping, ApplyGroupState, SetOutputState, CommandState.Pop, CommandState.Coalesced, CommandState.BeginGet, LeaveWaiters, GroupBytes;
    match e {
      case HostApply(k) => ApplyFinishesNothing(w.h, k, Answer(w, k), w.now);
      case Coalesced => CoalescedFinishesNothing(w.h, w.now);
      case Set(a, c, value) => SetFinishesNothing(w.h, a, c, value);
      case Pop => PopKeepsCallers(w.h);
      case BeginGet(k) => BeginTables(w.h, k);
      case LeaveGet(k, g) => LeavingFinishesNothing(w.h, k, g);
      case _ =>
    }
  }

  lemma LeavingFinishesNothing(h: Handler, k: GroupKey, f: Future)
    ensures LeaveWaiters(h, k, f).results == h.results
  {
    hide WaitersLeft;
  }

  /** A caller joins the waiters; a read is queued for it unless one owns the key. */
  lemma BeginTables(h: Handler, k: GroupKey)
    ensures var h', f := CommandState.BeginGet(h, k), Get(h.nextFuture);
      && h'.waiters == h.waiters[k := Waiters(h, k) + [f]] && h'.nextFuture == h.nextFuture + 1 && h'.follows == h.follows
      && h'.results == h.results && h'.items == if k in h.owners then h.items else h.items[h.nextItem := GetItem(k, f)]
  {
    hide Waiters;
    if k in h.owners {
    }
  }

  lemma SetFinishesNothing(h: Handler, a: Address, c: int, value: Byte)
    ensures SetOutputState(h, a, c, value).results == h.results
  {
    hide PutChannel, Buffer;
    if (a, GroupOf(c)) in h.pending {
    }
  }

  lemma CoalescedFinishesNothing(h: Handler, now: int)
    requires h.phase.Coalescing? && BusyWithSet(h)
    ensures CommandState.Coalesced(h, now).results == h.results
  {
    hide CommandState.Build, Released, Recent;
    var id, item := h.phase.id, h.items[h.phase.id];
    BuildFinishesNothing(h.(pending := Released(h.pending, item.group, id), writing := h.writing[item.group := item.channels]), id);
  }

  /** Answering the readers makes the group recent, with six bytes or more. */
  lemma ResolveClock(h: Handler, k: GroupKey, state: seq<Byte>, now: int)
    ensures var clock := ResolvePendingGet(h, k, state, now).knownAt;
      clock == if |state| < 6 then h.knownAt else h.knownAt[k := now]
    ensures BusyWithGet(h) ==>
      GetDone(h, state, now).knownAt == if |state| < 6 then h.knownAt else h.knownAt[h.items[h.phase.id].group := now]
  {
    hide FinishedAll;
  }

  /** What every event does to every future: a finished one keeps its outcome, an open one gets its
      fate, and no other is finished. */
  lemma StepFinishesExactly(w: World, e: Event, f: Future)
    requires Bookkeeping(w.h) && Enabled(w, e)
    ensures Finishes(w.h.results, Step(w, e).h.results, f, Fate(w, e, f))
  {
    hide Bookkeeping, Finishes, ApplyGroupState, ReadDone, GetDone, CommandState.GetFailed, CommandState.SetDone, CommandState.SetFailed, SetOutputState,
      CommandState.BeginGet, LeaveWaiters, CommandState.Pop, CommandState.Coalesced, Finished, FinishedAll, OutputStep, GroupBytes, WaitersLeft, OwnerFuture;
    PhaseFacts(w.h);
    NoFate(w.h.results, f);
    match e {
      case CancelView(d) => FinishedAs(w.h.results, d, Cancelled, f);
      case GiveUpGet(k, g) => FinishedAs(w.h.results, g, Cancelled, f);
      case Feedback(k) =>
        ApplyFinishesNothing(w.h, k, Answer(w, k), w.now);
        FinishedAllAs(w.h.results, Waiters(w.h, k), Answered(Answer(w, k)), f);
      case ReadAnswered => ReadDoneFinishes(w.h, Some(Answer(w, w.h.items[w.h.phase.id].group)), w.now, f);
      case ReadFailed => ReadDoneFinishes(w.h, None, w.now, f);
      case GetAnswered =>
        var k := w.h.items[w.h.phase.id].group;
        ApplyFinishesNothing(w.h, k, Answer(w, k), w.now);
        GetDoneFinishes(AppliedGet(w), Answer(w, k), w.now, f);
        SameAskers(w.h, AppliedGet(w), f);
      case GetFailed => GetFailedFinishes(w.h, f);
      case SetDone => SetOverFinishes(w.h, w.now, f);
      case SetFailed => SetOverFinishes(w.h, w.now, f);
      case _ => QuietlyFinishes(w, e, f);
    }
  }

  lemma SameAskers(h: Handler, h': Handler, f: Future)
    requires h'.waiters == h.waiters && h'.items == h.items && h'.phase == h.phase && BusyWithGet(h)
    ensures AsksFor(h', h'.items[h'.phase.id], f) == AsksFor(h, h.items[h.phase.id], f)
  {
  }

  // ---- over whole runs -------------------------------------------------------------------------------

  /** Event `i` is the first that finishes the future. */
  ghost predicate FirstFate(ws: seq<World>, es: seq<Event>, i: nat, f: Future)
    requires i < |es| && |ws| == |es| + 1
  {
    Fate(ws[i], es[i], f).Some? && forall j :: 0 <= j < i ==> Fate(ws[j], es[j], f).None?
  }

  /** In every run, a future is finished exactly when some event had a fate for it, and with the
      outcome of the first. */
  lemma {:induction false} OutcomeExactly(ws: seq<World>, es: seq<Event>, n: nat, f: Future)
    requires IsRun(ws, es) && n <= |es|
    ensures f in ws[n].h.results <==> exists i :: 0 <= i < n && Fate(ws[i], es[i], f).Some?
    ensures forall i :: 0 <= i < n && FirstFate(ws, es, i, f) ==> f in ws[n].h.results && Some(ws[n].h.results[f]) == Fate(ws[i], es[i], f)
  {
    hide Bookkeeping, Step, Enabled, Fate;
    if n == 0 {
      StartsOpen(ws, es, f);
    } else {
      OutcomeExactly(ws, es, n - 1, f);
      RunKeepsBookkeeping(ws, es, n - 1);
      RunStep(ws, es, n - 1);
      StepFinishesExactly(ws[n - 1], es[n - 1], f);
    }
  }

  lemma StartsOpen(ws: seq<World>, es: seq<Event>, f: Future)
    requires IsRun(ws, es)
    ensures f !in ws[0].h.results
  {
    hide Step, Enabled;
  }

  /** A finished future never changes. */
  lemma {:induction false} FinishedOnce(ws: seq<World>, es: seq<Event>, m: nat, n: nat, f: Future)
    requires IsRun(ws, es) && m <= n <= |es| && f in ws[m].h.results
    ensures f in ws[n].h.results && ws[n].h.results[f] == ws[m].h.results[f]
    decreases n - m
  {
    hide Bookkeeping, Step, Enabled, Fate;
    if m < n {
      FinishedOnce(ws, es, m, n - 1, f);
      RunKeepsBookkeeping(ws, es, n - 1);
      RunStep(ws, es, n - 1);
      StepFinishesExactly(ws[n - 1], es[n - 1], f);
    }
  }

  // ---- who waits, and for what -----------------------------------------------------------------------

  /** The tables callers are found in stay as they are. */
  predicate SameCallers(h: Handler, h': Handler) {
    h'.items == h.items && h'.nextFuture == h.nextFuture && h'.follows == h.follows && h'.waiters == h.waiters
  }

  lemma ApplyKeepsCallers(h: Handler, k: GroupKey, state: seq<Byte>, now: int)
    requires |state| >= 6
    ensures SameCallers(h, ApplyGroupState(h, k, state, now))
  {
    hide Overlay, PutGroup, Buffer, PendingChannels, WritingChannels;
  }

  lemma BuildKeepsCallers(h: Handler, id: nat)
    requires id in h.items && h.items[id].SetItem?
    ensures SameCallers(h, CommandState.Build(h, id))
  {
    hide Overlay, GroupBytes, Buffer;
  }

  lemma PopKeepsCallers(h: Handler)
    requires h.phase == Idle && h.queue != [] && h.queue[0] in h.items
    ensures SameCallers(h, CommandState.Pop(h)) && CommandState.Pop(h).results == h.results
  {
    hide CommandState.Pop;
    if h.items[h.queue[0]].GetItem? {
      PopReadKeepsCallers(h);
    } else {
      PopWriteKeepsCallers(h);
    }
  }

  lemma PopReadKeepsCallers(h: Handler)
    requires h.phase == Idle && h.queue != [] && h.queue[0] in h.items && h.items[h.queue[0]].GetItem?
    ensures SameCallers(h, CommandState.Pop(h)) && CommandState.Pop(h).results == h.results
  {
    hide Waiters, AllFinished, Released;
  }

  lemma PopWriteKeepsCallers(h: Handler)
    requires h.phase == Idle && h.queue != [] && h.queue[0] in h.items && h.items[h.queue[0]].SetItem?
    ensures SameCallers(h, CommandState.Pop(h)) && CommandState.Pop(h).results == h.results
  {
    hide Waiters, AllFinished, Released;
  }

  lemma CoalescedKeepsCallers(h: Handler, now: int)
    requires h.phase.Coalescing? && BusyWithSet(h)
    ensures SameCallers(h, CommandState.Coalesced(h, now))
  {
    hide Released, Recent, CommandState.Build;
    var id, item := h.phase.id, h.items[h.phase.id];
    BuildKeepsCallers(h.(pending := Released(h.pending, item.group, id), writing := h.writing[item.group := item.channels]), id);
  }

  lemma SetOverKeepsCallers(h: Handler, now: int)
    requires h.phase.Sending? && BusyWithSet(h)
    ensures SameCallers(h, CommandState.SetDone(h, now)) && SameCallers(h, CommandState.SetFailed(h))
  {
    hide FinishShared;
  }

  lemma ReadsKeepCallers(h: Handler, answer: Option<seq<Byte>>, state: seq<Byte>, now: int)
    requires answer.Some? ==> |answer.value| >= 6
    ensures h.phase.Reading? && BusyWithSet(h) ==> SameCallers(h, ReadDone(h, answer, now))
    ensures BusyWithGet(h) ==> SameCallers(h, GetDone(h, state, now)) && SameCallers(h, CommandState.GetFailed(h))
  {
    hide ApplyGroupState, CommandState.Build, FinishedAll, Waiters, Finished;
    if h.phase.Reading? && BusyWithSet(h) {
      var k := h.items[h.phase.id].group;
      if answer.Some? {
        var applied := ApplyGroupState(h, k, answer.value, now);
        ApplyKeepsCallers(h, k, answer.value, now);
        ApplyFinishesNothing(h, k, answer.value, now);
        BuildKeepsCallers(ResolvePendingGet(applied, k, answer.value, now), h.phase.id);
      } else {
        BuildKeepsCallers(h, h.phase.id);
      }
    }
  }

  /** Only a caller that comes or goes changes them. */
  lemma StepKeepsCallers(w: World, e: Event)
    requires Bookkeeping(w.h) && Enabled(w, e) && !(e.Set? || e.BeginGet? || e.GiveUpGet? || e.LeaveGet?)
    ensures SameCallers(w.h, Step(w, e).h)
  {
    hide Bookkeeping, SameCallers, ApplyGroupState, ReadDone, GetDone, CommandState.GetFailed, CommandState.SetDone, CommandState.SetFailed,
      CommandState.Pop, CommandState.Coalesced, Finished, FinishedAll, OutputStep, GroupBytes, Waiters;
    PhaseFacts(w.h);
    match e {
      case HostApply(k) => ApplyKeepsCallers(w.h, k, Answer(w, k), w.now);
      case Feedback(k) =>
        ApplyKeepsCallers(w.h, k, Answer(w, k), w.now);
        ResultsKeepCallers(w.h, ApplyGroupState(w.h, k, Answer(w, k), w.now), k, Answer(w, k), w.now);
      case ReadAnswered => ReadsKeepCallers(w.h, Some(Answer(w, w.h.items[w.h.phase.id].group)), [], w.now);
      case ReadFailed => ReadsKeepCallers(w.h, None, [], w.now);
      case GetAnswered =>
        var k := w.h.items[w.h.phase.id].group;
        ApplyKeepsCallers(w.h, k, Answer(w, k), w.now);
        ReadsKeepCallers(AppliedGet(w), None, Answer(w, k), w.now);
        SameTwice(w.h, AppliedGet(w), GetDone(AppliedGet(w), Answer(w, k), w.now));
      case GetFailed => ReadsKeepCallers(w.h, None, [], w.now);
      case CancelView(d) => NewResults(w.h, d);
      case Deliver => SameAsBefore(w.h);
      case Wall(_, _, _) => SameAsBefore(w.h);
      case Tick(_) => SameAsBefore(w.h);
      case Pop => PopKeepsCallers(w.h);
      case Coalesced => CoalescedKeepsCallers(w.h, w.now);
      case _ => SetOverKeepsCallers(w.h, w.now);
    }
  }

  lemma SameAsBefore(h: Handler)
    ensures SameCallers(h, h)
  {
  }

  lemma SameTwice(h: Handler, h': Handler, h'': Handler)
    requires SameCallers(h, h') && SameCallers(h', h'')
    ensures SameCallers(h, h'')
  {
  }

  lemma NewResults(h: Handler, d: Future)
    ensures SameCallers(h, CommandState.CancelView(h, d))
  {
    hide Finished;
  }

  lemma ResultsKeepCallers(h: Handler, applied: Handler, k: GroupKey, state: seq<Byte>, now: int)
    requires SameCallers(h, applied)
    ensures SameCallers(h, ResolvePendingGet(applied, k, state, now))
  {
    hide FinishedAll, Waiters;
  }

  lemma LeftWaiters(waiters: map<GroupKey, seq<Future>>, k: GroupKey, f: Future, k': GroupKey, f': Future)
    ensures k' in WaitersLeft(waiters, k, f) && f' in WaitersLeft(waiters, k, f)[k'] ==> k' in waiters && f' in waiters[k']
    ensures k' in waiters && f' in waiters[k'] && f' != f ==> k' in WaitersLeft(waiters, k, f) && f' in WaitersLeft(waiters, k, f)[k']
  {
  }

  /** A caller that begins to wait is listed under its group, with a future not finished before. */
  lemma ReaderIsListed(w: World, k: GroupKey)
    requires Enabled(w, Event.BeginGet(k))
    ensures Get(w.h.nextFuture) in Waiters(Step(w, Event.BeginGet(k)).h, k)
    ensures forall k', f :: f in Waiters(w.h, k') ==> f in Waiters(Step(w, Event.BeginGet(k)).h, k')
    ensures Step(w, Event.BeginGet(k)).h.nextFuture == w.h.nextFuture + 1
  {
    if k in w.h.owners {
    }
  }

  lemma SetKeepsWaiters(w: World, e: Event)
    requires Enabled(w, e) && e.Set?
    ensures Step(w, e).h.waiters == w.h.waiters
  {
    hide PutChannel, Buffer, OutputStep;
    if (e.a, GroupOf(e.channel)) in w.h.pending {
    }
  }

  /** One event keeps a listed caller listed, or finds it finished. */
  lemma StepKeepsReader(w: World, e: Event, k: GroupKey, f: Future)
    requires Bookkeeping(w.h) && Enabled(w, e) && (f in Waiters(w.h, k) || f in w.h.results)
    ensures f in Waiters(Step(w, e).h, k) || f in Step(w, e).h.results
  {
    hide Bookkeeping, Step, Fate, WaitersLeft;
    StepFinishesExactly(w, e, f);
    match e {
      case BeginGet(k') => ReaderIsListed(w, k');
      case GiveUpGet(k', g) =>
        GivingUpFinishes(w, k', g);
        LeftWaiters(w.h.waiters, k', g, k, f);
      case LeaveGet(k', g) =>
        LeavingFinishes(w, k', g);
        LeftWaiters(w.h.waiters, k', g, k, f);
      case Set(_, _, _) => SetKeepsWaiters(w, e);
      case _ => StepKeepsCallers(w, e);
    }
  }

  lemma GivingUpFinishes(w: World, k: GroupKey, f: Future)
    requires Enabled(w, Event.GiveUpGet(k, f))
    ensures f in Step(w, Event.GiveUpGet(k, f)).h.results && Step(w, Event.GiveUpGet(k, f)).h.waiters == WaitersLeft(w.h.waiters, k, f)
  {
    hide WaitersLeft, OwnerFuture;
  }

  lemma LeavingFinishes(w: World, k: GroupKey, f: Future)
    requires Enabled(w, LeaveGet(k, f))
    ensures f in w.h.results && Step(w, LeaveGet(k, f)).h.results == w.h.results
    ensures Step(w, LeaveGet(k, f)).h.waiters == WaitersLeft(w.h.waiters, k, f)
  {
    hide WaitersLeft;
  }

  /** A caller is listed from the moment it asks until its future is finished; so while it is open a
      read of its group is queued or in flight. */
  lemma {:induction false} ReaderWaits(ws: seq<World>, es: seq<Event>, i: nat, n: nat, k: GroupKey)
    requires IsRun(ws, es) && i < n <= |es| && es[i] == Event.BeginGet(k)
    ensures var f := Get(ws[i].h.nextFuture);
      && (f in ws[n].h.results || f in Waiters(ws[n].h, k))
      && (f !in ws[n].h.results ==> exists id :: ReadOf(ws[n].h.queue, ws[n].h.items, ws[n].h.phase, id, k))
    decreases n
  {
    hide Bookkeeping, Step, Enabled, Waiters, ReadOf;
    var f := Get(ws[i].h.nextFuture);
    RunStep(ws, es, n - 1);
    if n == i + 1 {
      ReaderIsListed(ws[i], k);
    } else {
      ReaderWaits(ws, es, i, n - 1, k);
      RunKeepsBookkeeping(ws, es, n - 1);
      StepKeepsReader(ws[n - 1], es[n - 1], k, f);
    }
    NoLostWakeup(ws, es, n, k);
  }

  // ---- futures are handed out once ---------------------------------------------------------------------

  predicate Numbered(f: Future, next: nat) {
    (f.Get? ==> f.n < next) && (f.Derived? ==> f.n < next)
  }

  /** Every future callers are found by was handed out before. */
  ghost predicate HandedOut(h: Handler) {
    && (forall k, f :: f in Waiters(h, k) ==> Numbered(f, h.nextFuture))
    && (forall id :: id in h.items && h.items[id].GetItem? ==> Numbered(h.items[id].future, h.nextFuture))
    && (forall d :: d in h.follows ==> Numbered(d, h.nextFuture))
    && (forall f :: f in h.results && f.Get? ==> Numbered(f, h.nextFuture))
  }

  lemma ResultsHandedOut(w: World, e: Event)
    requires Bookkeeping(w.h) && Enabled(w, e) && HandedOut(w.h)
    ensures forall f :: f in Step(w, e).h.results && f.Get? ==> Numbered(f, w.h.nextFuture)
  {
    hide Bookkeeping, Step, Numbered;
    PhaseFacts(w.h);
    ViewsAreDerived(w.h);
    forall f: Future | f in Step(w, e).h.results && f.Get? ensures Numbered(f, w.h.nextFuture) {
      StepFinishesExactly(w, e, f);
    }
  }

  lemma SetHandsOut(h: Handler, a: Address, c: int, value: Byte)
    requires HandedOut(h)
    ensures var h' := SetOutputState(h, a, c, value);
      && h'.nextFuture == h.nextFuture + 1 && h'.waiters == h.waiters
      && (forall id :: id in h'.items && h'.items[id].GetItem? ==> Numbered(h'.items[id].future, h'.nextFuture))
      && (forall d :: d in h'.follows ==> Numbered(d, h'.nextFuture))
  {
    hide PutChannel, Buffer;
    if (a, GroupOf(c)) in h.pending {
    }
  }

  lemma StepHandsOut(w: World, e: Event)
    requires Bookkeeping(w.h) && Enabled(w, e) && HandedOut(w.h)
    ensures HandedOut(Step(w, e).h)
  {
    if e.Set? {
      SetStepHandsOut(w, e);
    } else if e.BeginGet? || e.GiveUpGet? || e.LeaveGet? {
      hide Bookkeeping;
      ResultsHandedOut(w, e);
      if e.BeginGet? {
        BeginHandsOut(w.h, e.k);
      } else {
        LeavingHandsOut(w, e);
      }
    } else {
      QuietHandsOut(w, e);
    }
  }

  lemma SetStepHandsOut(w: World, e: Event)
    requires Bookkeeping(w.h) && Enabled(w, e) && HandedOut(w.h) && e.Set?
    ensures HandedOut(Step(w, e).h)
  {
    hide Bookkeeping, Step, SetOutputState;
    ResultsHandedOut(w, e);
    SetHandsOut(w.h, e.a, e.channel, e.value);
    SetNumbers(w, e);
    SameWaiters(w.h, Step(w, e).h);
  }

  lemma QuietHandsOut(w: World, e: Event)
    requires Bookkeeping(w.h) && Enabled(w, e) && HandedOut(w.h) && !(e.Set? || e.BeginGet? || e.GiveUpGet? || e.LeaveGet?)
    ensures HandedOut(Step(w, e).h)
  {
    hide Bookkeeping, Step;
    ResultsHandedOut(w, e);
    StepKeepsCallers(w, e);
    SameWaiters(w.h, Step(w, e).h);
  }

  lemma SameWaiters(h: Handler, h': Handler)
    requires HandedOut(h) && h'.waiters == h.waiters && h'.nextFuture >= h.nextFuture
    ensures forall k, f :: f in Waiters(h', k) ==> Numbered(f, h'.nextFuture)
  {
    forall k, f | f in Waiters(h', k) ensures Numbered(f, h'.nextFuture) {
      assert f in Waiters(h, k) && Numbered(f, h.nextFuture);
    }
  }

  lemma SetNumbers(w: World, e: Event)
    requires Enabled(w, e) && e.Set?
    ensures Step(w, e).h == SetOutputState(w.h, e.a, e.channel, e.value)
  {
    hide SetOutputState, OutputStep;
  }

  lemma BeginHandsOut(h: Handler, k: GroupKey)
    requires HandedOut(h)
    ensures var h' := CommandState.BeginGet(h, k);
      && h'.nextFuture == h.nextFuture + 1
      && (forall k', f :: f in Waiters(h', k') ==> Numbered(f, h'.nextFuture))
      && (forall id :: id in h'.items && h'.items[id].GetItem? ==> Numbered(h'.items[id].future, h'.nextFuture))
      && (forall d :: d in h'.follows ==> Numbered(d, h'.nextFuture))
  {
    hide CommandState.BeginGet;
    BeginTables(h, k);
    var h' := CommandState.BeginGet(h, k);
    forall k', f | f in Waiters(h', k') ensures Numbered(f, h'.nextFuture) {
      if f != Get(h.nextFuture) {
        assert f in Waiters(h, k') && Numbered(f, h.nextFuture);
      }
    }
  }

  lemma LeavingHandsOut(w: World, e: Event)
    requires Enabled(w, e) && HandedOut(w.h) && (e.GiveUpGet? || e.LeaveGet?)
    ensures var h' := Step(w, e).h;
      && h'.nextFuture == w.h.nextFuture && h'.items == w.h.items && h'.follows == w.h.follows
      && (forall k', f :: f in Waiters(h', k') ==> Numbered(f, h'.nextFuture))
  {
    hide OwnerFuture, Finished, WaitersLeft;
    forall k', f ensures k' in WaitersLeft(w.h.waiters, e.k, e.f) && f in WaitersLeft(w.h.waiters, e.k, e.f)[k'] ==> f in Waiters(w.h, k') {
      LeftWaiters(w.h.waiters, e.k, e.f, k', f);
    }
  }

  lemma {:induction false} RunHandsOut(ws: seq<World>, es: seq<Event>, n: nat)
    requires IsRun(ws, es) && n <= |es|
    ensures HandedOut(ws[n].h)
  {
    hide Bookkeeping, Step, Enabled, HandedOut;
    if n == 0 {
      StartHandsOut(ws[0]);
    } else {
      RunHandsOut(ws, es, n - 1);
      RunKeepsBookkeeping(ws, es, n - 1);
      RunStep(ws, es, n - 1);
      StepHandsOut(ws[n - 1], es[n - 1]);
    }
  }

  lemma StartHandsOut(w: World)
    requires Initial(w)
    ensures HandedOut(w.h)
  {
  }

  /** Nobody has the future a caller begins to wait with, and it is open. */
  lemma ReaderIsNew(ws: seq<World>, es: seq<Event>, i: nat)
    requires IsRun(ws, es) && i <= |es|
    ensures var f := Get(ws[i].h.nextFuture); f !in ws[i].h.results && forall k :: f !in Waiters(ws[i].h, k)
  {
    hide Bookkeeping, Step, Enabled, Waiters;
    RunHandsOut(ws, es, i);
    var f := Get(ws[i].h.nextFuture);
    forall k ensures f !in Waiters(ws[i].h, k) {
      assert !Numbered(f, ws[i].h.nextFuture);
    }
  }

  // ---- a write's caller ------------------------------------------------------------------------------

  /** The view a request gives its caller follows the write that carries the request. */
  lemma ViewFollowsRequest(h: Handler, a: Address, c: int, value: Byte)
    requires Bookkeeping(h)
    ensures var h', k := SetOutputState(h, a, c, value), (a, GroupOf(c));
      && k in h'.pending && h'.pending[k] in h'.items && h'.items[h'.pending[k]].SetItem? && h'.items[h'.pending[k]].group == k
      && c in h'.items[h'.pending[k]].channels && h'.items[h'.pending[k]].channels[c] == value
      && Derived(h.nextFuture) in h'.follows && h'.follows[Derived(h.nextFuture)] == Shared(h'.pending[k])
      && h'.follows.Keys == h.follows.Keys + {Derived(h.nextFuture)}
      && forall d :: d in h.follows && d != Derived(h.nextFuture) ==> h'.follows[d] == h.follows[d]
  {
    hide Bookkeeping, PutChannel, Buffer;
    if (a, GroupOf(c)) in h.pending {
      PendingFacts(h, (a, GroupOf(c)));
    }
  }

  lemma StepKeepsView(w: World, e: Event, d: Future)
    requires Bookkeeping(w.h) && Enabled(w, e) && HandedOut(w.h) && d in w.h.follows
    ensures d in Step(w, e).h.follows && Step(w, e).h.follows[d] == w.h.follows[d]
  {
    hide Bookkeeping, Step, SetOutputState;
    if e.Set? {
      ViewFollowsRequest(w.h, e.a, e.channel, e.value);
      SetNumbers(w, e);
    } else if e.BeginGet? {
      BeginKeepsViews(w, e.k);
    } else if e.GiveUpGet? || e.LeaveGet? {
      LeavingHandsOut(w, e);
    } else {
      StepKeepsCallers(w, e);
    }
  }

  lemma BeginKeepsViews(w: World, k: GroupKey)
    requires Enabled(w, Event.BeginGet(k))
    ensures Step(w, Event.BeginGet(k)).h.follows == w.h.follows
  {
    hide Waiters;
    if k in w.h.owners {
    }
  }

  /** A request's view is tied for good to the write that carried the request away: while it is open
      that write is queued or in flight, and it is told of its end. */
  lemma {:induction false} ViewFollowsItsWrite(ws: seq<World>, es: seq<Event>, i: nat, n: nat, a: Address, c: int, value: Byte)
    requires IsRun(ws, es) && i < n <= |es| && es[i] == Set(a, c, value)
    ensures var d, id := Derived(ws[i].h.nextFuture), ws[i + 1].h.pending;
      && GroupKeyOf(a, c) in id && d in ws[n].h.follows && ws[n].h.follows[d] == Shared(id[GroupKeyOf(a, c)])
    ensures var d := Derived(ws[i].h.nextFuture);
      d !in ws[n].h.results ==>
        var id := ws[n].h.follows[d].item;
        id in ws[n].h.items && ws[n].h.items[id].SetItem? && (id in ws[n].h.queue || (ws[n].h.phase != Idle && ws[n].h.phase.id == id))
    decreases n
  {
    hide Bookkeeping, Step, Enabled, NobodyForgotten, HandedOut, SetOutputState;
    RunKeepsBookkeeping(ws, es, n - 1);
    RunStep(ws, es, n - 1);
    RunStep(ws, es, i);
    if n == i + 1 {
      ViewFollowsRequest(ws[i].h, a, c, value);
      SetNumbers(ws[i], es[i]);
    } else {
      ViewFollowsItsWrite(ws, es, i, n - 1, a, c, value);
      RunHandsOut(ws, es, n - 1);
      StepKeepsView(ws[n - 1], es[n - 1], Derived(ws[i].h.nextFuture));
    }
    RunForgetsNobody(ws, es, n);
    Kept(ws[n].h);
  }
}
