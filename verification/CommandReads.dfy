/** No caller waits in vain: every open read has an item that will answer it, every open view
    of a write follows a write that will be sent, and the worker always gets there. */
module CommandReads {
  import opened Wrappers
  import opened Bits
  import opened CommandState
  import opened CommandRuns
  import opened CommandSafety

  /** The item is a read of the group, queued or in flight. */
  predicate ReadOf(queue: seq<nat>, items: map<nat, Item>, phase: Phase, id: nat, k: GroupKey) {
    id in items && items[id].GetItem? && items[id].group == k && (id in queue || phase == Getting(id))
  }

  /** A dedup key is owned by a queued read of its group. */
  ghost predicate OwnersOk(queue: seq<nat>, items: map<nat, Item>, owners: map<GroupKey, nat>) {
    forall k :: k in owners ==> owners[k] in queue && owners[k] in items && items[owners[k]].GetItem? && items[owners[k]].group == k
  }

  predicate Owns(owners: map<GroupKey, nat>, k: GroupKey, id: nat) {
    k in owners && owners[k] == id
  }

  /** A queued read that does not own its key has been answered or given up already. */
  ghost predicate StaleOk(queue: seq<nat>, items: map<nat, Item>, owners: map<GroupKey, nat>, results: map<Future, Outcome>) {
    forall id :: id in queue && id in items && items[id].GetItem? && !Owns(owners, items[id].group, id) ==> items[id].future in results
  }

  /** Every open caller of a group has a read of the group coming. */
  ghost predicate ServedOk(queue: seq<nat>, items: map<nat, Item>, phase: Phase, waiters: map<GroupKey, seq<Future>>, results: map<Future, Outcome>) {
    forall k, f :: k in waiters && f in waiters[k] && f !in results ==> exists id :: ReadOf(queue, items, phase, id, k)
  }

  /** Every open view of a write follows a shared future whose write is queued or in flight. */
  ghost predicate ViewsOk(queue: seq<nat>, items: map<nat, Item>, phase: Phase, follows: map<Future, Future>, results: map<Future, Outcome>) {
    forall d :: d in follows && d !in results ==>
      follows[d].Shared? && follows[d] !in results && follows[d].item in items && items[follows[d].item].SetItem?
      && (follows[d].item in queue || (phase != Idle && phase.id == follows[d].item))
  }

  ghost predicate NobodyForgotten(h: Handler) {
    && OwnersOk(h.queue, h.items, h.owners)
    && StaleOk(h.queue, h.items, h.owners, h.results)
    && ServedOk(h.queue, h.items, h.phase, h.waiters, h.results)
    && ViewsOk(h.queue, h.items, h.phase, h.follows, h.results)
  }

  lemma Kept(h: Handler)
    requires NobodyForgotten(h)
    ensures OwnersOk(h.queue, h.items, h.owners) && StaleOk(h.queue, h.items, h.owners, h.results)
    ensures ServedOk(h.queue, h.items, h.phase, h.waiters, h.results)
    ensures ViewsOk(h.queue, h.items, h.phase, h.follows, h.results)
  {
    hide OwnersOk, StaleOk, ServedOk, ViewsOk;
  }

  lemma Gather(h: Handler)
    requires OwnersOk(h.queue, h.items, h.owners) && StaleOk(h.queue, h.items, h.owners, h.results)
    requires ServedOk(h.queue, h.items, h.phase, h.waiters, h.results)
    requires ViewsOk(h.queue, h.items, h.phase, h.follows, h.results)
    ensures NobodyForgotten(h)
  {
    hide OwnersOk, StaleOk, ServedOk, ViewsOk;
  }

  // ---- callers ---------------------------------------------------------------------------------------

  /** A write joining or queueing changes no read, and its caller's view follows it. */
  lemma SetParts(h: Handler, id: nat, item: Item, queue: seq<nat>)
    requires Bookkeeping(h) && NobodyForgotten(h) && item.SetItem?
    requires (id == h.nextItem && queue == h.queue + [id]) || (id in h.items && h.items[id].SetItem? && queue == h.queue && Waiting(h.queue, h.phase, id) && Shared(id) !in h.results)
    ensures OwnersOk(queue, h.items[id := item], h.owners) && StaleOk(queue, h.items[id := item], h.owners, h.results)
    ensures ServedOk(queue, h.items[id := item], h.phase, h.waiters, h.results)
    ensures ViewsOk(queue, h.items[id := item], h.phase, h.follows[Derived(h.nextFuture) := Shared(id)], h.results)
  {
    hide Bookkeeping, NobodyForgotten, OwnersOk, StaleOk, ServedOk, ViewsOk;
    Kept(h);
    QueueFacts(h);
    ResultFacts(h);
    PhaseFacts(h);
    SetReads(h, id, item, queue);
    SetViews(h, id, item, queue);
  }

  lemma SetReads(h: Handler, id: nat, item: Item, queue: seq<nat>)
    requires OwnersOk(h.queue, h.items, h.owners) && StaleOk(h.queue, h.items, h.owners, h.results)
    requires ServedOk(h.queue, h.items, h.phase, h.waiters, h.results)
    requires item.SetItem? && (id in h.items ==> h.items[id].SetItem?) && (queue == h.queue || queue == h.queue + [id])
    ensures OwnersOk(queue, h.items[id := item], h.owners) && StaleOk(queue, h.items[id := item], h.owners, h.results)
    ensures ServedOk(queue, h.items[id := item], h.phase, h.waiters, h.results)
  {
    var items := h.items[id := item];
    assert OwnersOk(queue, items, h.owners) && StaleOk(queue, items, h.owners, h.results) by { hide ServedOk; }
    hide OwnersOk, StaleOk;
    forall k, f | k in h.waiters && f in h.waiters[k] && f !in h.results
      ensures exists i :: ReadOf(queue, items, h.phase, i, k)
    {
      var i :| ReadOf(h.queue, h.items, h.phase, i, k);
      assert ReadOf(queue, items, h.phase, i, k);
    }
  }

  lemma SetViews(h: Handler, id: nat, item: Item, queue: seq<nat>)
    requires ViewsOk(h.queue, h.items, h.phase, h.follows, h.results) && Shared(id) !in h.results
    requires item.SetItem? && (queue == h.queue + [id] || (queue == h.queue && Waiting(h.queue, h.phase, id)))
    ensures ViewsOk(queue, h.items[id := item], h.phase, h.follows[Derived(h.nextFuture) := Shared(id)], h.results)
  {
    assert forall x :: x in h.queue ==> x in queue;
  }

  lemma SetForgetsNobody(h: Handler, a: Address, channel: int, value: Byte)
    requires Bookkeeping(h) && NobodyForgotten(h) && IsChannel(channel)
    ensures NobodyForgotten(SetOutputState(h, a, channel, value))
  {
    hide Bookkeeping, NobodyForgotten, PutChannel, Buffer, OwnersOk, StaleOk, ServedOk, ViewsOk, Waiting;
    var k := (a, GroupOf(channel));
    if k in h.pending {
      PendingFacts(h, k);
      var id := h.pending[k];
      NotYetFinished(h, id);
      SetParts(h, id, h.items[id].(channels := h.items[id].channels[channel := value]), h.queue);
    } else {
      SetParts(h, h.nextItem, SetItem(k, map[channel := value]), h.queue + [h.nextItem]);
    }
    Gather(SetOutputState(h, a, channel, value));
  }

  lemma NotYetFinished(h: Handler, id: nat)
    requires Bookkeeping(h) && Waiting(h.queue, h.phase, id)
    ensures Shared(id) !in h.results
  {
    hide Bookkeeping;
    ResultFacts(h);
  }

  /** A caller joins the waiters; a read is queued for it unless one owns the key. */
  lemma BeginGetForgetsNobody(h: Handler, k: GroupKey)
    requires Bookkeeping(h) && NobodyForgotten(h)
    ensures NobodyForgotten(CommandState.BeginGet(h, k))
  {
    hide Bookkeeping, NobodyForgotten, OwnersOk, StaleOk, ServedOk, ViewsOk, Waiters;
    var f := Get(h.nextFuture);
    Kept(h);
    if k in h.owners {
      JoinServed(h, k, f);
    } else {
      QueueServed(h, k, f);
    }
    Gather(CommandState.BeginGet(h, k));
  }

  lemma JoinServed(h: Handler, k: GroupKey, f: Future)
    requires OwnersOk(h.queue, h.items, h.owners) && k in h.owners
    requires ServedOk(h.queue, h.items, h.phase, h.waiters, h.results)
    ensures ServedOk(h.queue, h.items, h.phase, h.waiters[k := Waiters(h, k) + [f]], h.results)
  {
    assert ReadOf(h.queue, h.items, h.phase, h.owners[k], k);
  }

  lemma QueueServed(h: Handler, k: GroupKey, f: Future)
    requires Bookkeeping(h) && NobodyForgotten(h) && k !in h.owners
    ensures var queue, items := h.queue + [h.nextItem], h.items[h.nextItem := GetItem(k, f)];
      && OwnersOk(queue, items, h.owners[k := h.nextItem]) && StaleOk(queue, items, h.owners[k := h.nextItem], h.results)
      && ServedOk(queue, items, h.phase, h.waiters[k := Waiters(h, k) + [f]], h.results) && ViewsOk(queue, items, h.phase, h.follows, h.results)
  {
    hide Bookkeeping, NobodyForgotten;
    Kept(h);
    QueueFacts(h);
    var queue, items := h.queue + [h.nextItem], h.items[h.nextItem := GetItem(k, f)];
    assert ServedOk(queue, items, h.phase, h.waiters[k := Waiters(h, k) + [f]], h.results) by {
      hide OwnersOk, StaleOk, ViewsOk;
      assert ReadOf(queue, items, h.phase, h.nextItem, k);
      forall k', f' | k' in h.waiters && f' in h.waiters[k'] && f' !in h.results && k' != k
        ensures exists i :: ReadOf(queue, items, h.phase, i, k')
      {
        var i :| ReadOf(h.queue, h.items, h.phase, i, k');
        assert ReadOf(queue, items, h.phase, i, k');
      }
    }
  }

  /** A caller that gives up frees the key only of a read it owns itself. */
  lemma GiveUpParts(h: Handler, k: GroupKey, f: Future)
    requires Bookkeeping(h) && NobodyForgotten(h) && f.Get?
    ensures var owners := if OwnerFuture(h, k) == Some(f) then h.owners - {k} else h.owners;
      OwnersOk(h.queue, h.items, owners) && StaleOk(h.queue, h.items, owners, Finished(h.results, f, Cancelled))
    ensures ServedOk(h.queue, h.items, h.phase, WaitersLeft(h.waiters, k, f), Finished(h.results, f, Cancelled))
    ensures ViewsOk(h.queue, h.items, h.phase, h.follows, Finished(h.results, f, Cancelled))
  {
    hide Bookkeeping, NobodyForgotten;
    Kept(h);
    LeftServed(h, k, f, Finished(h.results, f, Cancelled));
    hide ServedOk;
  }

  lemma LeftServed(h: Handler, k: GroupKey, f: Future, results: map<Future, Outcome>)
    requires ServedOk(h.queue, h.items, h.phase, h.waiters, h.results) && forall x :: x in h.results ==> x in results
    ensures ServedOk(h.queue, h.items, h.phase, WaitersLeft(h.waiters, k, f), results)
  {
    hide ReadOf;
  }

  lemma GiveUpForgetsNobody(h: Handler, k: GroupKey, f: Future)
    requires Bookkeeping(h) && NobodyForgotten(h) && f in Waiters(h, k)
    ensures NobodyForgotten(CommandState.GiveUpGet(h, k, f)) && NobodyForgotten(LeaveWaiters(h, k, f))
  {
    hide Bookkeeping, NobodyForgotten, OwnersOk, StaleOk, ServedOk, ViewsOk, WaitersLeft, Waiters, OwnerFuture, Finished;
    Kept(h);
    WaitersAreReads(h, k);
    GiveUpParts(h, k, f);
    LeftServed(h, k, f, h.results);
    Gather(CommandState.GiveUpGet(h, k, f));
    Gather(LeaveWaiters(h, k, f));
  }

  /** Finishing any future but a shared one helps everybody. */
  lemma MoreResults(h: Handler, results: map<Future, Outcome>)
    requires NobodyForgotten(h) && (forall x :: x in h.results ==> x in results)
    requires (forall id :: Shared(id) in results ==> Shared(id) in h.results)
    ensures StaleOk(h.queue, h.items, h.owners, results) && ServedOk(h.queue, h.items, h.phase, h.waiters, results)
    ensures ViewsOk(h.queue, h.items, h.phase, h.follows, results)
  {
    hide NobodyForgotten, ReadOf;
    Kept(h);
  }

  lemma CancelForgetsNobody(h: Handler, d: Future)
    requires NobodyForgotten(h) && d.Derived?
    ensures NobodyForgotten(CommandState.CancelView(h, d))
  {
    hide NobodyForgotten, OwnersOk, StaleOk, ServedOk, ViewsOk;
    Kept(h);
    MoreResults(h, Finished(h.results, d, Cancelled));
    Gather(CommandState.CancelView(h, d));
  }

  lemma ApplyForgetsNobody(h: Handler, k: GroupKey, state: seq<Byte>, now: int)
    requires NobodyForgotten(h) && |state| >= 6
    ensures NobodyForgotten(ApplyGroupState(h, k, state, now))
  {
    hide NobodyForgotten, OwnersOk, StaleOk, ServedOk, ViewsOk, Overlay, PutGroup, Buffer;
    Kept(h);
    Gather(ApplyGroupState(h, k, state, now));
  }

  lemma ResolveForgetsNobody(h: Handler, k: GroupKey, state: seq<Byte>, now: int)
    requires Bookkeeping(h) && NobodyForgotten(h)
    ensures NobodyForgotten(ResolvePendingGet(h, k, state, now))
  {
    hide Bookkeeping, NobodyForgotten, OwnersOk, StaleOk, ServedOk, ViewsOk, Waiters, FinishedAll;
    Kept(h);
    WaitersAreReads(h, k);
    MoreResults(h, FinishedAll(h.results, Waiters(h, k), Answered(state)));
    Gather(ResolvePendingGet(h, k, state, now));
  }

  // ---- the worker ------------------------------------------------------------------------------------

  /** A read is skipped only when nobody waits for its group any more. */
  lemma PopReadParts(h: Handler, skipped: bool)
    requires Bookkeeping(h) && NobodyForgotten(h) && h.phase == Idle && h.queue != [] && h.queue[0] in h.items
    requires h.items[h.queue[0]].GetItem?
    requires skipped ==> AllFinished(h, Waiters(h, h.items[h.queue[0]].group))
    ensures var id, k := h.queue[0], h.items[h.queue[0]].group;
      var phase := if skipped then Idle else Getting(id);
      && OwnersOk(h.queue[1..], h.items, Released(h.owners, k, id)) && StaleOk(h.queue[1..], h.items, Released(h.owners, k, id), h.results)
      && ServedOk(h.queue[1..], h.items, phase, h.waiters, h.results) && ViewsOk(h.queue[1..], h.items, phase, h.follows, h.results)
  {
    hide Bookkeeping, NobodyForgotten;
    Kept(h);
    QueueHead(h);
    var id, k, rest := h.queue[0], h.items[h.queue[0]].group, h.queue[1..];
    var phase := if skipped then Idle else Getting(id);
    assert ServedOk(h.queue[1..], h.items, phase, h.waiters, h.results) by {
      hide OwnersOk, StaleOk, ViewsOk;
      assert skipped ==> forall f :: f in Waiters(h, k) ==> f in h.results;
      forall k', f | k' in h.waiters && f in h.waiters[k'] && f !in h.results
        ensures exists i :: ReadOf(h.queue[1..], h.items, phase, i, k')
      {
        var i :| ReadOf(h.queue, h.items, h.phase, i, k');
        assert i == id ==> !skipped;
        assert ReadOf(rest, h.items, phase, i, k');
      }
    }
    hide ServedOk, AllFinished;
  }

  lemma QueueHead(h: Handler)
    requires Bookkeeping(h) && h.queue != []
    ensures h.queue[0] !in h.queue[1..] && forall x :: x in h.queue <==> x == h.queue[0] || x in h.queue[1..]
  {
    hide Bookkeeping, PhaseOk, ItemsOk, PendingOk, WritingOk, ResultsOk, FuturesOk;
    Parts(h);
    TailOfDistinct(h.queue);
  }

  lemma PopWriteParts(h: Handler)
    requires Bookkeeping(h) && NobodyForgotten(h) && h.phase == Idle && h.queue != [] && h.queue[0] in h.items
    requires h.items[h.queue[0]].SetItem?
    ensures OwnersOk(h.queue[1..], h.items, h.owners) && StaleOk(h.queue[1..], h.items, h.owners, h.results)
    ensures ServedOk(h.queue[1..], h.items, Coalescing(h.queue[0]), h.waiters, h.results)
    ensures ViewsOk(h.queue[1..], h.items, Coalescing(h.queue[0]), h.follows, h.results)
  {
    hide Bookkeeping, NobodyForgotten;
    Kept(h);
    QueueHead(h);
    var phase := Coalescing(h.queue[0]);
    assert ServedOk(h.queue[1..], h.items, phase, h.waiters, h.results) by {
      hide OwnersOk, StaleOk, ViewsOk;
      forall k, f | k in h.waiters && f in h.waiters[k] && f !in h.results ensures exists i :: ReadOf(h.queue[1..], h.items, phase, i, k) {
        var i :| ReadOf(h.queue, h.items, h.phase, i, k);
        assert ReadOf(h.queue[1..], h.items, phase, i, k);
      }
    }
    hide ServedOk;
  }

  lemma PopForgetsNobody(h: Handler)
    requires Bookkeeping(h) && NobodyForgotten(h) && h.phase == Idle && h.queue != [] && h.queue[0] in h.items
    ensures NobodyForgotten(CommandState.Pop(h))
  {
    hide Bookkeeping, NobodyForgotten, OwnersOk, StaleOk, ServedOk, ViewsOk, Waiters, AllFinished, Released;
    if h.items[h.queue[0]].GetItem? {
      PopReadParts(h, CommandState.Pop(h).phase == Idle);
    } else {
      NotYetFinished(h, h.queue[0]);
      PopWriteParts(h);
    }
    Gather(CommandState.Pop(h));
  }

  /** A write going from one stage to the next is still in flight. */
  lemma StageParts(h: Handler, phase: Phase)
    requires NobodyForgotten(h) && h.phase != Idle && !h.phase.Getting? && phase != Idle && !phase.Getting?
    requires phase.id == h.phase.id
    ensures ServedOk(h.queue, h.items, phase, h.waiters, h.results)
    ensures ViewsOk(h.queue, h.items, phase, h.follows, h.results)
  {
    hide NobodyForgotten;
    Kept(h);
    forall k, f | k in h.waiters && f in h.waiters[k] && f !in h.results ensures exists i :: ReadOf(h.queue, h.items, phase, i, k) {
      var i :| ReadOf(h.queue, h.items, h.phase, i, k);
      assert ReadOf(h.queue, h.items, phase, i, k);
    }
  }

  lemma BuildForgetsNobody(h: Handler)
    requires NobodyForgotten(h) && h.phase.Reading? && BusyWithSet(h)
    ensures NobodyForgotten(Build(h, h.phase.id))
  {
    hide NobodyForgotten, OwnersOk, StaleOk, ServedOk, ViewsOk, Overlay, GroupBytes, Buffer;
    Kept(h);
    StageParts(h, Build(h, h.phase.id).phase);
    Gather(Build(h, h.phase.id));
  }

  lemma CoalescedForgetsNobody(h: Handler, now: int)
    requires NobodyForgotten(h) && h.phase.Coalescing? && BusyWithSet(h)
    ensures NobodyForgotten(CommandState.Coalesced(h, now))
  {
    hide NobodyForgotten, OwnersOk, StaleOk, ServedOk, ViewsOk, Overlay, GroupBytes, Buffer, Released, Recent;
    Kept(h);
    StageParts(h, CommandState.Coalesced(h, now).phase);
    Gather(CommandState.Coalesced(h, now));
  }

  lemma ReadDoneForgetsNobody(h: Handler, answer: Option<seq<Byte>>, now: int)
    requires Bookkeeping(h) && NobodyForgotten(h) && h.phase.Reading? && BusyWithSet(h)
    ensures NobodyForgotten(ReadDone(h, answer, now))
  {
    hide Bookkeeping, NobodyForgotten, Build;
    if answer.Some? && |answer.value| >= 6 {
      var k := h.items[h.phase.id].group;
      ApplyForgetsNobody(h, k, answer.value, now);
      ApplyKeeps(h, k, answer.value, now);
      var applied := ApplyGroupState(h, k, answer.value, now);
      ResolveForgetsNobody(applied, k, answer.value, now);
      BuildForgetsNobody(ResolvePendingGet(applied, k, answer.value, now));
    } else {
      BuildForgetsNobody(h);
    }
  }

  lemma ViewsAreDerived(h: Handler)
    requires Bookkeeping(h)
    ensures forall d :: d in h.follows ==> d.Derived? && h.follows[d].Shared?
  {
    hide Bookkeeping, QueueOk, PhaseOk, ItemsOk, PendingOk, WritingOk, ResultsOk;
    Parts(h);
  }

  /** When a write is over, so is every view of it. */
  lemma WriteOverParts(h: Handler, outcome: Outcome)
    requires Bookkeeping(h) && NobodyForgotten(h) && h.phase.Sending?
    ensures var results := FinishShared(h.results, h.follows, h.phase.id, outcome);
      StaleOk(h.queue, h.items, h.owners, results) && ServedOk(h.queue, h.items, Idle, h.waiters, results) && ViewsOk(h.queue, h.items, Idle, h.follows, results)
  {
    hide Bookkeeping, NobodyForgotten, FinishShared;
    Kept(h);
    ResultFacts(h);
    ViewsAreDerived(h);
    var results := FinishShared(h.results, h.follows, h.phase.id, outcome);
    forall k, f | k in h.waiters && f in h.waiters[k] && f !in results ensures exists i :: ReadOf(h.queue, h.items, Idle, i, k) {
      var i :| ReadOf(h.queue, h.items, h.phase, i, k);
      assert ReadOf(h.queue, h.items, Idle, i, k);
    }
  }

  lemma WriteOverForgetsNobody(h: Handler, now: int)
    requires Bookkeeping(h) && NobodyForgotten(h) && h.phase.Sending? && BusyWithSet(h)
    ensures NobodyForgotten(CommandState.SetDone(h, now)) && NobodyForgotten(CommandState.SetFailed(h))
  {
    hide Bookkeeping, NobodyForgotten, OwnersOk, StaleOk, ServedOk, ViewsOk, FinishShared;
    Kept(h);
    WriteOverParts(h, Answered([]));
    WriteOverParts(h, Failed);
    Gather(CommandState.SetDone(h, now));
    Gather(CommandState.SetFailed(h));
  }

  /** When a read is over, so is every caller of its group. */
  lemma ReadOverParts(h: Handler, outcome: Outcome)
    requires Bookkeeping(h) && NobodyForgotten(h) && BusyWithGet(h)
    ensures var item := h.items[h.phase.id];
      var results := FinishedAll(Finished(h.results, item.future, outcome), Waiters(h, item.group), outcome);
      StaleOk(h.queue, h.items, h.owners, results) && ServedOk(h.queue, h.items, Idle, h.waiters, results) && ViewsOk(h.queue, h.items, Idle, h.follows, results)
  {
    hide Bookkeeping, NobodyForgotten, FinishedAll;
    Kept(h);
    GetFutureOf(h);
    var item := h.items[h.phase.id];
    WaitersAreReads(h, item.group);
    var results := FinishedAll(Finished(h.results, item.future, outcome), Waiters(h, item.group), outcome);
    forall k, f | k in h.waiters && f in h.waiters[k] && f !in results ensures exists i :: ReadOf(h.queue, h.items, Idle, i, k) {
      var i :| ReadOf(h.queue, h.items, h.phase, i, k);
      assert k != item.group;
      assert ReadOf(h.queue, h.items, Idle, i, k);
    }
    assert ViewsOk(h.queue, h.items, Idle, h.follows, results) by { hide ServedOk, StaleOk, OwnersOk, Waiters; }
  }

  lemma ReadOverForgetsNobody(h: Handler, state: seq<Byte>, now: int)
    requires Bookkeeping(h) && NobodyForgotten(h) && BusyWithGet(h)
    ensures NobodyForgotten(GetDone(h, state, now)) && NobodyForgotten(CommandState.GetFailed(h))
  {
    hide Bookkeeping, NobodyForgotten, OwnersOk, StaleOk, ServedOk, ViewsOk, FinishedAll, Waiters;
    Kept(h);
    ReadOverParts(h, Answered(state));
    ReadOverParts(h, Failed);
    Gather(GetDone(h, state, now));
    Gather(CommandState.GetFailed(h));
  }

  // ---- every run -------------------------------------------------------------------------------------

  /** Every event keeps everybody who waits in view. */
  lemma StepForgetsNobody(w: World, e: Event)
    requires Bookkeeping(w.h) && NobodyForgotten(w.h) && Enabled(w, e)
    ensures NobodyForgotten(Step(w, e).h)
  {
    hide Bookkeeping, NobodyForgotten, GroupBytes, SetOutputState, CommandState.CancelView, ApplyGroupState, ResolvePendingGet, CommandState.BeginGet,
      CommandState.GiveUpGet, LeaveWaiters, CommandState.Pop, CommandState.Coalesced, ReadDone, CommandState.SetDone, CommandState.SetFailed,
      GetDone, CommandState.GetFailed, OutputStep;
    var h := w.h;
    match e {
      case Set(a, channel, value) => SetForgetsNobody(h, a, channel, value);
      case CancelView(d) => CancelForgetsNobody(h, d);
      case HostApply(k) => ApplyForgetsNobody(h, k, Answer(w, k), w.now);
      case Feedback(k) =>
        ApplyForgetsNobody(h, k, Answer(w, k), w.now);
        ApplyKeeps(h, k, Answer(w, k), w.now);
        ResolveForgetsNobody(ApplyGroupState(h, k, Answer(w, k), w.now), k, Answer(w, k), w.now);
      case BeginGet(k) => BeginGetForgetsNobody(h, k);
      case GiveUpGet(k, f) => GiveUpForgetsNobody(h, k, f);
      case LeaveGet(k, f) => GiveUpForgetsNobody(h, k, f);
      case Pop => PopForgetsNobody(h);
      case Coalesced => CoalescedForgetsNobody(h, w.now);
      case ReadAnswered => ReadDoneForgetsNobody(h, Some(Answer(w, h.items[h.phase.id].group)), w.now);
      case ReadFailed => ReadDoneForgetsNobody(h, None, w.now);
      case SetDone => WriteOverForgetsNobody(h, w.now);
      case SetFailed => WriteOverForgetsNobody(h, w.now);
      case GetAnswered =>
        var k := h.items[h.phase.id].group;
        ApplyForgetsNobody(h, k, Answer(w, k), w.now);
        ApplyKeeps(h, k, Answer(w, k), w.now);
        ReadOverForgetsNobody(AppliedGet(w), Answer(w, k), w.now);
      case GetFailed => ReadOverForgetsNobody(h, [], w.now);
      case Deliver =>
      case Wall(_, _, _) =>
      case Tick(_) =>
    }
  }

  lemma StartForgetsNobody(w: World)
    requires Initial(w)
    ensures NobodyForgotten(w.h)
  {
  }

  lemma {:induction false} RunForgetsNobody(ws: seq<World>, es: seq<Event>, n: nat)
    requires IsRun(ws, es) && n <= |es|
    ensures NobodyForgotten(ws[n].h)
  {
    hide Bookkeeping, NobodyForgotten, Step, Enabled, Initial;
    if n == 0 {
      StartForgetsNobody(ws[0]);
    } else {
      RunForgetsNobody(ws, es, n - 1);
      RunKeepsBookkeeping(ws, es, n - 1);
      StepForgetsNobody(ws[n - 1], es[n - 1]);
    }
  }

  /** No lost wakeup, in every state of every run: each open caller of a group has a read of
      the group queued or in flight; a queued read that does not own its key is finished, so
      two open reads of one group are never queued together; and the owner is a queued read of
      the group. */
  lemma NoLostWakeup(ws: seq<World>, es: seq<Event>, n: nat, k: GroupKey)
    requires IsRun(ws, es) && n <= |es|
    ensures forall f :: f in Waiters(ws[n].h, k) && f !in ws[n].h.results ==> exists id :: ReadOf(ws[n].h.queue, ws[n].h.items, ws[n].h.phase, id, k)
    ensures forall i, j :: i in ws[n].h.queue && j in ws[n].h.queue && LiveRead(ws[n].h, i, k) && LiveRead(ws[n].h, j, k) ==> i == j
    ensures forall i :: i in ws[n].h.queue && LiveRead(ws[n].h, i, k) ==> Owns(ws[n].h.owners, k, i)
    ensures k in ws[n].h.owners ==> ws[n].h.owners[k] in ws[n].h.queue && ReadOf(ws[n].h.queue, ws[n].h.items, ws[n].h.phase, ws[n].h.owners[k], k)
  {
    hide Bookkeeping, NobodyForgotten, Step, Enabled, Initial;
    RunForgetsNobody(ws, es, n);
    Kept(ws[n].h);
  }

  predicate LiveRead(h: Handler, id: nat, k: GroupKey) {
    id in h.items && h.items[id].GetItem? && h.items[id].group == k && h.items[id].future !in h.results
  }

  /** When the queue is empty and the worker idle, no read and no view of a write is open. */
  lemma NobodyWaitsAtRest(ws: seq<World>, es: seq<Event>, n: nat)
    requires IsRun(ws, es) && n <= |es| && AtRest(ws[n].h)
    ensures forall k, f :: k in ws[n].h.waiters && f in ws[n].h.waiters[k] ==> f in ws[n].h.results
    ensures forall d :: d in ws[n].h.follows ==> d in ws[n].h.results
  {
    hide Bookkeeping, NobodyForgotten, Step, Enabled, Initial;
    RunForgetsNobody(ws, es, n);
    Kept(ws[n].h);
  }

  // ---- the worker gets there -------------------------------------------------------------------------

  predicate WorkerEvent(e: Event) {
    e.Pop? || e.Coalesced? || e.ReadAnswered? || e.ReadFailed? || e.SetDone? || e.SetFailed? || e.GetAnswered? || e.GetFailed?
  }

  /** The worker's remaining stages. */
  function Remaining(h: Handler): nat {
    4 * |h.queue| + if h.phase == Idle then 0 else if h.phase.Coalescing? then 3 else if h.phase.Reading? then 2 else 1
  }

  /** Unless all is done the worker has a next event, whatever the bus answers, and each of its
      events brings it closer: left alone it empties the queue. */
  lemma WorkerAdvances(w: World) returns (e: Event)
    requires Bookkeeping(w.h) && !AtRest(w.h)
    ensures WorkerEvent(e) && Enabled(w, e)
    ensures forall e' :: WorkerEvent(e') && Enabled(w, e') ==> Remaining(Step(w, e').h) < Remaining(w.h)
  {
    hide Bookkeeping;
    PhaseFacts(w.h);
    QueueFacts(w.h);
    e := match w.h.phase
      case Idle => Event.Pop
      case Coalescing(_) => Event.Coalesced
      case Reading(_) => ReadFailed
      case Sending(_, _) => Event.SetFailed
      case Getting(_) => Event.GetFailed;
    if w.h.phase == Idle {
      assert w.h.queue[0] in w.h.queue;
    }
    forall e' | WorkerEvent(e') && Enabled(w, e') ensures Remaining(Step(w, e').h) < Remaining(w.h) {
      WorkerStepAdvances(w, e');
    }
  }

  lemma WorkerStepAdvances(w: World, e: Event)
    requires Bookkeeping(w.h) && WorkerEvent(e) && Enabled(w, e)
    ensures Remaining(Step(w, e).h) < Remaining(w.h)
  {
    hide Bookkeeping, Remaining, CommandState.Pop, CommandState.Coalesced, ReadDone, CommandState.SetDone, CommandState.SetFailed, GetDone,
      CommandState.GetFailed, ApplyGroupState, OutputStep;
    match e {
      case Pop => PopAdvances(w.h);
      case Coalesced => CoalescedAdvances(w.h, w.now);
      case ReadAnswered => ReadDoneAdvances(w.h, Some(Answer(w, w.h.items[w.h.phase.id].group)), w.now);
      case ReadFailed => ReadDoneAdvances(w.h, None, w.now);
      case SetDone => OverAdvances(w.h, w.h, [], w.now);
      case SetFailed => OverAdvances(w.h, w.h, [], w.now);
      case GetAnswered => OverAdvances(w.h, AppliedGet(w), Answer(w, w.h.items[w.h.phase.id].group), w.now);
      case GetFailed => OverAdvances(w.h, w.h, [], w.now);
      case _ =>
    }
  }

  lemma PopAdvances(h: Handler)
    requires h.phase == Idle && h.queue != [] && h.queue[0] in h.items
    ensures Remaining(CommandState.Pop(h)) < Remaining(h)
  {
    hide Waiters, AllFinished, Released;
    match h.items[h.queue[0]] {
      case GetItem(k, f) =>
      case SetItem(k, channels) =>
    }
  }

  lemma CoalescedAdvances(h: Handler, now: int)
    requires h.phase.Coalescing? && BusyWithSet(h)
    ensures Remaining(CommandState.Coalesced(h, now)) < Remaining(h)
  {
    hide Overlay, Buffer, GroupBytes, Released, Recent;
  }

  lemma ReadDoneAdvances(h: Handler, answer: Option<seq<Byte>>, now: int)
    requires h.phase.Reading? && BusyWithSet(h)
    ensures Remaining(ReadDone(h, answer, now)) < Remaining(h)
  {
    hide Overlay, Buffer, GroupBytes, PutGroup, FinishedAll, Waiters, PendingChannels, WritingChannels;
  }

  lemma OverAdvances(h: Handler, applied: Handler, state: seq<Byte>, now: int)
    requires applied.queue == h.queue && applied.phase == h.phase && applied.items == h.items
    ensures BusyWithSet(h) && h.phase.Sending? ==>
      Remaining(CommandState.SetDone(h, now)) < Remaining(h) && Remaining(CommandState.SetFailed(h)) < Remaining(h)
    ensures BusyWithGet(h) ==>
      Remaining(GetDone(applied, state, now)) < Remaining(h) && Remaining(CommandState.GetFailed(h)) < Remaining(h)
  {
    hide FinishedAll, FinishShared, Waiters;
  }

  /** The worker, left alone, drains the queue and leaves nobody waiting. */
  lemma {:induction false} WorkerDrains(ws: seq<World>, es: seq<Event>) returns (ws': seq<World>, es': seq<Event>)
    requires IsRun(ws, es)
    ensures IsRun(ws', es') && |es'| >= |es| && es'[..|es|] == es && AtRest(ws'[|es'|].h)
    ensures forall i :: |es| <= i < |es'| ==> WorkerEvent(es'[i])
    decreases Remaining(ws[|es|].h)
  {
    hide Bookkeeping, Step, Enabled, Initial, WorkerEvent;
    if AtRest(ws[|es|].h) {
      ws', es' := ws, es;
      assert es'[..|es|] == es;
    } else {
      RunKeepsBookkeeping(ws, es, |es|);
      var e := WorkerAdvances(ws[|es|]);
      ws', es' := ws + [Step(ws[|es|], e)], es + [e];
      Extend(ws, es, e);
      var n := |es|;
      ws', es' := WorkerDrains(ws', es');
      assert es'[..n] == es && es'[n] == e by { assert es'[..n + 1] == es + [e]; }
    }
  }
}
