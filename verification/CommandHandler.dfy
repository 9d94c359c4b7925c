/** The command handler object (`command.py`): its tables, and its methods between two awaits,
    each proved against the value it works on in `CommandState`. */
module CommandHandler {
  import opened Wrappers
  import opened Bits
  import CS = CommandState
  type Address = CS.Address
  type GroupKey = CS.GroupKey
  type Image = CS.Image
  type Channels = CS.Channels
  type Future = CS.Future
  type Outcome = CS.Outcome
  type Item = CS.Item
  type Phase = CS.Phase
  type Handler = CS.Handler

  // ---- one more turn of a loop ------------------------------------------------------------------

  function Only(channels: Channels, left: set<int>): Channels {
    map c | c in channels && c !in left :: channels[c]
  }

  lemma OverlayOneMore(image: Image, channels: Channels, left: set<int>, c: int)
    requires c in channels && c in left
    ensures CS.PutChannel(CS.Overlay(image, Only(channels, left)), c, channels[c]) == CS.Overlay(image, Only(channels, left - {c}))
  {
    var before, after := CS.Overlay(image, Only(channels, left)), CS.Overlay(image, Only(channels, left - {c}));
    forall i | 0 <= i < 12 ensures CS.PutChannel(before, c, channels[c])[i] == after[i] {
      assert i + 1 in Only(channels, left - {c}) <==> i + 1 in Only(channels, left) || i + 1 == c;
    }
  }

  lemma OverlayEnds(image: Image, channels: Channels)
    ensures CS.Overlay(image, Only(channels, channels.Keys)) == image
    ensures Only(channels, {}) == channels
  {
    var r := CS.Overlay(image, Only(channels, channels.Keys));
    assert forall i :: 0 <= i < 12 ==> r[i] == image[i];
  }

  /** Removing a future takes out its first occurrence. */
  lemma {:induction false} WithoutAt(fs: seq<Future>, f: Future, i: nat)
    requires i <= |fs| && f !in fs[..i] && (i < |fs| ==> fs[i] == f)
    ensures CS.Without(fs, f) == if i < |fs| then fs[..i] + fs[i + 1..] else fs
    decreases i
  {
    if i == 0 {
      assert i < |fs| ==> fs[..0] + fs[1..] == fs[1..];
    } else {
      assert fs[0] == fs[..i][0] != f;
      assert fs[1..][..i - 1] == fs[..i][1..];
      WithoutAt(fs[1..], f, i - 1);
      assert fs == [fs[0]] + fs[1..];
      if i < |fs| {
        assert fs[1..][i..] == fs[i + 1..] && fs[..i] == [fs[0]] + fs[1..][..i - 1];
        assert [fs[0]] + (fs[1..][..i - 1] + fs[i + 1..]) == fs[..i] + fs[i + 1..];
      }
    }
  }

  lemma FinishOneMore(results: map<Future, Outcome>, fs: seq<Future>, i: nat, outcome: Outcome)
    requires i < |fs|
    ensures CS.Finished(CS.FinishedAll(results, fs[..i], outcome), fs[i], outcome) == CS.FinishedAll(results, fs[..i + 1], outcome)
  {
    hide CS.FinishedAll;
    assert fs[..i + 1] == fs[..i] + [fs[i]];
    var most, all := CS.FinishedAll(results, fs[..i], outcome), CS.FinishedAll(results, fs[..i + 1], outcome);
    var one := CS.Finished(most, fs[i], outcome);
    assert one.Keys == all.Keys;
    forall f | f in one ensures one[f] == all[f] {
      if f in results {
      } else if f in fs[..i] {
      } else {
      }
    }
  }

  lemma FinishNone(results: map<Future, Outcome>, fs: seq<Future>, outcome: Outcome)
    ensures CS.FinishedAll(results, fs[..0], outcome) == results
    ensures fs[..|fs|] == fs
  {
  }

  /** The views that follow a shared future. */
  function Views(follows: map<Future, Future>, shared: Future): set<Future> {
    set d | d in follows && follows[d] == shared
  }

  /** Any of the entries a loop has not been through yet. */
  method Next<T(==)>(left: set<T>) returns (x: T)
    requires left != {}
    ensures x in left
  {
    x :| x in left;
  }

  class NikobusCommandHandler {
    var moduleStates: map<Address, Image>
    var commandQueue: seq<nat>
    var items: map<nat, Item>
    var nextItem: nat
    var pendingSetGroups: map<GroupKey, nat>
    var writingSets: map<GroupKey, Channels>
    var groupKnownAt: map<GroupKey, int>
    var queuedGetKeys: map<GroupKey, nat>
    var pendingGetFutures: map<GroupKey, seq<Future>>
    var results: map<Future, Outcome>
    var follows: map<Future, Future>
    var nextFuture: nat
    var phase: Phase

    constructor ()
      ensures State() == CS.Handler(map[], [], map[], 0, map[], map[], map[], map[], map[], map[], map[], 0, CS.Idle)
    {
      moduleStates, commandQueue, items, nextItem := map[], [], map[], 0;
      pendingSetGroups, writingSets, groupKnownAt := map[], map[], map[];
      queuedGetKeys, pendingGetFutures := map[], map[];
      results, follows, nextFuture, phase := map[], map[], 0, CS.Idle;
    }

    function State(): Handler
      reads this
    {
      CS.Handler(moduleStates, commandQueue, items, nextItem, pendingSetGroups, writingSets, groupKnownAt, queuedGetKeys, pendingGetFutures,
                 results, follows, nextFuture, phase)
    }

    // ---- the shared buffer ----------------------------------------------------------------------

    /** `set_bytearray_state` */
    method SetBytearrayState(a: Address, channel: int, value: Byte)
      modifies this`moduleStates
      ensures moduleStates == old(moduleStates)[a := CS.PutChannel(CS.Buffer(old(moduleStates), a), channel, value)]
    {
      if a !in moduleStates {
        moduleStates := moduleStates[a := CS.ZEROS];
      }
      var index := channel - 1;
      if 0 <= index < 12 {
        moduleStates := moduleStates[a := moduleStates[a][index := value]];
      }
    }

    /** The channel writes of a request, one by one, into the buffer. */
    method ApplyWrites(a: Address, channels: Channels)
      requires a in moduleStates
      modifies this`moduleStates
      ensures moduleStates == old(moduleStates)[a := CS.Overlay(CS.Buffer(old(moduleStates), a), channels)]
    {
      hide CS.Overlay, Only;
      var left := channels.Keys;
      ghost var image := moduleStates[a];
      OverlayEnds(image, channels);
      while left != {}
        invariant left <= channels.Keys
        invariant a in moduleStates
        invariant moduleStates == old(moduleStates)[a := CS.Overlay(image, Only(channels, left))]
        decreases |left|
      {
        var c := Next(left);
        OverlayOneMore(image, channels, left, c);
        SetBytearrayState(a, c, channels[c]);
        left := left - {c};
      }
    }

    /** The six bytes of a group, into the buffer. */
    method StoreGroup(k: GroupKey, image: seq<Byte>)
      requires |image| == 6
      modifies this`moduleStates
      ensures moduleStates == old(moduleStates)[k.0 := CS.PutGroup(CS.Buffer(old(moduleStates), k.0), k.1, image)]
    {
      if k.0 !in moduleStates {
        moduleStates := moduleStates[k.0 := CS.ZEROS];
      }
      var start := if k.1 == 1 then 0 else 6;
      moduleStates := moduleStates[k.0 := moduleStates[k.0][..start] + image + moduleStates[k.0][start + 6..]];
    }

    /** `apply_group_state` */
    method ApplyGroupState(k: GroupKey, state: seq<Byte>, now: int) returns (applied: bool)
      modifies this`moduleStates, this`groupKnownAt
      ensures applied == (|state| >= 6)
      ensures moduleStates == if |state| >= 6 then CS.ApplyGroupState(old(State()), k, state, now).buffers else old(moduleStates)
      ensures groupKnownAt == if |state| >= 6 then CS.ApplyGroupState(old(State()), k, state, now).knownAt else old(groupKnownAt)
    {
      hide CS.Overlay;
      var image := if |state| <= 6 then state else state[..6];
      if |image| < 6 {
        return false;
      }
      assert image == state[..6];
      StoreGroup(k, image);
      if k in pendingSetGroups && pendingSetGroups[k] in items && items[pendingSetGroups[k]].SetItem? {
        ApplyWrites(k.0, items[pendingSetGroups[k]].channels);
      } else {
        NoWrites(moduleStates[k.0]);
      }
      if k in writingSets {
        ApplyWrites(k.0, writingSets[k]);
      } else {
        NoWrites(moduleStates[k.0]);
      }
      groupKnownAt := groupKnownAt[k := now];
      return true;
    }

    // ---- writes -----------------------------------------------------------------------------------

    /** `set_output_state` */
    method SetOutputState(a: Address, channel: int, value: Byte) returns (own: Future)
      modifies this`moduleStates, this`commandQueue, this`items, this`nextItem, this`pendingSetGroups, this`follows, this`nextFuture
      ensures var h := CS.SetOutputState(old(State()), a, channel, value);
        && moduleStates == h.buffers && commandQueue == h.queue && items == h.items && nextItem == h.nextItem
        && pendingSetGroups == h.pending && follows == h.follows && nextFuture == h.nextFuture
      ensures own == CS.Derived(old(nextFuture)) && own in follows
    {
      hide CS.PutChannel, CS.Buffer;
      var group := CS.GroupOf(channel);
      SetBytearrayState(a, channel, value);
      var k := (a, group);
      var id;
      if k in pendingSetGroups && pendingSetGroups[k] in items && items[pendingSetGroups[k]].SetItem? {
        id := pendingSetGroups[k];
        items := items[id := items[id].(channels := items[id].channels[channel := value])];
      } else {
        id := nextItem;
        nextItem := nextItem + 1;
        items := items[id := CS.SetItem(k, map[channel := value])];
        pendingSetGroups := pendingSetGroups[k := id];
        commandQueue := commandQueue + [id];
      }
      own := DerivedFuture(CS.Shared(id));
    }

    /** `_derived_future`: a caller's own view of a shared future. */
    method DerivedFuture(shared: Future) returns (own: Future)
      modifies this`follows, this`nextFuture
      ensures own == CS.Derived(old(nextFuture)) && nextFuture == old(nextFuture) + 1
      ensures follows == old(follows)[own := shared]
    {
      own := CS.Derived(nextFuture);
      nextFuture := nextFuture + 1;
      follows := follows[own := shared];
    }

    // ---- futures ----------------------------------------------------------------------------------

    /** Finish a future unless it is done. */
    method Finish(f: Future, outcome: Outcome)
      modifies this`results
      ensures results == CS.Finished(old(results), f, outcome)
    {
      if f !in results {
        results := results[f := outcome];
      }
    }

    /** `_fail_pending_gets`, and the loop of `resolve_pending_get`. */
    method FinishWaiters(k: GroupKey, outcome: Outcome)
      modifies this`results
      ensures results == CS.FinishedAll(old(results), CS.Waiters(old(State()), k), outcome)
    {
      hide CS.FinishedAll;
      var waiters := if k in pendingGetFutures then pendingGetFutures[k] else [];
      FinishNone(results, waiters, outcome);
      for i := 0 to |waiters|
        invariant results == CS.FinishedAll(old(results), waiters[..i], outcome)
      {
        FinishOneMore(old(results), waiters, i, outcome);
        Finish(waiters[i], outcome);
      }
    }

    /** `resolve_pending_get` */
    method ResolvePendingGet(k: GroupKey, state: seq<Byte>, now: int)
      modifies this`results, this`groupKnownAt
      ensures results == CS.ResolvePendingGet(old(State()), k, state, now).results
      ensures groupKnownAt == CS.ResolvePendingGet(old(State()), k, state, now).knownAt
    {
      hide CS.FinishedAll;
      if |state| >= 6 {
        groupKnownAt := groupKnownAt[k := now];
      }
      FinishWaiters(k, CS.Answered(state));
    }

    /** A write's shared future is finished, and each caller's view follows it. */
    method FinishShared(id: nat, outcome: Outcome)
      modifies this`results
      ensures results == CS.FinishShared(old(results), follows, id, outcome)
    {
      var shared := CS.Shared(id);
      if shared in results {
        return;
      }
      results := results[shared := outcome];
      var views := Views(follows, shared);
      var left := views;
      while left != {}
        invariant left <= views
        invariant forall f :: f in results <==> f in old(results) || f == shared || (f in views && f !in left)
        invariant forall f :: f in results ==> results[f] == if f in old(results) then old(results)[f] else outcome
        decreases |left|
      {
        var own := Next(left);
        Finish(own, outcome);
        left := left - {own};
      }
      SameFinished(old(results), follows, id, outcome, results);
    }

    lemma SameFinished(before: map<Future, Outcome>, follows: map<Future, Future>, id: nat, outcome: Outcome, after: map<Future, Outcome>)
      requires CS.Shared(id) !in before
      requires forall f :: f in after <==> f in before || f == CS.Shared(id) || f in Views(follows, CS.Shared(id))
      requires forall f :: f in after ==> after[f] == if f in before then before[f] else outcome
      ensures after == CS.FinishShared(before, follows, id, outcome)
    {
      var spec := CS.FinishShared(before, follows, id, outcome);
      hide CS.FinishShared;
      assert forall f :: f in spec <==> f in after;
      assert forall f :: f in spec ==> spec[f] == after[f];
    }

    // ---- reads --------------------------------------------------------------------------------------

    /** `get_output_state` up to its wait. */
    method BeginGet(k: GroupKey) returns (f: Future)
      modifies this`pendingGetFutures, this`nextFuture, this`commandQueue, this`items, this`nextItem, this`queuedGetKeys
      ensures var h := CS.BeginGet(old(State()), k);
        && pendingGetFutures == h.waiters && nextFuture == h.nextFuture && commandQueue == h.queue
        && items == h.items && nextItem == h.nextItem && queuedGetKeys == h.owners
      ensures f == CS.Get(old(nextFuture)) && f in pendingGetFutures[k]
    {
      f := CS.Get(nextFuture);
      nextFuture := nextFuture + 1;
      var waiters := if k in pendingGetFutures then pendingGetFutures[k] else [];
      pendingGetFutures := pendingGetFutures[k := waiters + [f]];
      QueueRead(k, f);
    }

    /** `queue_command` for a state read: suppressed while one is queued for the group. */
    method QueueRead(k: GroupKey, f: Future)
      modifies this`commandQueue, this`items, this`nextItem, this`queuedGetKeys
      ensures k in old(queuedGetKeys) ==>
        commandQueue == old(commandQueue) && items == old(items) && nextItem == old(nextItem) && queuedGetKeys == old(queuedGetKeys)
      ensures k !in old(queuedGetKeys) ==> commandQueue == old(commandQueue) + [old(nextItem)] && nextItem == old(nextItem) + 1
      ensures k !in old(queuedGetKeys) ==>
        items == old(items)[old(nextItem) := CS.GetItem(k, f)] && queuedGetKeys == old(queuedGetKeys)[k := old(nextItem)]
    {
      if k in queuedGetKeys {
        return;
      }
      var id := nextItem;
      nextItem := nextItem + 1;
      items := items[id := CS.GetItem(k, f)];
      queuedGetKeys := queuedGetKeys[k := id];
      commandQueue := commandQueue + [id];
    }

    /** The `finally` of `get_output_state`. */
    method LeaveWaiters(k: GroupKey, f: Future)
      modifies this`pendingGetFutures
      ensures pendingGetFutures == CS.LeaveWaiters(old(State()), k, f).waiters
    {
      if k !in pendingGetFutures {
        return;
      }
      var remaining := Remove(pendingGetFutures[k], f);
      if remaining == [] {
        pendingGetFutures := pendingGetFutures - {k};
      } else {
        pendingGetFutures := pendingGetFutures[k := remaining];
      }
    }

    /** `list.remove`, of a future that may be gone already. */
    static method Remove(fs: seq<Future>, f: Future) returns (r: seq<Future>)
      ensures r == CS.Without(fs, f)
    {
      var i := 0;
      while i < |fs| && fs[i] != f
        invariant 0 <= i <= |fs|
        invariant f !in fs[..i]
      {
        assert fs[..i + 1] == fs[..i] + [fs[i]];
        i := i + 1;
      }
      WithoutAt(fs, f, i);
      r := if i < |fs| then fs[..i] + fs[i + 1..] else fs;
    }

    /** A caller whose wait timed out or was cancelled: only the owner of the key frees it. */
    method GiveUpGet(k: GroupKey, f: Future)
      modifies this`results, this`queuedGetKeys, this`pendingGetFutures
      ensures var h := CS.GiveUpGet(old(State()), k, f);
        results == h.results && queuedGetKeys == h.owners && pendingGetFutures == h.waiters
    {
      hide CS.WaitersLeft;
      Finish(f, CS.Cancelled);
      if k in queuedGetKeys && queuedGetKeys[k] in items && items[queuedGetKeys[k]].GetItem? && items[queuedGetKeys[k]].future == f {
        queuedGetKeys := queuedGetKeys - {k};
      }
      LeaveWaiters(k, f);
    }

    // ---- the worker ---------------------------------------------------------------------------------

    /** Whether every caller of a group is done. */
    method AllDone(k: GroupKey) returns (done: bool)
      ensures done == CS.AllFinished(State(), CS.Waiters(State(), k))
    {
      var waiters := if k in pendingGetFutures then pendingGetFutures[k] else [];
      for i := 0 to |waiters|
        invariant forall j :: 0 <= j < i ==> waiters[j] in results
      {
        if waiters[i] !in results {
          return false;
        }
      }
      return true;
    }

    /** The head of `_process_commands`: take an item, skip it when nobody waits for it. */
    method TakeNext()
      requires phase == CS.Idle && commandQueue != [] && commandQueue[0] in items
      modifies this`commandQueue, this`queuedGetKeys, this`pendingSetGroups, this`phase
      ensures var h := CS.Pop(old(State()));
        commandQueue == h.queue && queuedGetKeys == h.owners && pendingSetGroups == h.pending && phase == h.phase
    {
      var id := commandQueue[0];
      var item := items[id];
      match item {
        case GetItem(k, f) =>
          var skipped := false;
          if f in results {
            skipped := AllDone(k);
          }
          if k in queuedGetKeys && queuedGetKeys[k] == id {
            queuedGetKeys := queuedGetKeys - {k};
          }
          if !skipped {
            phase := CS.Getting(id);
          }
        case SetItem(k, _) =>
          if CS.Shared(id) in results {
            if k in pendingSetGroups && pendingSetGroups[k] == id {
              pendingSetGroups := pendingSetGroups - {k};
            }
          } else {
            phase := CS.Coalescing(id);
          }
      }
      commandQueue := commandQueue[1..];
    }

    /** The frame of the item: its writes into the buffer once more, then its group's bytes. */
    method BuildFrame(id: nat)
      requires id in items && items[id].SetItem?
      modifies this`moduleStates, this`phase
      ensures moduleStates == CS.Build(old(State()), id).buffers && phase == CS.Build(old(State()), id).phase
    {
      hide CS.Overlay;
      var (a, group) := items[id].group;
      if a !in moduleStates {
        moduleStates := moduleStates[a := CS.ZEROS];
      }
      ApplyWrites(a, items[id].channels);
      var start := if group == 1 then 0 else 6;
      phase := CS.Sending(id, moduleStates[a][start..start + 6]);
    }

    /** The coalescing window is over. */
    method CloseWindow(now: int)
      requires phase.Coalescing? && phase.id in items && items[phase.id].SetItem?
      modifies this`pendingSetGroups, this`writingSets, this`moduleStates, this`phase
      ensures var h := CS.Coalesced(old(State()), now);
        pendingSetGroups == h.pending && writingSets == h.writing && moduleStates == h.buffers && phase == h.phase
    {
      hide CS.Overlay, CS.GroupBytes, CS.Buffer;
      var id := phase.id;
      var k := items[id].group;
      if k in pendingSetGroups && pendingSetGroups[k] == id {
        pendingSetGroups := pendingSetGroups - {k};
      }
      writingSets := writingSets[k := items[id].channels];
      if k in groupKnownAt && now - groupKnownAt[k] <= CS.READ_BEFORE_WRITE {
        BuildFrame(id);
      } else {
        phase := CS.Reading(id);
      }
    }

    /** The rest of `_refresh_stale_group` and the frame that follows it. */
    method AfterRead(answer: Option<seq<Byte>>, now: int)
      requires phase.Reading? && phase.id in items && items[phase.id].SetItem?
      modifies this`moduleStates, this`groupKnownAt, this`results, this`phase
      ensures var h := CS.ReadDone(old(State()), answer, now);
        moduleStates == h.buffers && groupKnownAt == h.knownAt && results == h.results && phase == h.phase
    {
      hide CS.Overlay, CS.GroupBytes, CS.Buffer, CS.ApplyGroupState, CS.ResolvePendingGet;
      var k := items[phase.id].group;
      ghost var before := State();
      if answer.Some? {
        var applied := ApplyGroupState(k, answer.value, now);
        if applied {
          assert State() == CS.ApplyGroupState(before, k, answer.value, now) by { ApplyChanges(before, k, answer.value, now); }
          ghost var after := State();
          ResolvePendingGet(k, answer.value, now);
          assert State() == CS.ResolvePendingGet(after, k, answer.value, now) by { ResolveChanges(after, k, answer.value, now); }
        }
      }
      BuildFrame(phase.id);
    }

    lemma ApplyChanges(h: Handler, k: GroupKey, state: seq<Byte>, now: int)
      requires |state| >= 6
      ensures CS.ApplyGroupState(h, k, state, now) == h.(buffers := CS.ApplyGroupState(h, k, state, now).buffers, knownAt := CS.ApplyGroupState(h, k, state, now).knownAt)
    {
      hide CS.Overlay, CS.PutGroup, CS.PendingChannels, CS.WritingChannels;
    }

    lemma ResolveChanges(h: Handler, k: GroupKey, state: seq<Byte>, now: int)
      ensures CS.ResolvePendingGet(h, k, state, now) == h.(results := CS.ResolvePendingGet(h, k, state, now).results, knownAt := CS.ResolvePendingGet(h, k, state, now).knownAt)
    {
      hide CS.FinishedAll, CS.Waiters;
    }

    /** A write was acknowledged. */
    method WriteDone(now: int)
      requires phase.Sending? && phase.id in items && items[phase.id].SetItem?
      modifies this`results, this`groupKnownAt, this`writingSets, this`phase
      ensures var h := CS.SetDone(old(State()), now);
        results == h.results && groupKnownAt == h.knownAt && writingSets == h.writing && phase == h.phase
    {
      hide CS.FinishShared;
      var k := items[phase.id].group;
      FinishShared(phase.id, CS.Answered([]));
      groupKnownAt := groupKnownAt[k := now];
      writingSets := writingSets - {k};
      phase := CS.Idle;
    }

    /** Every attempt of a write failed. */
    method WriteFailed()
      requires phase.Sending? && phase.id in items && items[phase.id].SetItem?
      modifies this`results, this`writingSets, this`phase
      ensures var h := CS.SetFailed(old(State()));
        results == h.results && writingSets == h.writing && phase == h.phase
    {
      hide CS.FinishShared;
      FinishShared(phase.id, CS.Failed);
      writingSets := writingSets - {items[phase.id].group};
      phase := CS.Idle;
    }

    /** A read was answered: its own caller first, then every other caller of the group. */
    method ReadAnswered(state: seq<Byte>, now: int)
      requires phase.Getting? && phase.id in items && items[phase.id].GetItem?
      modifies this`results, this`groupKnownAt, this`phase
      ensures var h := CS.GetDone(old(State()), state, now);
        results == h.results && groupKnownAt == h.knownAt && phase == h.phase
    {
      hide CS.FinishedAll;
      var item := items[phase.id];
      Finish(item.future, CS.Answered(state));
      ResolvePendingGet(item.group, state, now);
      phase := CS.Idle;
    }

    /** Every attempt of a read failed. */
    method ReadFailed()
      requires phase.Getting? && phase.id in items && items[phase.id].GetItem?
      modifies this`results, this`phase
      ensures results == CS.GetFailed(old(State())).results && phase == CS.GetFailed(old(State())).phase
    {
      hide CS.FinishedAll;
      var item := items[phase.id];
      Finish(item.future, CS.Failed);
      FinishWaiters(item.group, CS.Failed);
      phase := CS.Idle;
    }

    lemma NoWrites(image: Image)
      ensures CS.Overlay(image, map[]) == image
    {
      assert forall i :: 0 <= i < 12 ==> CS.Overlay(image, map[])[i] == image[i];
    }
  }
}
