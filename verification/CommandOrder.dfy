/** In what order the worker serves requests, and which it passes over. */
module CommandOrder {
  import opened Wrappers
  import opened Bits
  import opened CommandState
  import opened CommandRuns
  import opened CommandChannels
  import opened CommandSafety

  /** Items stand in the order they were asked for. */
  predicate InOrder(queue: seq<nat>) {
    forall i, j :: 0 <= i < j < |queue| ==> queue[i] < queue[j]
  }

  /** What an event may do to the queue: nothing, take the first item, or add a new one at the end. */
  predicate QueueMoves(h: Handler, h': Handler, popped: bool) {
    if popped then h.queue != [] && h'.queue == h.queue[1..] && h'.nextItem == h.nextItem
    else (h'.queue == h.queue && h'.nextItem == h.nextItem) || (h'.queue == h.queue + [h.nextItem] && h'.nextItem == h.nextItem + 1)
  }

  lemma SetQueue(h: Handler, a: Address, c: int, value: Byte)
    ensures QueueMoves(h, SetOutputState(h, a, c, value), false)
  {
    hide PutChannel, Buffer;
    if (a, GroupOf(c)) in h.pending {
    }
  }

  lemma BeginQueue(h: Handler, k: GroupKey)
    ensures QueueMoves(h, CommandState.BeginGet(h, k), false)
  {
    hide Waiters;
    if k in h.owners {
    }
  }

  lemma PopQueue(h: Handler)
    requires h.phase == Idle && h.queue != [] && h.queue[0] in h.items
    ensures QueueMoves(h, CommandState.Pop(h), true)
  {
    hide Waiters, AllFinished, Released;
    match h.items[h.queue[0]] {
      case GetItem(k, f) => assert CommandState.Pop(h).queue == h.queue[1..] && CommandState.Pop(h).nextItem == h.nextItem;
      case SetItem(k, channels) => assert CommandState.Pop(h).queue == h.queue[1..] && CommandState.Pop(h).nextItem == h.nextItem;
    }
  }

  lemma BuildQueue(h: Handler, id: nat)
    requires id in h.items && h.items[id].SetItem?
    ensures CommandState.Build(h, id).queue == h.queue && CommandState.Build(h, id).nextItem == h.nextItem
  {
    hide Overlay, GroupBytes, Buffer;
  }

  lemma ApplyQueue(h: Handler, k: GroupKey, state: seq<Byte>, now: int)
    requires |state| >= 6
    ensures ApplyGroupState(h, k, state, now).queue == h.queue && ApplyGroupState(h, k, state, now).nextItem == h.nextItem
    ensures ApplyGroupState(h, k, state, now).items == h.items
  {
    hide Overlay, PutGroup, Buffer, PendingChannels, WritingChannels;
  }

  lemma CoalescedQueue(h: Handler, now: int)
    requires h.phase.Coalescing? && BusyWithSet(h)
    ensures QueueMoves(h, CommandState.Coalesced(h, now), false)
  {
    hide CommandState.Build, Released, Recent;
    var id, item := h.phase.id, h.items[h.phase.id];
    BuildQueue(h.(pending := Released(h.pending, item.group, id), writing := h.writing[item.group := item.channels]), id);
  }

  lemma ReadQueue(h: Handler, answer: Option<seq<Byte>>, now: int)
    requires h.phase.Reading? && BusyWithSet(h) && (answer.Some? ==> |answer.value| >= 6)
    ensures QueueMoves(h, ReadDone(h, answer, now), false)
  {
    hide ApplyGroupState, CommandState.Build, FinishedAll, Waiters;
    if answer.Some? {
      var k := h.items[h.phase.id].group;
      ApplyQueue(h, k, answer.value, now);
      BuildQueue(ResolvePendingGet(ApplyGroupState(h, k, answer.value, now), k, answer.value, now), h.phase.id);
    } else {
      BuildQueue(h, h.phase.id);
    }
  }

  lemma OverQueue(h: Handler, applied: Handler, state: seq<Byte>, now: int)
    requires applied.queue == h.queue && applied.nextItem == h.nextItem && applied.phase == h.phase && applied.items == h.items
    ensures BusyWithSet(h) && h.phase.Sending? ==>
      QueueMoves(h, CommandState.SetDone(h, now), false) && QueueMoves(h, CommandState.SetFailed(h), false)
    ensures BusyWithGet(h) ==> QueueMoves(h, GetDone(applied, state, now), false) && QueueMoves(h, CommandState.GetFailed(h), false)
  {
    hide FinishedAll, FinishShared, Waiters, Finished;
  }

  lemma StepQueue(w: World, e: Event)
    requires Bookkeeping(w.h) && Enabled(w, e)
    ensures QueueMoves(w.h, Step(w, e).h, e.Pop?)
  {
    hide Bookkeeping, QueueMoves, SetOutputState, ApplyGroupState, CommandState.BeginGet, CommandState.Pop, CommandState.Coalesced, ReadDone,
      CommandState.SetDone, CommandState.SetFailed, GetDone, CommandState.GetFailed, OutputStep, GroupBytes;
    PhaseFacts(w.h);
    match e {
      case Set(a, c, value) => SetQueue(w.h, a, c, value);
      case BeginGet(k) => BeginQueue(w.h, k);
      case Pop => PopQueue(w.h);
      case Coalesced => CoalescedQueue(w.h, w.now);
      case ReadAnswered => ReadQueue(w.h, Some(Answer(w, w.h.items[w.h.phase.id].group)), w.now);
      case ReadFailed => ReadQueue(w.h, None, w.now);
      case SetDone => OverQueue(w.h, w.h, [], w.now);
      case SetFailed => OverQueue(w.h, w.h, [], w.now);
      case GetAnswered =>
        ApplyQueue(w.h, w.h.items[w.h.phase.id].group, Answer(w, w.h.items[w.h.phase.id].group), w.now);
        OverQueue(w.h, AppliedGet(w), Answer(w, w.h.items[w.h.phase.id].group), w.now);
      case GetFailed => OverQueue(w.h, w.h, [], w.now);
      case HostApply(k) => StillQueue(w.h, ApplyGroupState(w.h, k, Answer(w, k), w.now)) by { ApplyQueue(w.h, k, Answer(w, k), w.now); }
      case Feedback(k) =>
        ApplyQueue(w.h, k, Answer(w, k), w.now);
        StillQueue(w.h, ResolvePendingGet(ApplyGroupState(w.h, k, Answer(w, k), w.now), k, Answer(w, k), w.now));
      case _ => StillQueue(w.h, Step(w, e).h);
    }
  }

  lemma StillQueue(h: Handler, h': Handler)
    requires h'.queue == h.queue && h'.nextItem == h.nextItem
    ensures QueueMoves(h, h', false)
  {
  }

  /** The queue keeps its order, and everything queued from now on comes behind `x`. */
  predicate Behind(h: Handler, x: int) {
    InOrder(h.queue) && (forall id :: id in h.queue ==> x < id < h.nextItem) && x < h.nextItem
  }

  lemma StepKeepsBehind(w: World, e: Event, x: int)
    requires Bookkeeping(w.h) && Enabled(w, e) && Behind(w.h, x)
    ensures Behind(Step(w, e).h, x)
    ensures e.Pop? ==> Behind(Step(w, e).h, w.h.queue[0])
  {
    hide Bookkeeping, Step, Enabled;
    StepQueue(w, e);
    var q, q' := w.h.queue, Step(w, e).h.queue;
    if e.Pop? {
      assert forall id :: id in q' ==> id in q;
      forall id | id in q' ensures q[0] < id < Step(w, e).h.nextItem {
        var i :| 0 <= i < |q'| && q'[i] == id;
        assert q[i + 1] == id && q[0] in q;
      }
      assert q[0] in q;
      assert forall i, j :: 0 <= i < j < |q'| ==> q'[i] == q[i + 1] && q'[j] == q[j + 1];
    } else if q' != q {
      forall i, j | 0 <= i < j < |q'| ensures q'[i] < q'[j] {
        assert q'[i] == q[i] && q[i] in q;
      }
    }
  }

  lemma {:induction false} RunKeepsOrder(ws: seq<World>, es: seq<Event>, n: nat)
    requires IsRun(ws, es) && n <= |es|
    ensures Behind(ws[n].h, -1)
  {
    hide Bookkeeping, Step, Enabled;
    if n == 0 {
      assert ws[0].h.queue == [];
    } else {
      RunKeepsOrder(ws, es, n - 1);
      RunKeepsBookkeeping(ws, es, n - 1);
      RunStep(ws, es, n - 1);
      StepKeepsBehind(ws[n - 1], es[n - 1], -1);
    }
  }

  lemma {:induction false} LaterItemsBehind(ws: seq<World>, es: seq<Event>, m: nat, n: nat)
    requires IsRun(ws, es) && m < n <= |es| && es[m].Pop? && ws[m].h.queue != []
    ensures Behind(ws[n].h, ws[m].h.queue[0])
    decreases n
  {
    hide Bookkeeping, Step, Enabled, Behind;
    RunKeepsOrder(ws, es, n - 1);
    RunKeepsBookkeeping(ws, es, n - 1);
    RunStep(ws, es, n - 1);
    if n == m + 1 {
      StepKeepsBehind(ws[m], es[m], -1);
    } else {
      LaterItemsBehind(ws, es, m, n - 1);
      StepKeepsBehind(ws[n - 1], es[n - 1], ws[m].h.queue[0]);
    }
  }

  /** First asked, first served: items leave the queue in the order their numbers were given out. */
  lemma ServedInOrder(ws: seq<World>, es: seq<Event>, m: nat, n: nat)
    requires IsRun(ws, es) && m < n < |es| && es[m].Pop? && es[n].Pop?
    ensures ws[m].h.queue != [] && ws[n].h.queue != [] && ws[m].h.queue[0] < ws[n].h.queue[0]
  {
    hide Bookkeeping, Step, IsRun;
    RunStep(ws, es, m);
    RunStep(ws, es, n);
    LaterItemsBehind(ws, es, m, n);
    assert ws[n].h.queue[0] in ws[n].h.queue;
  }

  /** A write whose turn has come is always begun, a read unless it and every caller of its group
      have been answered or have given up. */
  lemma PopBegins(w: World)
    requires Bookkeeping(w.h) && Enabled(w, Event.Pop)
    ensures var id, phase := w.h.queue[0], Step(w, Event.Pop).h.phase;
      match w.h.items[id]
      case SetItem(_, _) => phase == Coalescing(id)
      case GetItem(k, f) =>
        && (phase == Idle <==> f in w.h.results && forall g :: g in Waiters(w.h, k) ==> g in w.h.results)
        && (phase != Idle ==> phase == Getting(id))
  {
    hide Bookkeeping, Waiters, Released, OutputStep;
    ResultFacts(w.h);
    assert w.h.queue[0] in w.h.queue;
    match w.h.items[w.h.queue[0]] {
      case GetItem(k, f) => EveryOneFinished(w.h, Waiters(w.h, k));
      case SetItem(k, channels) =>
    }
  }

  lemma EveryOneFinished(h: Handler, fs: seq<Future>)
    ensures AllFinished(h, fs) <==> forall g :: g in fs ==> g in h.results
  {
    if AllFinished(h, fs) {
      forall g | g in fs ensures g in h.results {
        var i :| 0 <= i < |fs| && fs[i] == g;
      }
    }
    assert forall i :: 0 <= i < |fs| ==> fs[i] in fs;
  }
}
