/** Four runs in which a group write does switch an output back, one for each kind of trouble
    that the claim about wall changes excepts. */
module CommandCorners {
  import opened Wrappers
  import opened Bits
  import opened CommandState
  import opened CommandRuns
  import opened CommandChannels
  import opened CommandSafety

  const START: World := World(Handler(map[], [], map[], 0, map[], map[], map[], map[], map[], map[], map[], 0, Idle), map[], 0, false)

  /** The worker holds item `id`, a write of group `k`, and the queue is empty. */
  predicate Holds(h: Handler, id: nat, k: GroupKey) {
    h.queue == [] && h.phase != Idle && h.phase.id == id && id in h.items && h.items[id].SetItem? && h.items[id].group == k
  }

  predicate KnownAt(h: Handler, k: GroupKey, at: int) {
    k in h.knownAt && h.knownAt[k] == at
  }

  lemma SetAndPop(w: World, a: Address, c: int, value: Byte) returns (w': World, w'': World, id: nat)
    requires Bookkeeping(w.h) && AtRest(w.h) && IsChannel(c)
    ensures Enabled(w, Set(a, c, value)) && w' == Step(w, Set(a, c, value)) && Enabled(w', Event.Pop)
    ensures w'' == Step(w', Event.Pop)
    ensures Bookkeeping(w''.h) && w''.h.phase == Coalescing(id) && Holds(w''.h, id, GroupKeyOf(a, c))
    ensures w''.h.knownAt == w.h.knownAt && w''.now == w.now
    ensures forall c' :: IsChannel(c') ==> View(w'', a, c') == Moved(View(w, a, c'), if c' == c then Ask(value) else Stay)
  {
    hide Bookkeeping, View, Moved, PutChannel, Buffer, CommandState.Pop;
    if GroupKeyOf(a, c) in w.h.pending {
      PendingFacts(w.h, GroupKeyOf(a, c));
      assert false;
    }
    id := w.h.nextItem;
    w' := Step(w, Set(a, c, value));
    StepKeepsBookkeeping(w, Set(a, c, value));
    Queued(w.h, a, c, value);
    w'' := Step(w', Event.Pop);
    StepKeepsBookkeeping(w', Event.Pop);
    Popped(w'.h);
    forall c' | IsChannel(c') ensures View(w'', a, c') == Moved(View(w, a, c'), if c' == c then Ask(value) else Stay) {
      StepMovesChannel(w, Set(a, c, value), a, c');
      StepMovesChannel(w', Event.Pop, a, c');
      StayMoves(View(w', a, c'));
    }
  }

  lemma Queued(h: Handler, a: Address, c: int, value: Byte)
    requires GroupKeyOf(a, c) !in h.pending && h.queue == [] && h.phase == Idle
    ensures var h' := SetOutputState(h, a, c, value);
      h'.queue == [h.nextItem] && h'.phase == Idle && h'.knownAt == h.knownAt && h.nextItem in h'.items && h'.items[h.nextItem] == SetItem(GroupKeyOf(a, c), map[c := value])
  {
    hide PutChannel, Buffer;
  }

  lemma Popped(h: Handler)
    requires Bookkeeping(h) && h.phase == Idle && |h.queue| == 1 && h.queue[0] in h.items
    requires h.items[h.queue[0]].SetItem?
    ensures var h' := CommandState.Pop(h);
      h'.queue == [] && h'.phase == Coalescing(h.queue[0]) && h'.knownAt == h.knownAt && h'.items == h.items
  {
    hide Bookkeeping, Released, AllFinished, Waiters;
    ResultFacts(h);
    assert h.queue[0] in h.queue;
  }

  /** The window closes and the frame is built at once or after a read. */
  lemma StageCoalesced(w: World, id: nat, k: GroupKey)
    requires Bookkeeping(w.h) && Enabled(w, Event.Coalesced) && Holds(w.h, id, k)
    ensures Holds(Step(w, Event.Coalesced).h, id, k) && Step(w, Event.Coalesced).now == w.now
    ensures k in Step(w, Event.Coalesced).h.knownAt ==> k in w.h.knownAt
    ensures if Recent(w.h, k, w.now) then Step(w, Event.Coalesced).h.phase.Sending? else Step(w, Event.Coalesced).h.phase.Reading?
  {
    hide Bookkeeping, Overlay, Buffer, GroupBytes, Released, OutputStep;
  }

  function ReadOver(answered: bool): Event {
    if answered then ReadAnswered else ReadFailed
  }

  lemma StageRead(w: World, id: nat, k: GroupKey, answered: bool)
    requires Bookkeeping(w.h) && Enabled(w, ReadOver(answered)) && Holds(w.h, id, k)
    ensures var w' := Step(w, ReadOver(answered));
      && Holds(w'.h, id, k) && w'.now == w.now && w'.h.phase.Sending? && |w'.h.phase.frame| == 6
      && (answered ==> KnownAt(w'.h, k, w.now))
  {
    hide Bookkeeping, Overlay, PutGroup, Buffer, GroupBytes, FinishedAll, Waiters, PendingChannels, WritingChannels, OutputStep;
    if answered {
      assert Step(w, ReadAnswered).h == ReadDone(w.h, Some(Answer(w, k)), w.now);
    } else {
      assert Step(w, ReadFailed).h == ReadDone(w.h, None, w.now);
    }
  }

  lemma StageOver(w: World, e: Event, id: nat, k: GroupKey)
    requires Bookkeeping(w.h) && Enabled(w, e) && Holds(w.h, id, k) && (e.SetDone? || e.SetFailed?)
    ensures AtRest(Step(w, e).h) && Step(w, e).now == w.now
    ensures e.SetDone? ==> KnownAt(Step(w, e).h, k, w.now)
    ensures e.SetFailed? && k in w.h.knownAt ==> KnownAt(Step(w, e).h, k, w.h.knownAt[k])
  {
    hide Bookkeeping, FinishShared, OutputStep;
  }

  lemma StageDeliver(w: World)
    requires Enabled(w, Event.Deliver)
    ensures Step(w, Event.Deliver).h == w.h && Step(w, Event.Deliver).now == w.now && Step(w, Event.Deliver).delivered
  {
    hide OutputStep;
  }

  lemma StartIsKept()
    ensures Initial(START) && Bookkeeping(START.h) && AtRest(START.h)
  {
  }

  /** A write of a group whose state is not known, up to its frame; the read before it may fail. */
  lemma WriteAfterRead(w: World, a: Address, c: int, value: Byte, answered: bool) returns (w1: World, w2: World, w3: World, w4: World, id: nat)
    requires Bookkeeping(w.h) && AtRest(w.h) && IsChannel(c) && GroupKeyOf(a, c) !in w.h.knownAt
    ensures Follows(w, Set(a, c, value), w1) && Follows(w1, Event.Pop, w2) && Follows(w2, Event.Coalesced, w3)
    ensures Follows(w3, ReadOver(answered), w4)
    ensures Bookkeeping(w4.h) && Holds(w4.h, id, GroupKeyOf(a, c)) && w4.h.phase.Sending? && |w4.h.phase.frame| == 6
    ensures w4.now == w.now && (answered ==> KnownAt(w4.h, GroupKeyOf(a, c), w.now))
    ensures forall c' :: IsChannel(c') && GroupOf(c') == GroupOf(c) ==>
      View(w4, a, c') == AfterRead(Closed(Moved(View(w, a, c'), if c' == c then Ask(value) else Stay)), answered)
  {
    hide Bookkeeping, View, Moved, AfterRead, Closed, Step;
    var k := GroupKeyOf(a, c);
    ChannelPlace(c);
    w1, w2, id := SetAndPop(w, a, c, value);
    StillIdle(w, a, c, value);
    PhaseFacts(w2.h);
    w3 := Step(w2, Event.Coalesced);
    StepKeepsBookkeeping(w2, Event.Coalesced);
    StageCoalesced(w2, id, k);
    PhaseFacts(w3.h);
    w4 := Step(w3, ReadOver(answered));
    StepKeepsBookkeeping(w3, ReadOver(answered));
    StageRead(w3, id, k, answered);
    forall c' | IsChannel(c') && GroupOf(c') == GroupOf(c)
      ensures View(w4, a, c') == AfterRead(Closed(Moved(View(w, a, c'), if c' == c then Ask(value) else Stay)), answered)
    {
      StepMovesChannel(w2, Event.Coalesced, a, c');
      StepMovesChannel(w3, ReadOver(answered), a, c');
      TwoMoves(View(w2, a, c'), View(w3, a, c'), answered);
    }
  }

  /** A channel of the group when its frame is built behind a read. */
  function AfterRead(closed: Chan, answered: bool): Chan {
    if answered then Built(Applied(closed)) else Built(closed)
  }

  lemma TwoMoves(ch: Chan, closed: Chan, answered: bool)
    ensures Moved(ch, Close) == Closed(ch) && Moved(ch, CloseAndBuild) == Built(Closed(ch))
    ensures Moved(closed, if answered then ApplyAndBuild else Move.Build) == AfterRead(closed, answered)
  {
  }

  /** A write of a group whose state is recent, up to its frame. */
  lemma WriteAtOnce(w: World, a: Address, c: int, value: Byte) returns (w1: World, w2: World, w3: World)
    requires Bookkeeping(w.h) && AtRest(w.h) && IsChannel(c) && KnownAt(w.h, GroupKeyOf(a, c), w.now)
    ensures Follows(w, Set(a, c, value), w1) && Follows(w1, Event.Pop, w2) && Follows(w2, Event.Coalesced, w3)
    ensures BuildsFrame(w2, Event.Coalesced, GroupKeyOf(a, c))
    ensures w2.now == w.now
    ensures w2.outputs == w.outputs
    ensures forall c' :: IsChannel(c') && GroupOf(c') == GroupOf(c) ==>
      View(w3, a, c') == Built(Closed(Moved(View(w, a, c'), if c' == c then Ask(value) else Stay)))
  {
    hide Bookkeeping, View, Moved, Closed, Built, Step;
    var k := GroupKeyOf(a, c);
    var id;
    ChannelPlace(c);
    w1, w2, id := SetAndPop(w, a, c, value);
    PhaseFacts(w2.h);
    w3 := Step(w2, Event.Coalesced);
    StillIdle(w, a, c, value);
    NothingArrives(w, Set(a, c, value));
    NothingArrives(w1, Event.Pop);
    forall c' | IsChannel(c') && GroupOf(c') == GroupOf(c)
      ensures View(w3, a, c') == Built(Closed(Moved(View(w, a, c'), if c' == c then Ask(value) else Stay)))
    {
      StepMovesChannel(w2, Event.Coalesced, a, c');
      TwoMoves(View(w2, a, c'), View(w2, a, c'), true);
    }
  }

  lemma StillIdle(w: World, a: Address, c: int, value: Byte)
    requires w.h.phase == Idle && IsChannel(c)
    ensures Step(w, Set(a, c, value)).h.phase == Idle
  {
    hide PutChannel, Buffer;
  }

  lemma NothingArrives(w: World, e: Event)
    requires Enabled(w, e) && (e.Set? || e.Pop?)
    ensures Step(w, e).outputs == w.outputs
  {
    hide HandlerStep;
  }

  lemma StartView(c: int)
    requires IsChannel(c)
    ensures View(START, 0, c) == Chan(None, None, None, 0, 0)
  {
  }

  lemma FailAfterBuild(w4: World, id: nat) returns (w5: World)
    requires Bookkeeping(w4.h) && Holds(w4.h, id, (0, 1)) && w4.h.phase.Sending? && KnownAt(w4.h, (0, 1), w4.now)
    requires View(w4, 0, 1) == Chan(None, Some(255), Some(255), 255, 0)
    ensures Follows(w4, Event.SetFailed, w5)
    ensures Bookkeeping(w5.h) && AtRest(w5.h) && KnownAt(w5.h, (0, 1), w5.now)
    ensures View(w5, 0, 1) == Chan(None, None, None, 255, 0)
  {
    hide Bookkeeping, View, Step;
    FailingIsEnabled(w4);
    w5 := Step(w4, Event.SetFailed);
    StepKeepsBookkeeping(w4, Event.SetFailed);
    StageOver(w4, Event.SetFailed, id, (0, 1));
    StepMovesChannel(w4, Event.SetFailed, 0, 1);
  }

  /** A failed write is sent again: the buffer keeps the value of channel 1 although its write
      failed, at once and not by a time-out, and a write of channel 2 less than three seconds
      after the last read carries it to the module. No wall key is involved, and no answer but
      the worker's own. */
  lemma FailedWriteIsSentAgain() returns (ws: seq<World>, es: seq<Event>)
    ensures IsRun(ws, es) && |es| == 8 && forall i :: 0 <= i < |es| ==> !es[i].Wall? && !es[i].HostApply? && !es[i].Feedback?
    ensures BuildsFrame(ws[7], es[7], GroupKeyOf(0, 1))
    ensures var ch := View(ws[8], 0, 1); ch.pending.None? && ch.writing.None? && ch.frame == Some(255) && Outputs(ws[7], 0)[0] == 0
  {
    hide Bookkeeping, View, Follows, Initial, IsRun;
    StartIsKept();
    StartView(1);
    var w1, w2, w3, w4, id := WriteAfterRead(START, 0, 1, 255, true);
    var w5 := FailAfterBuild(w4, id);
    var w6, w7, w8 := WriteAtOnce(w5, 0, 2, 255);
    OutputOfView(w5, 0, 1);
    SameOutputs(w5, w7, 0);
    ws := [START, w1, w2, w3, w4, w5, w6, w7, w8];
    es := [Set(0, 1, 255), Event.Pop, Event.Coalesced, ReadAnswered, Event.SetFailed, Set(0, 2, 255), Event.Pop, Event.Coalesced];
    RunOf(ws, es);
  }

  lemma SameOutputs(w: World, w': World, a: Address)
    requires w'.outputs == w.outputs
    ensures Outputs(w', a) == Outputs(w, a)
  {
  }

  lemma FailingIsEnabled(w: World)
    requires w.h.phase.Sending? && BusyWithSet(w.h)
    ensures Enabled(w, Event.SetFailed) && Enabled(w, Event.SetDone) == w.delivered
    ensures (|w.h.phase.frame| == 6 ==> Enabled(w, Event.Deliver))
  {
  }

  lemma QuietEvents(w: World, c: int, value: Byte, ms: nat)
    requires IsChannel(c)
    ensures Enabled(w, Wall(0, c, value)) && Step(w, Wall(0, c, value)).h == w.h
    ensures Step(w, Wall(0, c, value)).now == w.now
    ensures Step(w, Wall(0, c, value)).delivered == w.delivered
    ensures Enabled(w, Tick(ms)) && Step(w, Tick(ms)).h == w.h && Step(w, Tick(ms)).now == w.now + ms
    ensures Step(w, Tick(ms)).delivered == w.delivered
  {
    hide PutChannel;
  }

  /** The frame arrives, a wall key follows, and the acknowledgement comes three seconds later. */
  lemma LateAcknowledgement(w4: World, id: nat) returns (w5: World, w6: World, w7: World, w8: World)
    requires Bookkeeping(w4.h) && Holds(w4.h, id, (0, 1)) && w4.h.phase.Sending? && |w4.h.phase.frame| == 6
    requires View(w4, 0, 2) == Chan(None, None, Some(0), 0, 0)
    ensures Follows(w4, Event.Deliver, w5) && Follows(w5, Wall(0, 2, 255), w6) && Follows(w6, Tick(3001), w7)
    ensures Follows(w7, Event.SetDone, w8)
    ensures Bookkeeping(w8.h) && AtRest(w8.h) && KnownAt(w8.h, (0, 1), w8.now)
    ensures View(w8, 0, 2) == Chan(None, None, None, 0, 255)
    ensures w5.now == w4.now && w8.now == w4.now + 3001
  {
    hide Bookkeeping, View, Step;
    FailingIsEnabled(w4);
    w5 := Step(w4, Event.Deliver);
    StepKeepsBookkeeping(w4, Event.Deliver);
    StageDeliver(w4);
    QuietEvents(w5, 2, 255, 0);
    w6 := Step(w5, Wall(0, 2, 255));
    QuietEvents(w6, 2, 255, 3001);
    w7 := Step(w6, Tick(3001));
    FailingIsEnabled(w7);
    w8 := Step(w7, Event.SetDone);
    StepKeepsBookkeeping(w7, Event.SetDone);
    StageOver(w7, Event.SetDone, id, (0, 1));
    StepMovesChannel(w4, Event.Deliver, 0, 2);
    StepMovesChannel(w5, Wall(0, 2, 255), 0, 2);
    StepMovesChannel(w6, Tick(3001), 0, 2);
    StepMovesChannel(w7, Event.SetDone, 0, 2);
  }

  /** A wall key pressed between a frame's delivery and its acknowledgement is forgotten when
      the acknowledgement makes the group recent: channel 2, switched on at the wall more than
      three seconds ago, is switched off again by the next write of channel 1. Every write
      succeeds, every read answers, and no answer is applied but the worker's own. */
  lemma WallChangeDuringExchangeIsUndone() returns (ws: seq<World>, es: seq<Event>)
    ensures IsRun(ws, es) && |es| == 11
    ensures forall i :: 0 <= i < |es| ==> !es[i].SetFailed? && !es[i].ReadFailed? && !es[i].HostApply? && !es[i].Feedback?
    ensures forall j :: 0 <= j < 10 && es[j].Wall? ==> ws[10].now - ws[j].now > 3000
    ensures BuildsFrame(ws[10], es[10], GroupKeyOf(0, 2))
    ensures var ch := View(ws[11], 0, 2); ch.pending.None? && ch.writing.None? && ch.frame == Some(0) && Outputs(ws[10], 0)[1] == 255
  {
    hide Bookkeeping, View, Follows, Initial, IsRun;
    StartIsKept();
    StartView(2);
    var w1, w2, w3, w4, id := WriteAfterRead(START, 0, 1, 255, true);
    var w5, w6, w7, w8 := LateAcknowledgement(w4, id);
    var w9, w10, w11 := WriteAtOnce(w8, 0, 1, 255);
    OutputOfView(w8, 0, 2);
    SameOutputs(w8, w10, 0);
    ws := [START, w1, w2, w3, w4, w5, w6, w7, w8, w9, w10, w11];
    es := [Set(0, 1, 255), Event.Pop, Event.Coalesced, ReadAnswered, Event.Deliver, Wall(0, 2, 255), Tick(3001), Event.SetDone,
           Set(0, 1, 255), Event.Pop, Event.Coalesced];
    RunOf(ws, es);
  }

  lemma StageApply(w: World, id: nat, k: GroupKey)
    requires Bookkeeping(w.h) && Holds(w.h, id, k) && IsGroup(k.1)
    ensures Holds(Step(w, HostApply(k)).h, id, k) && Step(w, HostApply(k)).h.phase == w.h.phase && Step(w, HostApply(k)).now == w.now
  {
    hide Bookkeeping, Overlay, PutGroup, Buffer, GroupBytes, PendingChannels, WritingChannels, OutputStep;
    assert Step(w, HostApply(k)).h == ApplyGroupState(w.h, k, Answer(w, k), w.now);
  }

  /** The host applies an answer of the group before the frame arrives. */
  lemma CrossedExchange(w4: World, id: nat) returns (w5: World, w6: World, w7: World)
    requires Bookkeeping(w4.h) && Holds(w4.h, id, (0, 1)) && w4.h.phase.Sending? && |w4.h.phase.frame| == 6
    requires View(w4, 0, 2) == Chan(None, None, Some(0), 0, 255)
    ensures Follows(w4, HostApply((0, 1)), w5) && Follows(w5, Event.Deliver, w6) && Follows(w6, Event.SetDone, w7)
    ensures Bookkeeping(w7.h) && AtRest(w7.h) && KnownAt(w7.h, (0, 1), w7.now) && w7.now == w4.now
    ensures View(w7, 0, 2) == Chan(None, None, None, 255, 0)
  {
    hide Bookkeeping, View, Step;
    w5 := Step(w4, HostApply((0, 1)));
    StepKeepsBookkeeping(w4, HostApply((0, 1)));
    StageApply(w4, id, (0, 1));
    FailingIsEnabled(w5);
    w6 := Step(w5, Event.Deliver);
    StepKeepsBookkeeping(w5, Event.Deliver);
    StageDeliver(w5);
    FailingIsEnabled(w6);
    w7 := Step(w6, Event.SetDone);
    StepKeepsBookkeeping(w6, Event.SetDone);
    StageOver(w6, Event.SetDone, id, (0, 1));
    StepMovesChannel(w4, HostApply((0, 1)), 0, 2);
    StepMovesChannel(w5, Event.Deliver, 0, 2);
    StepMovesChannel(w6, Event.SetDone, 0, 2);
  }

  /** Channel 2, switched on at the wall, is switched off by a write of channel 1 whose read
      failed; the host has applied the answer of a read of its own in the meantime, so the buffer
      ends with the wall's value, and the next write switches the channel on again. The wall
      change is more than three seconds old throughout, and every write succeeds. */
  lemma AnswerDuringExchangeIsSentAgain() returns (ws: seq<World>, es: seq<Event>)
    ensures IsRun(ws, es) && |es| == 12 && forall i :: 0 <= i < |es| ==> !es[i].SetFailed?
    ensures forall j :: 0 <= j < 12 && es[j].Wall? ==> ws[11].now - ws[j].now > 3000
    ensures BuildsFrame(ws[11], es[11], GroupKeyOf(0, 2))
    ensures var ch := View(ws[12], 0, 2); ch.pending.None? && ch.writing.None? && ch.frame == Some(255) && Outputs(ws[11], 0)[1] == 0
  {
    hide Bookkeeping, View, Follows, Initial, IsRun;
    StartIsKept();
    StartView(2);
    var w1, w2 := WallAndWait(START);
    var w3, w4, w5, w6, id := WriteAfterRead(w2, 0, 1, 255, false);
    var w7, w8, w9 := CrossedExchange(w6, id);
    var w10, w11, w12 := WriteAtOnce(w9, 0, 1, 255);
    OutputOfView(w9, 0, 2);
    SameOutputs(w9, w11, 0);
    ws := [START, w1, w2, w3, w4, w5, w6, w7, w8, w9, w10, w11, w12];
    es := [Wall(0, 2, 255), Tick(3001), Set(0, 1, 255), Event.Pop, Event.Coalesced, ReadFailed, HostApply((0, 1)), Event.Deliver,
           Event.SetDone, Set(0, 1, 255), Event.Pop, Event.Coalesced];
    RunOf(ws, es);
  }

  lemma WallAndWait(w: World) returns (w1: World, w2: World)
    requires Bookkeeping(w.h) && View(w, 0, 2) == Chan(None, None, None, 0, 0)
    ensures Follows(w, Wall(0, 2, 255), w1) && Follows(w1, Tick(3001), w2)
    ensures w2.h == w.h && w2.now == w.now + 3001 && View(w2, 0, 2) == Chan(None, None, None, 0, 255)
  {
    hide Bookkeeping, View, Step;
    QuietEvents(w, 2, 255, 0);
    w1 := Step(w, Wall(0, 2, 255));
    QuietEvents(w1, 2, 255, 3001);
    w2 := Step(w1, Tick(3001));
    StepMovesChannel(w, Wall(0, 2, 255), 0, 2);
    StepMovesChannel(w1, Tick(3001), 0, 2);
  }

  /** The exchange is over, then a wall key is pressed. */
  lemma WallAfterExchange(w4: World, id: nat) returns (w5: World, w6: World, w7: World)
    requires Bookkeeping(w4.h) && Holds(w4.h, id, (0, 1)) && w4.h.phase.Sending? && |w4.h.phase.frame| == 6
    requires View(w4, 0, 2) == Chan(None, None, Some(0), 0, 0)
    ensures Follows(w4, Event.Deliver, w5) && Follows(w5, Event.SetDone, w6) && Follows(w6, Wall(0, 2, 255), w7)
    ensures Bookkeeping(w7.h) && AtRest(w6.h) && AtRest(w7.h) && KnownAt(w7.h, (0, 1), w7.now)
    ensures View(w7, 0, 2) == Chan(None, None, None, 0, 255)
  {
    hide Bookkeeping, View, Step;
    FailingIsEnabled(w4);
    w5 := Step(w4, Event.Deliver);
    StepKeepsBookkeeping(w4, Event.Deliver);
    StageDeliver(w4);
    FailingIsEnabled(w5);
    w6 := Step(w5, Event.SetDone);
    StepKeepsBookkeeping(w5, Event.SetDone);
    StageOver(w5, Event.SetDone, id, (0, 1));
    QuietEvents(w6, 2, 255, 0);
    w7 := Step(w6, Wall(0, 2, 255));
    StepMovesChannel(w4, Event.Deliver, 0, 2);
    StepMovesChannel(w5, Event.SetDone, 0, 2);
    StepMovesChannel(w6, Wall(0, 2, 255), 0, 2);
  }

  /** Channel 2, switched on at the wall just after an exchange of its group, is switched off by
      the next write of channel 1. Nothing fails and nothing crosses an exchange. */
  lemma RecentWallChangeIsUndone() returns (ws: seq<World>, es: seq<Event>)
    ensures IsRun(ws, es) && |es| == 10
    ensures forall i :: 0 <= i < |es| ==> !es[i].SetFailed? && !es[i].ReadFailed? && !es[i].HostApply? && !es[i].Feedback?
    ensures forall i :: 0 <= i < |es| && es[i].Wall? ==> AtRest(ws[i].h)
    ensures BuildsFrame(ws[9], es[9], GroupKeyOf(0, 2))
    ensures var ch := View(ws[10], 0, 2); ch.pending.None? && ch.writing.None? && ch.frame == Some(0) && Outputs(ws[9], 0)[1] == 255
  {
    hide Bookkeeping, View, Follows, Initial, IsRun;
    StartIsKept();
    StartView(2);
    var w1, w2, w3, w4, id := WriteAfterRead(START, 0, 1, 255, true);
    var w5, w6, w7 := WallAfterExchange(w4, id);
    var w8, w9, w10 := WriteAtOnce(w7, 0, 1, 255);
    OutputOfView(w7, 0, 2);
    SameOutputs(w7, w9, 0);
    ws := [START, w1, w2, w3, w4, w5, w6, w7, w8, w9, w10];
    es := [Set(0, 1, 255), Event.Pop, Event.Coalesced, ReadAnswered, Event.Deliver, Event.SetDone, Wall(0, 2, 255), Set(0, 1, 255),
           Event.Pop, Event.Coalesced];
    RunOf(ws, es);
  }
}
