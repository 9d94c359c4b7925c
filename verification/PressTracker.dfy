/** The presses in flight, one per key address (`press.py`, `PressTracker`). */
module PressTracker {
  import opened Wrappers
  import opened PressState

  /** The press at each address, and every press id handed out so far. */
  datatype Presses = Presses(active: map<nat, Press>, used: set<nat>)

  function Counted(p: Press): Press {
    p.(reported := Reach(p))
  }

  /** A frame starts a press or is counted by the one in flight. */
  function FrameAt(active: map<nat, Press>, address: nat, now: int, id: nat): map<nat, Press> {
    if address in active then active[address := Counted(Frame(active[address], now))]
    else active[address := Counted(Started(address, id, now))]
  }

  /** The press an address and an optional id name. */
  function Named(active: map<nat, Press>, address: nat, id: Option<nat>): Option<Press> {
    if address in active && (id.Some? ==> active[address].id == id.value) then Some(active[address]) else None
  }

  function Due(active: map<nat, Press>, address: nat, id: Option<nat>, now: int): Option<Press> {
    match Named(active, address, id)
    case None => None
    case Some(p) => if PressState.ReleaseDue(p, now) then Some(p) else None
  }

  function EndAt(active: map<nat, Press>, address: nat, id: Option<nat>): map<nat, Press> {
    if Named(active, address, id).Some? then active - {address} else active
  }

  lemma OneChanged(before: map<nat, Press>, after: map<nat, Press>, address: nat, p: Press)
    requires after.Keys == before.Keys + {address} && after[address] == p
    requires forall a :: a in before && a != address ==> after[a] == before[a]
    ensures after == before[address := p]
  {
    assert forall a :: a in after <==> a in before[address := p];
    assert forall a :: a in after ==> after[a] == before[address := p][a];
  }

  class PressTracker {
    var states: map<nat, PressObject>

    constructor ()
      ensures Valid() && Active() == map[]
    {
      states := map[];
    }

    ghost predicate Valid()
      reads this, states.Values
    {
      && (forall a :: a in states ==> states[a].address == a)
    }

    ghost function Active(): map<nat, Press>
      reads this, states.Values
    {
      map a | a in states :: states[a].Value()
    }

    /** A first frame starts a press. */
    method StartPress(address: nat, now: int, id: nat) returns (state: PressObject, crossed: seq<nat>)
      requires Valid() && address !in states
      modifies this
      ensures Valid() && Active() == old(Active())[address := Counted(Started(address, id, now))]
      ensures fresh(state) && address in states && state == states[address]
      ensures crossed == Milestones(0, Bucket(CADENCE))
    {
      hide Bucket, Milestones, Reach;
      state := new PressObject(address, id, now);
      crossed := state.TimersCrossed();
      states := states[address := state];
      OneChanged(old(Active()), Active(), address, state.Value());
    }

    /** A further frame is counted by the press in flight. */
    method CountPress(address: nat, now: int) returns (state: PressObject, crossed: seq<nat>)
      requires Valid() && address in states
      modifies states.Values
      ensures Valid() && states == old(states)
      ensures Active() == old(Active())[address := Counted(Frame(old(Active())[address], now))]
      ensures state == states[address]
      ensures crossed == Milestones(old(Active())[address].reported, Bucket(Duration(Frame(old(Active())[address], now))))
    {
      hide Bucket, Milestones, Frame, Reach;
      state := states[address];
      state.CountFrame(now);
      crossed := state.TimersCrossed();
      OneChanged(old(Active()), Active(), address, state.Value());
    }

    /** Account for one `#N` frame; `id` names a press it starts. */
    method FrameSeen(address: nat, now: int, id: nat) returns (state: PressObject, first: bool, crossed: seq<nat>)
      requires Valid()
      modifies this, states.Values
      ensures Valid() && Active() == FrameAt(old(Active()), address, now, id)
      ensures first == (address !in old(states)) && address in states && state == states[address]
      ensures first ==> fresh(state) && crossed == Milestones(0, Bucket(CADENCE))
      ensures !first ==> state == old(states)[address]
      ensures !first ==>
        crossed == Milestones(old(Active())[address].reported, Bucket(Duration(Frame(old(Active())[address], now))))
    {
      hide Bucket, Milestones, Frame, Counted, Started;
      first := address !in states;
      if first {
        state, crossed := StartPress(address, now, id);
      } else {
        state, crossed := CountPress(address, now);
      }
    }

    /** `release_due`: the press whose silence has outlasted its patience, if it is the one named. */
    method ReleaseDue(address: nat, pressId: Option<nat>, now: int) returns (state: Option<PressObject>)
      requires Valid()
      ensures state.Some? == Due(Active(), address, pressId, now).Some?
      ensures state.Some? ==>
        address in states && state.value == states[address] && state.value.Value() == Due(Active(), address, pressId, now).value
    {
      if address !in states || (pressId.Some? && states[address].pressId != pressId.value) {
        return None;
      }
      if now - states[address].lastFrameAt >= states[address].releaseThresholdMs {
        return Some(states[address]);
      }
      return None;
    }

    /** `end`: forget the press, if it is the one named. */
    method End(address: nat, pressId: Option<nat>) returns (state: Option<PressObject>)
      requires Valid()
      modifies this
      ensures Valid() && Active() == EndAt(old(Active()), address, pressId)
      ensures state.Some? == Named(old(Active()), address, pressId).Some?
      ensures state.Some? ==> address in old(states) && state.value == old(states)[address]
    {
      if address !in states || (pressId.Some? && states[address].pressId != pressId.value) {
        return None;
      }
      state := Some(states[address]);
      states := states - {address};
    }

    /** `clear`: forget every press. */
    method Clear() returns (ended: set<PressObject>)
      requires Valid()
      modifies this
      ensures Valid() && Active() == map[] && ended == old(states).Values
    {
      ended := states.Values;
      states := map[];
    }
  }

  // ---- whole runs ------------------------------------------------------------------------------------

  datatype Event = KeyFrame(address: nat, now: int, id: nat) | Ended(address: nat, who: Option<nat>) | Cleared

  /** A press is named once. */
  predicate Enabled(s: Presses, e: Event) {
    e.KeyFrame? && e.address !in s.active ==> e.id !in s.used
  }

  function Step(s: Presses, e: Event): Presses {
    match e
    case KeyFrame(a, now, id) => Presses(FrameAt(s.active, a, now, id), if a in s.active then s.used else s.used + {id})
    case Ended(a, id) => s.(active := EndAt(s.active, a, id))
    case Cleared => s.(active := map[])
  }

  ghost predicate IsRun(ss: seq<Presses>, es: seq<Event>) {
    && |ss| == |es| + 1 && ss[0] == Presses(map[], {})
    && forall i :: 0 <= i < |es| ==> Enabled(ss[i], es[i]) && ss[i + 1] == Step(ss[i], es[i])
  }

  /** Each press in flight has an id of its own, handed out before, and its own address. */
  ghost predicate IdsApart(s: Presses) {
    && (forall a :: a in s.active ==> s.active[a].id in s.used && s.active[a].address == a)
    && (forall a, b :: a in s.active && b in s.active && s.active[a].id == s.active[b].id ==> a == b)
  }

  lemma {:induction false} RunKeepsIdsApart(ss: seq<Presses>, es: seq<Event>, n: nat)
    requires IsRun(ss, es) && n <= |es|
    ensures IdsApart(ss[n])
  {
    if n > 0 {
      hide Patience, Push, Reach;
      RunKeepsIdsApart(ss, es, n - 1);
      assert ss[n] == Step(ss[n - 1], es[n - 1]);
    }
  }

  /** No press in flight goes by this id. */
  ghost predicate Gone(s: Presses, id: nat) {
    id in s.used && forall a :: a in s.active ==> s.active[a].id != id
  }

  lemma {:induction false} GoneForGood(ss: seq<Presses>, es: seq<Event>, m: nat, n: nat, id: nat)
    requires IsRun(ss, es) && m <= n <= |es| && Gone(ss[m], id)
    ensures Gone(ss[n], id)
    decreases n - m
  {
    if m < n {
      hide Patience, Push, Reach;
      GoneForGood(ss, es, m, n - 1, id);
      assert ss[n] == Step(ss[n - 1], es[n - 1]);
    }
  }

  /** A watcher holding the id of a press that is over never claims or ends a later one, at any
      address: from the moment no press at the key's address goes by that id, asking for it finds
      nothing and ending it changes nothing. */
  lemma OldIdClaimsNothing(ss: seq<Presses>, es: seq<Event>, i: nat, m: nat, n: nat, address: nat, id: nat)
    requires IsRun(ss, es) && i <= m <= n <= |es|
    requires Named(ss[i].active, address, Some(id)).Some? && Named(ss[m].active, address, Some(id)).None?
    ensures forall a, now :: Due(ss[n].active, a, Some(id), now).None?
    ensures forall a :: EndAt(ss[n].active, a, Some(id)) == ss[n].active
  {
    RunKeepsIdsApart(ss, es, i);
    StaysAtItsAddress(ss, es, i, m, address, id);
    GoneForGood(ss, es, m, n, id);
  }

  lemma {:induction false} StaysAtItsAddress(ss: seq<Presses>, es: seq<Event>, i: nat, m: nat, address: nat, id: nat)
    requires IsRun(ss, es) && i <= m <= |es| && Named(ss[i].active, address, Some(id)).Some?
    ensures id in ss[m].used && forall a :: a in ss[m].active && ss[m].active[a].id == id ==> a == address
    decreases m - i
  {
    RunKeepsIdsApart(ss, es, m);
    if m > i {
      hide Patience, Push, Reach;
      StaysAtItsAddress(ss, es, i, m - 1, address, id);
      assert ss[m] == Step(ss[m - 1], es[m - 1]);
    }
  }

  // ---- what a watcher finds ----------------------------------------------------------------------

  /** The event ends the press that goes by this id at its address. */
  predicate Ends(e: Event, address: nat, id: nat) {
    e.Cleared? || (e.Ended? && e.address == address && (e.who.None? || e.who.value == id))
  }

  ghost predicate NeverEnded(es: seq<Event>, i: nat, n: nat, address: nat, id: nat)
    requires n <= |es|
  {
    forall k :: i < k < n ==> !Ends(es[k], address, id)
  }

  /** The times of the frames at an address among the events `i` to `n`. */
  function TimesAt(es: seq<Event>, i: nat, n: nat, address: nat): seq<int>
    requires i <= n <= |es|
    decreases n - i
  {
    if i == n then []
    else TimesAt(es, i, n - 1, address) + if es[n - 1].KeyFrame? && es[n - 1].address == address then [es[n - 1].now] else []
  }

  /** One event more, of a press still in flight. */
  lemma StillInFlight(s: Presses, e: Event, address: nat, id: nat, ts: seq<int>)
    requires ts != [] && address in s.active && s.active[address] == After(address, id, ts) && s.active[address].id == id
    requires !Ends(e, address, id)
    ensures var more := ts + if e.KeyFrame? && e.address == address then [e.now] else [];
      address in Step(s, e).active && Step(s, e).active[address] == After(address, id, more)
  {
    hide Frame, Reach;
    if e.KeyFrame? && e.address == address {
      assert (ts + [e.now])[..|ts|] == ts;
    } else {
      assert ts + [] == ts;
    }
  }

  lemma {:induction false} PressUntilEnded(ss: seq<Presses>, es: seq<Event>, i: nat, n: nat, address: nat, id: nat)
    requires IsRun(ss, es) && i < n <= |es| && address !in ss[i].active
    requires es[i].KeyFrame? && es[i].address == address && es[i].id == id
    ensures var ts := TimesAt(es, i, n, address);
      && ts != []
      && Named(ss[n].active, address, Some(id)) == (if NeverEnded(es, i, n, address, id) then Some(After(address, id, ts)) else None)
    decreases n - i
  {
    hide After, Step;
    assert Enabled(ss[n - 1], es[n - 1]) && ss[n] == Step(ss[n - 1], es[n - 1]);
    var ts := TimesAt(es, i, n, address);
    if n == i + 1 {
      PressStarts(ss[i], address, es[i].now, id);
      assert TimesAt(es, i, i, address) == [] && ts == [es[i].now];
    } else {
      PressUntilEnded(ss, es, i, n - 1, address, id);
      var before := TimesAt(es, i, n - 1, address);
      FramesCounted(address, id, before);
      if !NeverEnded(es, i, n - 1, address, id) {
        PressUntilEnded(ss, es, i, i + 1, address, id);
        StaysAtItsAddress(ss, es, i + 1, n - 1, address, id);
        StaysGone(ss[n - 1], es[n - 1], address, id);
      } else if Ends(es[n - 1], address, id) {
        EndedIsGone(ss[n - 1], es[n - 1], address, id);
      } else {
        StillInFlight(ss[n - 1], es[n - 1], address, id, before);
        FramesCounted(address, id, ts);
      }
    }
  }

  /** A watcher finds the press its key started until the press is ended under its id, under no
      id, or with all others, and not after; while it does, the press is the one of exactly the
      frames seen at the key's address since, and it is due once the silence after the last of
      them has lasted that press's patience. */
  lemma WatcherFindsItsPress(ss: seq<Presses>, es: seq<Event>, i: nat, n: nat, address: nat, id: nat)
    requires IsRun(ss, es) && i < n <= |es| && address !in ss[i].active
    requires es[i].KeyFrame? && es[i].address == address && es[i].id == id
    ensures var ts := TimesAt(es, i, n, address);
      && ts != []
      && Named(ss[n].active, address, Some(id)) == (if NeverEnded(es, i, n, address, id) then Some(After(address, id, ts)) else None)
      && (forall now :: Due(ss[n].active, address, Some(id), now).Some? <==>
            NeverEnded(es, i, n, address, id) && now - ts[|ts| - 1] >= After(address, id, ts).patience)
  {
    hide After, IsRun, Named, NeverEnded, TimesAt;
    PressUntilEnded(ss, es, i, n, address, id);
    FramesCounted(address, id, TimesAt(es, i, n, address));
  }

  lemma PressStarts(s: Presses, address: nat, now: int, id: nat)
    requires address !in s.active
    ensures Named(Step(s, KeyFrame(address, now, id)).active, address, Some(id)) == Some(After(address, id, [now]))
  {
  }

  lemma EndedIsGone(s: Presses, e: Event, address: nat, id: nat)
    requires Ends(e, address, id)
    ensures Named(Step(s, e).active, address, Some(id)).None?
  {
  }

  lemma StaysGone(s: Presses, e: Event, address: nat, id: nat)
    requires Named(s.active, address, Some(id)).None? && id in s.used && Enabled(s, e)
    ensures Named(Step(s, e).active, address, Some(id)).None?
  {
    hide Reach, Patience, Push;
  }
}
