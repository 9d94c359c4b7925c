/** One key press as its frames show it (`press.py`), in milliseconds of wire time. */
module PressState {
  const CADENCE: nat := 40
  const RELEASE: int := 300
  const MAX_RELEASE: int := 5000
  const BURST_GAP: int := 5
  const WINDOW: nat := 4
  const BURST_COUNT: nat := 3
  const MAX_BUCKET: nat := 3

  datatype Press = Press(
    address: nat, id: nat, startedAt: int, lastFrameAt: int,
    frames: nat, reported: nat, gaps: seq<int>, patience: int)

  function Started(address: nat, id: nat, now: int): Press {
    Press(address, id, now, now, 1, 0, [], RELEASE)
  }

  function Duration(p: Press): nat {
    p.frames * CADENCE
  }

  /** `press_bucket` */
  function Bucket(duration: nat): nat {
    if duration / 1000 <= MAX_BUCKET then duration / 1000 else MAX_BUCKET
  }

  function ReleaseDue(p: Press, now: int): bool {
    now - p.lastFrameAt >= p.patience
  }

  /** The deque of the last gaps. */
  function Push(gaps: seq<int>, gap: int): seq<int> {
    if |gaps| < WINDOW then gaps + [gap] else gaps[1..] + [gap]
  }

  function Bursts(gaps: seq<int>): nat {
    if gaps == [] then 0 else Bursts(gaps[..|gaps| - 1]) + if gaps[|gaps| - 1] < BURST_GAP then 1 else 0
  }

  function Patience(p: Press): int {
    if Bursts(p.gaps) >= BURST_COUNT then
      var implied := if p.patience >= Duration(p) then p.patience else Duration(p);
      if implied <= MAX_RELEASE then implied else MAX_RELEASE
    else if Bursts(p.gaps) == 0 && |p.gaps| >= WINDOW then RELEASE
    else p.patience
  }

  /** A further frame: counted, its gap recorded, the patience adjusted. */
  function Frame(p: Press, now: int): Press {
    var q := p.(gaps := Push(p.gaps, now - p.lastFrameAt), lastFrameAt := now, frames := p.frames + 1);
    q.(patience := Patience(q))
  }

  /** The milestones after `from` up to `last`, in order. */
  function Milestones(from: nat, last: nat): (ms: seq<nat>)
    ensures from <= last ==> |ms| == last - from && forall i :: 0 <= i < |ms| ==> ms[i] == from + 1 + i
    ensures from >= last ==> ms == []
    decreases last
  {
    if from >= last then [] else Milestones(from, last - 1) + [last]
  }

  function Reach(p: Press): nat {
    if p.reported >= Bucket(Duration(p)) then p.reported else Bucket(Duration(p))
  }

  class PressObject {
    const address: nat
    const pressId: nat
    const startedAt: int
    var lastFrameAt: int
    var frameCount: nat
    var lastTimerThreshold: nat
    var recentGaps: seq<int>
    var releaseThresholdMs: int

    constructor (a: nat, id: nat, now: int)
      ensures Value() == Started(a, id, now)
    {
      address, pressId, startedAt, lastFrameAt := a, id, now, now;
      frameCount, lastTimerThreshold, recentGaps, releaseThresholdMs := 1, 0, [], RELEASE;
    }

    function Value(): Press
      reads this
    {
      Press(address, pressId, startedAt, lastFrameAt, frameCount, lastTimerThreshold, recentGaps, releaseThresholdMs)
    }

    /** `update_release_threshold` */
    method UpdateReleaseThreshold()
      modifies this`releaseThresholdMs
      ensures Value() == old(Value()).(patience := Patience(old(Value())))
    {
      var burstGaps := 0;
      for i := 0 to |recentGaps|
        invariant burstGaps == Bursts(recentGaps[..i])
      {
        assert recentGaps[..i + 1][..i] == recentGaps[..i];
        if recentGaps[i] < BURST_GAP {
          burstGaps := burstGaps + 1;
        }
      }
      assert recentGaps[..|recentGaps|] == recentGaps;
      if burstGaps >= BURST_COUNT {
        var impliedStall := frameCount * CADENCE;
        var longer := if releaseThresholdMs >= impliedStall then releaseThresholdMs else impliedStall;
        releaseThresholdMs := if longer <= MAX_RELEASE then longer else MAX_RELEASE;
      } else if burstGaps == 0 && |recentGaps| >= WINDOW {
        releaseThresholdMs := RELEASE;
      }
    }

    /** What one frame after the first does to a press in flight. */
    method CountFrame(now: int)
      modifies this`recentGaps, this`lastFrameAt, this`frameCount, this`releaseThresholdMs
      ensures Value() == Frame(old(Value()), now)
    {
      hide Patience;
      var gap := now - lastFrameAt;
      recentGaps := if |recentGaps| < WINDOW then recentGaps + [gap] else recentGaps[1..] + [gap];
      lastFrameAt := now;
      frameCount := frameCount + 1;
      UpdateReleaseThreshold();
    }

    /** `timers_crossed`: the hold milestones just reached, each once. */
    method TimersCrossed() returns (crossed: seq<nat>)
      modifies this`lastTimerThreshold
      ensures crossed == Milestones(old(Value()).reported, Bucket(Duration(old(Value()))))
      ensures Value() == old(Value()).(reported := Reach(old(Value())))
    {
      crossed := [];
      var elapsed := frameCount * CADENCE;
      ghost var reached := Bucket(elapsed);
      for threshold := 1 to 4
        invariant crossed == Milestones(old(lastTimerThreshold), Least(threshold - 1, reached))
        invariant lastTimerThreshold == Most(old(lastTimerThreshold), Least(threshold - 1, reached))
      {
        if lastTimerThreshold >= threshold || elapsed < 1000 * threshold {
          continue;
        }
        lastTimerThreshold := threshold;
        crossed := crossed + [threshold];
      }
    }
  }

  function Least(a: nat, b: nat): nat {
    if a <= b then a else b
  }

  function Most(a: nat, b: nat): nat {
    if a >= b then a else b
  }

  // ---- whole presses -----------------------------------------------------------------------------

  /** The press after its frames at the times `ts`, the milestones of each having been taken. */
  function After(address: nat, id: nat, ts: seq<int>): (p: Press)
    requires ts != []
  {
    if |ts| == 1 then
      var p := Started(address, id, ts[0]);
      p.(reported := Reach(p))
    else
      var p := Frame(After(address, id, ts[..|ts| - 1]), ts[|ts| - 1]);
      p.(reported := Reach(p))
  }

  /** The milestones reported with the last of those frames. */
  function ReportedWithLast(address: nat, id: nat, ts: seq<int>): seq<nat>
    requires ts != []
  {
    var p := if |ts| == 1 then Started(address, id, ts[0]) else Frame(After(address, id, ts[..|ts| - 1]), ts[|ts| - 1]);
    Milestones(p.reported, Bucket(Duration(p)))
  }

  function AllReported(address: nat, id: nat, ts: seq<int>): seq<nat> {
    if ts == [] then [] else AllReported(address, id, ts[..|ts| - 1]) + ReportedWithLast(address, id, ts)
  }

  lemma {:induction false} FramesCounted(address: nat, id: nat, ts: seq<int>)
    requires ts != []
    ensures var p := After(address, id, ts);
      p.frames == |ts| && p.reported == Bucket(|ts| * CADENCE) && p.address == address && p.id == id && p.startedAt == ts[0] && p.lastFrameAt == ts[|ts| - 1]
    decreases |ts|
  {
    if |ts| > 1 {
      FramesCounted(address, id, ts[..|ts| - 1]);
    }
  }

  lemma MilestonesJoin(a: nat, b: nat, c: nat)
    requires a <= b <= c
    ensures Milestones(a, b) + Milestones(b, c) == Milestones(a, c)
  {
  }

  /** However the frames of a press arrive, the milestones reported so far are exactly 1 to its
      bucket, in order and once each. */
  lemma {:induction false} MilestonesOnceInOrder(address: nat, id: nat, ts: seq<int>)
    ensures AllReported(address, id, ts) == Milestones(0, Bucket(|ts| * CADENCE))
    decreases |ts|
  {
    if |ts| > 0 {
      var before := ts[..|ts| - 1];
      MilestonesOnceInOrder(address, id, before);
      if before != [] {
        FramesCounted(address, id, before);
      }
      MilestonesJoin(0, Bucket(|before| * CADENCE), Bucket(|ts| * CADENCE));
    }
  }

  lemma {:induction false} BurstsBound(gaps: seq<int>)
    ensures Bursts(gaps) <= |gaps|
    ensures Bursts(gaps) == 0 <==> forall i :: 0 <= i < |gaps| ==> gaps[i] >= BURST_GAP
    decreases |gaps|
  {
    if gaps != [] {
      BurstsBound(gaps[..|gaps| - 1]);
      assert gaps == gaps[..|gaps| - 1] + [gaps[|gaps| - 1]];
    }
  }

  /** The gap recorded with frame `i`. */
  function Gap(ts: seq<int>, i: nat): int
    requires 1 <= i < |ts|
  {
    ts[i] - ts[i - 1]
  }

  /** The last gaps of a press, at most a window of them. */
  function LastGaps(ts: seq<int>): (gaps: seq<int>)
    requires ts != []
  {
    var n := Least(|ts| - 1, WINDOW);
    seq(n, i requires 0 <= i < n => Gap(ts, |ts| - n + i))
  }

  lemma PushIsLast(ts: seq<int>)
    requires |ts| > 1
    ensures Push(LastGaps(ts[..|ts| - 1]), Gap(ts, |ts| - 1)) == LastGaps(ts)
  {
    var before := ts[..|ts| - 1];
    var earlier, later := LastGaps(before), LastGaps(ts);
    GapsBefore(ts);
    var pushed := Push(earlier, Gap(ts, |ts| - 1));
    hide Gap;
    assert |pushed| == |later|;
    forall i | 0 <= i < |pushed| ensures pushed[i] == later[i] {
      if |earlier| < WINDOW {
        assert later[i] == Gap(ts, 1 + i);
      } else {
        assert later[i] == Gap(ts, |ts| - WINDOW + i);
      }
    }
  }

  lemma GapsBefore(ts: seq<int>)
    requires |ts| > 1
    ensures forall i :: 1 <= i < |ts| - 1 ==> Gap(ts[..|ts| - 1], i) == Gap(ts, i)
  {
  }

  lemma AfterOneMore(address: nat, id: nat, ts: seq<int>)
    requires |ts| > 1
    ensures var p, q := After(address, id, ts[..|ts| - 1]), After(address, id, ts);
      q.gaps == Push(p.gaps, ts[|ts| - 1] - p.lastFrameAt) && q.patience == Patience(p.(gaps := q.gaps, lastFrameAt := ts[|ts| - 1], frames := p.frames + 1))
  {
    hide Patience, Push, Reach;
  }

  lemma {:induction false} GapsAreLast(address: nat, id: nat, ts: seq<int>)
    requires ts != []
    ensures After(address, id, ts).gaps == LastGaps(ts)
    decreases |ts|
  {
    hide Push, Frame, Reach;
    if |ts| > 1 {
      var before := ts[..|ts| - 1];
      GapsAreLast(address, id, before);
      FramesCounted(address, id, before);
      AfterOneMore(address, id, ts);
      PushIsLast(ts);
    }
  }

  /** The patience stays between the baseline and the cap. */
  lemma {:induction false} PatienceWithinBounds(address: nat, id: nat, ts: seq<int>)
    requires ts != []
    ensures 300 <= After(address, id, ts).patience <= 5000
    decreases |ts|
  {
    if |ts| > 1 {
      hide Bursts;
      PatienceWithinBounds(address, id, ts[..|ts| - 1]);
    }
  }

  /** A frame shortens the patience only when the last four gaps were all ordinary, and
      lengthens it only when at least three of the recent ones came out of a buffer. */
  lemma PatienceDropsOnHealthyLink(address: nat, id: nat, ts: seq<int>)
    requires |ts| > 1
    ensures var before, now := After(address, id, ts[..|ts| - 1]).patience, After(address, id, ts).patience;
      && (now < before ==> now == 300 && |ts| > 4 && forall i :: |ts| - 4 <= i < |ts| ==> Gap(ts, i) >= 5)
      && (now > before ==> Bursts(After(address, id, ts).gaps) >= 3)
  {
    hide After, Bursts, Reach, Duration;
    PatienceWithinBounds(address, id, ts[..|ts| - 1]);
    AfterOneMore(address, id, ts);
    GapsAreLast(address, id, ts);
    var gaps := LastGaps(ts);
    BurstsBound(gaps);
    assert |gaps| == WINDOW ==> forall i :: |ts| - WINDOW <= i < |ts| ==> gaps[i - (|ts| - WINDOW)] == Gap(ts, i);
  }

  /** The frames from `from` on that came less than 5 ms after the one before. */
  function Hurried(ts: seq<int>, from: nat): nat
    requires 1 <= from <= |ts|
    decreases |ts|
  {
    if from == |ts| then 0 else Hurried(ts[..|ts| - 1], from) + if Gap(ts, |ts| - 1) < 5 then 1 else 0
  }

  lemma {:induction false} BurstsAreHurried(ts: seq<int>, gaps: seq<int>, from: nat)
    requires 1 <= from <= |ts| && |gaps| == |ts| - from
    requires forall i :: 0 <= i < |gaps| ==> gaps[i] == Gap(ts, from + i)
    ensures Bursts(gaps) == Hurried(ts, from)
    decreases |ts|
  {
    if from < |ts| {
      var before, fewer := ts[..|ts| - 1], gaps[..|gaps| - 1];
      assert forall i :: 0 <= i < |fewer| ==> fewer[i] == Gap(before, from + i);
      BurstsAreHurried(before, fewer, from);
    }
  }

  /** The patience of a press after its frames: 300 ms at first; with a frame that makes three of the
      last four gaps hurried it grows to the 40 ms the press's frames stand for each, but never past
      5000 ms; with four gaps none of which is hurried it is 300 ms again; otherwise it stays. */
  lemma PatienceExactly(address: nat, id: nat, ts: seq<int>)
    requires ts != []
    ensures |ts| == 1 ==> After(address, id, ts).patience == 300
    ensures |ts| > 1 ==>
      var before, now := After(address, id, ts[..|ts| - 1]).patience, After(address, id, ts).patience;
      var hurried := Hurried(ts, if |ts| > 4 then |ts| - 4 else 1);
      now == if hurried >= 3 then (if before > 40 * |ts| then before else if 40 * |ts| > 5000 then 5000 else 40 * |ts|)
             else if hurried == 0 && |ts| > 4 then 300 else before
  {
    if |ts| == 1 {
      FirstPatience(address, id, ts);
    } else {
      hide After, Bursts, Reach, Gap, Patience, LastGaps, Push;
      var from := if |ts| > 4 then |ts| - 4 else 1;
      var p := After(address, id, ts[..|ts| - 1]);
      PatienceWithinBounds(address, id, ts[..|ts| - 1]);
      FramesCounted(address, id, ts[..|ts| - 1]);
      AfterOneMore(address, id, ts);
      GapsAreLast(address, id, ts);
      LastGapsAre(ts);
      BurstsAreHurried(ts, LastGaps(ts), from);
      PatienceRule(p.(gaps := LastGaps(ts), lastFrameAt := ts[|ts| - 1], frames := p.frames + 1));
    }
  }

  lemma FirstPatience(address: nat, id: nat, ts: seq<int>)
    requires |ts| == 1
    ensures After(address, id, ts).patience == 300
  {
  }

  lemma LastGapsAre(ts: seq<int>)
    requires |ts| > 1
    ensures var from := if |ts| > 4 then |ts| - 4 else 1;
      |LastGaps(ts)| == |ts| - from && forall i :: 0 <= i < |LastGaps(ts)| ==> LastGaps(ts)[i] == Gap(ts, from + i)
  {
    hide Gap;
  }

  lemma PatienceRule(p: Press)
    requires p.patience <= 5000
    ensures Patience(p) ==
      if Bursts(p.gaps) >= 3 then (if p.patience > 40 * p.frames then p.patience else if 40 * p.frames > 5000 then 5000 else 40 * p.frames)
      else if Bursts(p.gaps) == 0 && |p.gaps| >= 4 then 300 else p.patience
  {
    hide Bursts;
  }

  /** A hold milestone is reported with the frame whose 40 ms complete its second, and with no
      other; there are three. */
  lemma MilestoneAtItsSecond(address: nat, id: nat, ts: seq<int>, m: nat)
    requires ts != []
    ensures m in ReportedWithLast(address, id, ts) <==> 1 <= m <= 3 && 40 * (|ts| - 1) < 1000 * m <= 40 * |ts|
  {
    if |ts| > 1 {
      FramesCounted(address, id, ts[..|ts| - 1]);
    }
    hide After;
    var p := if |ts| == 1 then Started(address, id, ts[0]) else Frame(After(address, id, ts[..|ts| - 1]), ts[|ts| - 1]);
    InMilestones(p.reported, Bucket(Duration(p)), m);
    assert p.frames == |ts|;
  }

  lemma InMilestones(from: nat, last: nat, m: nat)
    ensures m in Milestones(from, last) <==> from < m <= last
  {
    var ms := Milestones(from, last);
    if from < m <= last {
      assert ms[m - from - 1] == m;
    }
  }
}
