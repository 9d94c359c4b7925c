/** Which message a waiting exchange takes for its answer (`command.py`,
    `_wait_for_ack_and_answer_state`). The wait ends at the end of the sequence: a time-out. */
module AnswerWait {
  import opened Wrappers
  import opened Hex
  import opened Framing

  /** A message, and whether the listener last saw the module's other group queried. */
  datatype Message = Message(text: string, otherGroup: bool)

  datatype Wait = Wait(ack: string, answer: string, raw: bool, useHeld: bool)

  predicate StartsWith(text: string, prefix: string) {
    |prefix| <= |text| && text[..|prefix|] == prefix
  }

  predicate At(text: string, part: string, i: nat) {
    i + |part| <= |text| && text[i..i + |part|] == part
  }

  function Find(text: string, part: string): (i: Option<nat>)
    ensures i.Some? ==> At(text, part, i.value) && forall j: nat :: j < i.value ==> !At(text, part, j)
    ensures i.None? ==> forall j: nat :: !At(text, part, j)
  {
    FindFrom(text, part, 0)
  }

  function FindFrom(text: string, part: string, from: nat): (i: Option<nat>)
    ensures i.Some? ==> from <= i.value && At(text, part, i.value) && forall j: nat :: from <= j < i.value ==> !At(text, part, j)
    ensures i.None? ==> forall j: nat :: from <= j ==> !At(text, part, j)
    decreases |text| + 1 - from
  {
    if from + |part| > |text| then None
    else if At(text, part, from) then Some(from)
    else FindFrom(text, part, from + 1)
  }

  predicate Contains(text: string, part: string) {
    Find(text, part).Some?
  }

  /** `_parse_state_from_message`: the twelve digits behind the answer's echo and status byte. */
  function ParseState(text: string, answer: string): (state: string)
    ensures state == "" || |state| == 12
  {
    match Find(text, answer)
    case None => ""
    case Some(i) =>
      var state := Slice(text, i + |answer| + 2, i + |answer| + 14);
      if |state| < 12 then "" else state
  }

  /** A module's state frame parses to the digits it carries. */
  lemma StateFrameParses(answer: string, status: string, digits: string, rest: string)
    requires |status| == 2 && |digits| == 12
    ensures ParseState(answer + status + digits + rest, answer) == digits
  {
    var text := answer + status + digits + rest;
    assert text[0..0 + |answer|] == answer;
    SliceIs(text, |answer| + 2, |answer| + 14);
    assert text[|answer| + 2..|answer| + 14] == digits;
  }

  /** The reply of a get command carries output state; others are taken whenever they come. */
  predicate ReadsState(w: Wait) {
    StartsWith(w.answer, "$1C") && !StartsWith(w.answer, "$1CFF") && !w.raw
  }

  predicate SetAck(w: Wait) {
    StartsWith(w.answer, "$0EFF")
  }

  /** An answer the wait can take: any for a set command or a raw query, a full-length one else. */
  predicate Usable(w: Wait, m: Message) {
    Contains(m.text, w.answer) && (SetAck(w) || w.raw || |m.text| >= |w.answer| + 14)
  }

  /** An answer that can stand in while the ack is still to come. */
  predicate Holdable(w: Wait, m: Message) {
    Contains(m.text, w.answer) && !m.otherGroup
  }

  function Value(w: Wait, m: Message): string {
    if SetAck(w) then "" else if w.raw then ToHex(ReplyPayload(m.text)) else ParseState(m.text, w.answer)
  }

  // ---- what the wait should return ---------------------------------------------------------------

  /** The first message from `from` on that is an ack. */
  function FirstAck(w: Wait, ms: seq<Message>, from: nat): (i: nat)
    requires from <= |ms|
    ensures from <= i <= |ms| && (i < |ms| ==> Contains(ms[i].text, w.ack)) && forall j :: from <= j < i ==> !Contains(ms[j].text, w.ack)
    decreases |ms| - from
  {
    if from == |ms| || Contains(ms[from].text, w.ack) then from else FirstAck(w, ms, from + 1)
  }

  function FirstUsable(w: Wait, ms: seq<Message>, from: nat): (i: nat)
    requires from <= |ms|
    ensures from <= i <= |ms| && (i < |ms| ==> Usable(w, ms[i])) && forall j :: from <= j < i ==> !Usable(w, ms[j])
    decreases |ms| - from
  {
    if from == |ms| || Usable(w, ms[from]) then from else FirstUsable(w, ms, from + 1)
  }

  /** The last answer among the first `n` messages. */
  function LastUsable(w: Wait, ms: seq<Message>, n: nat): (i: Option<nat>)
    requires n <= |ms|
    ensures i.Some? ==> i.value < n && Usable(w, ms[i.value]) && forall j :: i.value < j < n ==> !Usable(w, ms[j])
    ensures i.None? ==> forall j :: 0 <= j < n ==> !Usable(w, ms[j])
  {
    if n == 0 then None else if Usable(w, ms[n - 1]) then Some(n - 1) else LastUsable(w, ms, n - 1)
  }

  function LastHoldable(w: Wait, ms: seq<Message>, n: nat): (i: Option<nat>)
    requires n <= |ms|
    ensures i.Some? ==> i.value < n && Holdable(w, ms[i.value]) && forall j :: i.value < j < n ==> !Holdable(w, ms[j])
    ensures i.None? ==> forall j :: 0 <= j < n ==> !Holdable(w, ms[j])
  {
    if n == 0 then None else if Holdable(w, ms[n - 1]) then Some(n - 1) else LastHoldable(w, ms, n - 1)
  }

  /** An early answer used for want of a better one: none at all when it is cut short. */
  function FromHeld(w: Wait, ms: seq<Message>, n: nat): Option<string>
    requires n <= |ms|
  {
    match LastHoldable(w, ms, n)
    case None => None
    case Some(i) =>
      if !w.useHeld || ParseState(ms[i].text, w.answer) == "" then None else Some(ParseState(ms[i].text, w.answer))
  }

  /** For a state read: the first full-length answer at or after our ack; failing that, if our
      ack came, the last earlier answer that is not the module's other group's; else nothing.
      For any other command: the newest answer once both it and the ack are there. */
  function Chosen(w: Wait, ms: seq<Message>): Option<string> {
    var a := FirstAck(w, ms, 0);
    if a == |ms| then None
    else if ReadsState(w) then
      var b := FirstUsable(w, ms, a);
      if b < |ms| then Some(Value(w, ms[b])) else FromHeld(w, ms, a)
    else
      var b := FirstUsable(w, ms, 0);
      if b == |ms| then None
      else
        var end := if a < b then b else a;
        Some(Value(w, ms[LastUsable(w, ms, end + 1).value]))
  }

  // ---- the loop ----------------------------------------------------------------------------------

  function HeldText(w: Wait, ms: seq<Message>, n: nat): Option<string>
    requires n <= |ms|
  {
    match LastHoldable(w, ms, n) case None => None case Some(j) => Some(ms[j].text)
  }

  function AnswerText(w: Wait, ms: seq<Message>, n: nat): Option<string>
    requires n <= |ms|
  {
    match LastUsable(w, ms, n) case None => None case Some(j) => Some(Value(w, ms[j]))
  }

  /** What the loop knows after the first `i` messages of a state read. */
  ghost predicate StateSoFar(w: Wait, ms: seq<Message>, i: nat, acked: bool, held: Option<string>)
    requires i <= |ms|
  {
    && acked == (FirstAck(w, ms, 0) < i)
    && (acked ==> FirstUsable(w, ms, FirstAck(w, ms, 0)) >= i)
    && held == HeldText(w, ms, if acked then FirstAck(w, ms, 0) else i)
  }

  /** What it knows in any other exchange. */
  ghost predicate AnyOrder(w: Wait, ms: seq<Message>, i: nat, acked: bool, answered: Option<string>)
    requires i <= |ms|
  {
    && acked == (FirstAck(w, ms, 0) < i)
    && answered.Some? == (FirstUsable(w, ms, 0) < i)
    && !(acked && answered.Some?)
    && answered == AnswerText(w, ms, i)
  }

  lemma TurnState(w: Wait, ms: seq<Message>, i: nat, acked: bool, held: Option<string>)
    requires i < |ms| && StateSoFar(w, ms, i, acked, held)
    ensures var ack := acked || Contains(ms[i].text, w.ack);
      && (!ack ==> StateSoFar(w, ms, i + 1, false, if Holdable(w, ms[i]) then Some(ms[i].text) else held))
      && (ack && !Usable(w, ms[i]) ==> StateSoFar(w, ms, i + 1, true, held))
      && (ack && Usable(w, ms[i]) && ReadsState(w) ==> Chosen(w, ms) == Some(Value(w, ms[i])))
  {
    hide Contains, Usable, Holdable, Value, ReadsState;
  }

  lemma TurnAny(w: Wait, ms: seq<Message>, i: nat, acked: bool, answered: Option<string>)
    requires i < |ms| && AnyOrder(w, ms, i, acked, answered)
    ensures var ack := acked || Contains(ms[i].text, w.ack);
      var now := if Usable(w, ms[i]) then Some(Value(w, ms[i])) else answered;
      if ack && now.Some? then !ReadsState(w) ==> Chosen(w, ms) == now else AnyOrder(w, ms, i + 1, ack, now)
  {
    hide Contains, Usable, Holdable, Value, ReadsState;
  }

  lemma WaitOver(w: Wait, ms: seq<Message>, acked: bool, held: Option<string>, answered: Option<string>)
    ensures ReadsState(w) && StateSoFar(w, ms, |ms|, acked, held) ==>
      Chosen(w, ms) == if acked && held.Some? && w.useHeld && ParseState(held.value, w.answer) != "" then Some(ParseState(held.value, w.answer)) else None
    ensures !ReadsState(w) && AnyOrder(w, ms, |ms|, acked, answered) ==> Chosen(w, ms) == None
  {
    hide Contains, Usable, Holdable, Value, ReadsState, ParseState;
  }

  method WaitForState(w: Wait, ms: seq<Message>) returns (state: Option<string>)
    ensures state == Chosen(w, ms)
  {
    hide Contains, ReadsState, SetAck, Chosen, StateSoFar, AnyOrder, ParseState, ToHex, ReplyPayload;
    var acked := false;
    var held: Option<string> := None;
    var answered: Option<string> := None;
    WaitBegins(w, ms);
    for i := 0 to |ms|
      invariant ReadsState(w) ==> StateSoFar(w, ms, i, acked, held) && answered == None
      invariant !ReadsState(w) ==> AnyOrder(w, ms, i, acked, answered) && held == None
    {
      var m := ms[i];
      if ReadsState(w) {
        TurnState(w, ms, i, acked, held);
      } else {
        TurnAny(w, ms, i, acked, answered);
      }
      if Contains(m.text, w.ack) {
        acked := true;
      }
      if Contains(m.text, w.answer) {
        if ReadsState(w) && !acked {
          if m.otherGroup {
            continue;
          }
          held := Some(m.text);
          continue;
        }
        if SetAck(w) {
          answered := Some("");
        } else if w.raw {
          answered := Some(ToHex(ReplyPayload(m.text)));
        } else if |m.text| >= |w.answer| + 14 {
          answered := Some(ParseState(m.text, w.answer));
        }
      }
      if acked && answered.Some? {
        return answered;
      }
    }
    WaitOver(w, ms, acked, held, answered);
    if acked && held.Some? && w.useHeld {
      var parsed := ParseState(held.value, w.answer);
      return if parsed == "" then None else Some(parsed);
    }
    return None;
  }

  lemma WaitBegins(w: Wait, ms: seq<Message>)
    ensures StateSoFar(w, ms, 0, false, None) && AnyOrder(w, ms, 0, false, None)
  {
  }

  // ---- what the choice means -------------------------------------------------------------------------

  /** An answer that came before our ack is never preferred to a full one after it, and the
      module's other group's answer is never taken before our ack. */
  lemma ChosenIsOurs(w: Wait, ms: seq<Message>, state: string)
    requires ReadsState(w) && Chosen(w, ms) == Some(state)
    ensures exists i :: 0 <= i < |ms| && Contains(ms[i].text, w.answer) && state == ParseState(ms[i].text, w.answer) && Taken(w, ms, i)
  {
    hide Contains, ParseState;
    NotASetAck(w);
    var a := FirstAck(w, ms, 0);
    var b := FirstUsable(w, ms, a);
    if b < |ms| {
      assert Taken(w, ms, b);
    } else {
      var i := LastHoldable(w, ms, a).value;
      assert Taken(w, ms, i);
    }
  }

  lemma NotASetAck(w: Wait)
    requires ReadsState(w)
    ensures !SetAck(w) && !w.raw
  {
    assert w.answer[..3][1] == w.answer[1] == '1';
    assert |w.answer| >= 5 ==> w.answer[..5][1] == w.answer[1];
  }

  /** At or after our ack with no full answer between; or before it, not the other group's, with
      no full answer after it and no better held one. */
  predicate Taken(w: Wait, ms: seq<Message>, i: nat)
    requires i < |ms|
  {
    var a := FirstAck(w, ms, 0);
    a < |ms|
    && (i >= a ==> Usable(w, ms[i]) && forall j :: a <= j < i ==> !Usable(w, ms[j]))
    && (i < a ==> !ms[i].otherGroup && (forall j :: i < j < a ==> !Holdable(w, ms[j])) && forall j :: a <= j < |ms| ==> !Usable(w, ms[j]))
  }

  /** Once a full answer has followed the ack, what comes later changes nothing. */
  lemma LaterMessagesDoNotMatter(w: Wait, ms: seq<Message>, more: seq<Message>)
    requires ReadsState(w) && FirstAck(w, ms, 0) < |ms| && FirstUsable(w, ms, FirstAck(w, ms, 0)) < |ms|
    ensures Chosen(w, ms + more) == Chosen(w, ms)
  {
    hide Contains, ParseState, Usable, Value, ReadsState;
    SameFirstAck(w, ms, more, 0);
    SameFirstUsable(w, ms, more, FirstAck(w, ms, 0));
  }

  lemma {:induction false} SameFirstAck(w: Wait, ms: seq<Message>, more: seq<Message>, from: nat)
    requires from <= |ms| && FirstAck(w, ms, from) < |ms|
    ensures FirstAck(w, ms + more, from) == FirstAck(w, ms, from)
    decreases |ms| - from
  {
    hide Contains;
    if !Contains(ms[from].text, w.ack) {
      SameFirstAck(w, ms, more, from + 1);
    }
  }

  lemma {:induction false} SameFirstUsable(w: Wait, ms: seq<Message>, more: seq<Message>, from: nat)
    requires from <= |ms| && FirstUsable(w, ms, from) < |ms|
    ensures FirstUsable(w, ms + more, from) == FirstUsable(w, ms, from)
    decreases |ms| - from
  {
    hide Usable;
    if !Usable(w, ms[from]) {
      SameFirstUsable(w, ms, more, from + 1);
    }
  }

  // ---- the choice in every case ------------------------------------------------------------------

  /** The message carries the answer at full length: its echo, a status byte and twelve digits. */
  predicate Full(answer: string, m: Message) {
    Contains(m.text, answer) && |m.text| >= |answer| + 2 + 12
  }

  predicate FirstOf(good: seq<bool>, from: nat, i: nat) {
    from <= i < |good| && good[i] && forall j :: from <= j < i ==> !good[j]
  }

  predicate LastOf(good: seq<bool>, end: nat, i: nat) {
    i < end <= |good| && good[i] && forall j :: i < j < end ==> !good[j]
  }

  /** Which messages are acks, answers at full length, answers not of the other group, and answers to
      a command that reads no state. */
  function Acks(w: Wait, ms: seq<Message>): (r: seq<bool>)
    ensures |r| == |ms| && forall i :: 0 <= i < |ms| ==> r[i] == Contains(ms[i].text, w.ack)
  {
    seq(|ms|, i requires 0 <= i < |ms| => Contains(ms[i].text, w.ack))
  }

  function Fulls(w: Wait, ms: seq<Message>): (r: seq<bool>)
    ensures |r| == |ms| && forall i :: 0 <= i < |ms| ==> r[i] == Full(w.answer, ms[i])
  {
    seq(|ms|, i requires 0 <= i < |ms| => Full(w.answer, ms[i]))
  }

  function Earlies(w: Wait, ms: seq<Message>): (r: seq<bool>)
    ensures |r| == |ms| && forall i :: 0 <= i < |ms| ==> r[i] == (Contains(ms[i].text, w.answer) && !ms[i].otherGroup)
  {
    seq(|ms|, i requires 0 <= i < |ms| => Contains(ms[i].text, w.answer) && !ms[i].otherGroup)
  }

  function Answers(w: Wait, ms: seq<Message>): (r: seq<bool>)
    ensures |r| == |ms|
    ensures forall i :: 0 <= i < |ms| ==>
      r[i] == if StartsWith(w.answer, "$0EFF") || w.raw then Contains(ms[i].text, w.answer) else Full(w.answer, ms[i])
  {
    seq(|ms|, i requires 0 <= i < |ms| => if StartsWith(w.answer, "$0EFF") || w.raw then Contains(ms[i].text, w.answer) else Full(w.answer, ms[i]))
  }

  /** A state read: without our ack nothing; with it the first full answer from the ack on; without
      one, if early answers may be used, the last one before the ack that is not the other group's;
      else nothing. */
  lemma StateReadExactly(w: Wait, ms: seq<Message>)
    requires StartsWith(w.answer, "$1C") && !StartsWith(w.answer, "$1CFF") && !w.raw
    ensures var acks, full := Acks(w, ms), Fulls(w, ms);
      var early := Earlies(w, ms);
      && ((forall i :: 0 <= i < |ms| ==> !acks[i]) ==> Chosen(w, ms) == None)
      && (forall a: nat, b: nat :: FirstOf(acks, 0, a) && FirstOf(full, a, b) ==> Chosen(w, ms) == Some(ParseState(ms[b].text, w.answer)))
      && (forall a: nat :: FirstOf(acks, 0, a) && (forall b :: a <= b < |ms| ==> !full[b]) ==>
            && (forall h: nat :: LastOf(early, a, h) ==>
                  Chosen(w, ms) == if w.useHeld && ParseState(ms[h].text, w.answer) != "" then Some(ParseState(ms[h].text, w.answer)) else None)
            && ((forall h :: 0 <= h < a ==> !early[h]) ==> Chosen(w, ms) == None))
  {
    hide Contains, ParseState, StartsWith;
    NotASetAck(w);
    var acks, full := Acks(w, ms), Fulls(w, ms);
    var early := Earlies(w, ms);
    forall i | 0 <= i < |ms| ensures full[i] == Usable(w, ms[i]) && early[i] == Holdable(w, ms[i]) && acks[i] == Contains(ms[i].text, w.ack) {
    }
    hide Usable, Holdable, Full;
    var a := FirstAck(w, ms, 0);
    forall x: nat | FirstOf(acks, 0, x) ensures x == a {
      assert acks[x];
      assert a < |ms| ==> acks[a];
    }
    forall x: nat, b: nat | FirstOf(acks, 0, x) && FirstOf(full, x, b) ensures b == FirstUsable(w, ms, a) {
      assert full[b];
      assert FirstUsable(w, ms, a) < |ms| ==> full[FirstUsable(w, ms, a)];
    }
    forall h: nat | LastOf(early, a, h) ensures LastHoldable(w, ms, a) == Some(h) {
      assert early[h];
      assert LastHoldable(w, ms, a).Some? ==> early[LastHoldable(w, ms, a).value];
    }
  }

  lemma FirstsAre(w: Wait, ms: seq<Message>, a: nat, b: nat)
    requires FirstOf(Acks(w, ms), 0, a) && FirstOf(Answers(w, ms), 0, b)
    requires !(StartsWith(w.answer, "$1C") && !StartsWith(w.answer, "$1CFF") && !w.raw)
    ensures FirstAck(w, ms, 0) == a && FirstUsable(w, ms, 0) == b
  {
    hide Contains, StartsWith;
    AnswersUsable(w, ms);
    hide Usable;
    assert Acks(w, ms)[a] && Answers(w, ms)[b];
    var x, y := FirstAck(w, ms, 0), FirstUsable(w, ms, 0);
    assert x < |ms| ==> Acks(w, ms)[x];
    assert y < |ms| ==> Answers(w, ms)[y];
  }

  lemma AnswersUsable(w: Wait, ms: seq<Message>)
    ensures forall i :: 0 <= i < |ms| ==> Answers(w, ms)[i] == Usable(w, ms[i])
  {
    hide Contains, StartsWith;
  }

  /** Any other command takes, once it has both our ack and an answer, the newest answer up to the later
      of the two firsts: nothing to read for a set command, the payload of a raw query, the state of
      the rest. */
  lemma OtherCommandTakes(w: Wait, ms: seq<Message>, a: nat, b: nat, i: nat)
    requires !(StartsWith(w.answer, "$1C") && !StartsWith(w.answer, "$1CFF") && !w.raw)
    requires FirstOf(Acks(w, ms), 0, a) && FirstOf(Answers(w, ms), 0, b) && LastOf(Answers(w, ms), (if a < b then b else a) + 1, i)
    ensures Chosen(w, ms) == Some(
      if StartsWith(w.answer, "$0EFF") then "" else if w.raw then ToHex(ReplyPayload(ms[i].text)) else ParseState(ms[i].text, w.answer))
  {
    hide Contains, ParseState, StartsWith, ToHex, ReplyPayload, Usable;
    FirstsAre(w, ms, a, b);
    AnswersUsable(w, ms);
    var end := if a < b then b else a;
    assert Answers(w, ms)[i] && Answers(w, ms)[b];
    var last := LastUsable(w, ms, end + 1);
    assert last.Some? ==> Answers(w, ms)[last.value];
  }

  /** Without both it takes nothing. */
  lemma OtherCommandNothing(w: Wait, ms: seq<Message>)
    requires !(StartsWith(w.answer, "$1C") && !StartsWith(w.answer, "$1CFF") && !w.raw)
    requires (forall i :: 0 <= i < |ms| ==> !Acks(w, ms)[i]) || (forall i :: 0 <= i < |ms| ==> !Answers(w, ms)[i])
    ensures Chosen(w, ms) == None
  {
    hide Contains, ParseState, StartsWith, ToHex, ReplyPayload, Usable;
    AnswersUsable(w, ms);
    var a, b := FirstAck(w, ms, 0), FirstUsable(w, ms, 0);
    assert a < |ms| ==> Acks(w, ms)[a];
    assert b < |ms| ==> Answers(w, ms)[b];
  }

  // ---- where the flag of a message comes from ------------------------------------------------------

  /** What the listener sees while a state read waits: a query of the module, by the Feedback
      Module, for one of its groups, or a message it hands on. */
  datatype Seen = Asked(group: int) | Arrived(text: string)

  /** The group of the module's last query (`_last_query_group`), whether the read's own answer is
      still to be attributed, and whether an ack has been seen. */
  datatype Attribution = Attribution(group: int, open: bool, ackSeen: bool)

  /** The message is attributed to the read that waits, whatever was asked in between
      (`_attribute_state_answer`). */
  predicate OwnAnswer(w: Wait, l: Attribution, s: Seen) {
    s.Arrived? && !StartsWith(s.text, "$05") && l.open && l.ackSeen && StartsWith(s.text, w.answer)
  }

  /** Only a listener with a Feedback Module follows the module's queries. */
  function Heard(w: Wait, ours: int, feedback: bool, l: Attribution, s: Seen): Attribution {
    match s
    case Asked(group) => if feedback then l.(group := group) else l
    case Arrived(text) =>
      if StartsWith(text, "$05") then l.(ackSeen := true)
      else if feedback && OwnAnswer(w, l, s) then l.(group := ours, open := false)
      else l
  }

  /** The listener behind `seen`, told of the read's own group at its start. */
  function Listened(w: Wait, ours: int, feedback: bool, seen: seq<Seen>): Attribution {
    if seen == [] then Attribution(ours, true, false)
    else Heard(w, ours, feedback, Listened(w, ours, feedback, seen[..|seen| - 1]), seen[|seen| - 1])
  }

  /** The messages as the wait takes them, each when it arrives (`_pushed_for_other_group`). */
  function Received(w: Wait, ours: int, feedback: bool, seen: seq<Seen>): (ms: seq<Message>)
    ensures |ms| <= |seen|
  {
    if seen == [] then []
    else
      var last := seen[|seen| - 1];
      Received(w, ours, feedback, seen[..|seen| - 1])
      + if last.Arrived? then [Message(last.text, Listened(w, ours, feedback, seen).group != ours)] else []
  }

  /** Event `j` changes whose answer comes next. */
  predicate Regroups(w: Wait, ours: int, feedback: bool, seen: seq<Seen>, j: nat)
    requires j < |seen|
  {
    feedback && (seen[j].Asked? || OwnAnswer(w, Listened(w, ours, feedback, seen[..j]), seen[j]))
  }

  /** The module was last asked, by the Feedback Module, for another group than the read's, and the
      read's own answer has not come since. */
  ghost predicate OthersTurn(w: Wait, ours: int, feedback: bool, seen: seq<Seen>, n: nat)
    requires n <= |seen|
  {
    exists q :: 0 <= q < n && seen[q].Asked? && seen[q].group != ours && LastRegrouping(w, ours, feedback, seen, q, n)
  }

  ghost predicate LastRegrouping(w: Wait, ours: int, feedback: bool, seen: seq<Seen>, q: nat, n: nat)
    requires q < n <= |seen|
  {
    Regroups(w, ours, feedback, seen, q) && forall j :: q < j < n ==> !Regroups(w, ours, feedback, seen, j)
  }

  lemma OneMoreSeen(w: Wait, ours: int, feedback: bool, seen: seq<Seen>, n: nat)
    requires n < |seen|
    ensures Listened(w, ours, feedback, seen[..n + 1]) == Heard(w, ours, feedback, Listened(w, ours, feedback, seen[..n]), seen[n])
  {
    assert seen[..n + 1][..n] == seen[..n];
  }

  /** The listener's group is another exactly when it is the others' turn. */
  lemma {:induction false} GroupExactly(w: Wait, ours: int, feedback: bool, seen: seq<Seen>, n: nat)
    requires n <= |seen|
    ensures Listened(w, ours, feedback, seen[..n]).group != ours <==> OthersTurn(w, ours, feedback, seen, n)
  {
    hide Listened, Regroups, StartsWith, OwnAnswer;
    if n == 0 {
      NothingSeen(w, ours, feedback, seen);
    } else {
      GroupExactly(w, ours, feedback, seen, n - 1);
      OneMoreSeen(w, ours, feedback, seen, n - 1);
      TurnMoves(w, ours, feedback, seen, n - 1);
    }
  }

  lemma NothingSeen(w: Wait, ours: int, feedback: bool, seen: seq<Seen>)
    ensures Listened(w, ours, feedback, seen[..0]).group == ours
  {
  }

  lemma TurnMoves(w: Wait, ours: int, feedback: bool, seen: seq<Seen>, n: nat)
    requires n < |seen|
    ensures var now, next := Listened(w, ours, feedback, seen[..n]), Heard(w, ours, feedback, Listened(w, ours, feedback, seen[..n]), seen[n]);
      && (Regroups(w, ours, feedback, seen, n) ==> next.group == if seen[n].Asked? then seen[n].group else ours)
      && (!Regroups(w, ours, feedback, seen, n) ==> next.group == now.group)
    ensures OthersTurn(w, ours, feedback, seen, n + 1) <==>
      if Regroups(w, ours, feedback, seen, n) then seen[n].Asked? && seen[n].group != ours else OthersTurn(w, ours, feedback, seen, n)
  {
    hide Listened, StartsWith;
    if Regroups(w, ours, feedback, seen, n) {
      assert LastRegrouping(w, ours, feedback, seen, n, n + 1);
    } else if OthersTurn(w, ours, feedback, seen, n) {
      var q :| 0 <= q < n && seen[q].Asked? && seen[q].group != ours && LastRegrouping(w, ours, feedback, seen, q, n);
      assert LastRegrouping(w, ours, feedback, seen, q, n + 1);
    }
  }

  /** Where a message comes from. */
  lemma {:induction false} ReceivedFrom(w: Wait, ours: int, feedback: bool, seen: seq<Seen>, n: nat, i: nat) returns (p: nat)
    requires n <= |seen| && i < |Received(w, ours, feedback, seen[..n])|
    ensures p < n && seen[p].Arrived?
    ensures Received(w, ours, feedback, seen[..n])[i] == Message(seen[p].text, Listened(w, ours, feedback, seen[..p + 1]).group != ours)
    decreases n
  {
    hide Listened;
    assert seen[..n][..n - 1] == seen[..n - 1];
    if i < |Received(w, ours, feedback, seen[..n - 1])| {
      p := ReceivedFrom(w, ours, feedback, seen, n - 1, i);
    } else {
      p := n - 1;
    }
  }

  /** The answer a state read takes from what the listener sees: one at or after our ack with no
      full answer between, or an earlier one that did not come in another group's turn. */
  lemma AnswerIsOurGroups(w: Wait, ours: int, feedback: bool, seen: seq<Seen>, state: string) returns (i: nat, p: nat)
    requires ReadsState(w) && Chosen(w, Received(w, ours, feedback, seen)) == Some(state)
    ensures var ms := Received(w, ours, feedback, seen);
      && i < |ms| && Taken(w, ms, i) && p < |seen| && seen[p].Arrived? && ms[i].text == seen[p].text
      && Contains(seen[p].text, w.answer) && state == ParseState(seen[p].text, w.answer)
      && (i < FirstAck(w, ms, 0) ==> !OthersTurn(w, ours, feedback, seen, p + 1))
  {
    hide Contains, ParseState, Listened, Received, OthersTurn, Chosen;
    var ms := Received(w, ours, feedback, seen);
    ChosenIsOurs(w, ms, state);
    i :| 0 <= i < |ms| && Contains(ms[i].text, w.answer) && state == ParseState(ms[i].text, w.answer) && Taken(w, ms, i);
    assert seen[..|seen|] == seen;
    p := ReceivedFrom(w, ours, feedback, seen, |seen|, i);
    GroupExactly(w, ours, feedback, seen, p + 1);
  }

  /** An answer is the read's own when an ack came before it and no own answer did. */
  lemma {:induction false} OwnAnswerExactly(w: Wait, ours: int, feedback: bool, seen: seq<Seen>, n: nat)
    requires n <= |seen|
    ensures Listened(w, ours, feedback, seen[..n]).ackSeen <==> exists a :: 0 <= a < n && seen[a].Arrived? && StartsWith(seen[a].text, "$05")
    ensures Listened(w, ours, feedback, seen[..n]).open <==> !(feedback && exists j :: 0 <= j < n && IsOwnAnswer(w, ours, feedback, seen, j))
    ensures n < |seen| ==> (IsOwnAnswer(w, ours, feedback, seen, n) <==>
      && seen[n].Arrived? && !StartsWith(seen[n].text, "$05") && StartsWith(seen[n].text, w.answer)
      && (exists a :: 0 <= a < n && seen[a].Arrived? && StartsWith(seen[a].text, "$05"))
      && !(feedback && exists j :: 0 <= j < n && IsOwnAnswer(w, ours, feedback, seen, j)))
  {
    hide StartsWith, Listened;
    if n == 0 {
      NothingHeard(w, ours, feedback, seen);
    } else {
      OwnAnswerExactly(w, ours, feedback, seen, n - 1);
      OneMoreSeen(w, ours, feedback, seen, n - 1);
    }
  }

  predicate IsOwnAnswer(w: Wait, ours: int, feedback: bool, seen: seq<Seen>, j: nat)
    requires j < |seen|
  {
    OwnAnswer(w, Listened(w, ours, feedback, seen[..j]), seen[j])
  }

  lemma NothingHeard(w: Wait, ours: int, feedback: bool, seen: seq<Seen>)
    ensures var l := Listened(w, ours, feedback, seen[..0]); l.open && !l.ackSeen
  {
  }
}
