/** The command handler as a value: its state, and what each stretch of code between two
    awaits does to it (`command.py`). */
module CommandState {
  import opened Wrappers
  import opened Bits

  /** A module address; case is normalised away. */
  type Address = nat

  /** A module's group of six outputs: 1 for channels 1 to 6, 2 for 7 to 12. */
  type GroupKey = (Address, int)

  type Image = s: seq<Byte> | |s| == 12 witness [0, 0, 0, 0, 0, 0, 0, 0, 0, 0, 0, 0]

  type Channels = map<int, Byte>

  const ZEROS: Image := [0, 0, 0, 0, 0, 0, 0, 0, 0, 0, 0, 0]

  /** Milliseconds after which a group's state is no longer recent. */
  const READ_BEFORE_WRITE: int := 3000

  /** A caller's read, the future a queued write shares, and a caller's own view of one. */
  datatype Future = Get(n: nat) | Shared(item: nat) | Derived(n: nat)

  datatype Outcome = Answered(state: seq<Byte>) | Failed | Cancelled

  datatype Item = SetItem(group: GroupKey, channels: Channels) | GetItem(group: GroupKey, future: Future)

  /** Where the queue worker is waiting. */
  datatype Phase = Idle | Coalescing(id: nat) | Reading(id: nat) | Sending(id: nat, frame: seq<Byte>) | Getting(id: nat)

  /** Items are shared between the queue, the pending table and the dedup table, so they are
      held by identity. */
  datatype Handler = Handler(
    buffers: map<Address, Image>,
    queue: seq<nat>, items: map<nat, Item>, nextItem: nat,
    pending: map<GroupKey, nat>, writing: map<GroupKey, Channels>,
    knownAt: map<GroupKey, int>,
    owners: map<GroupKey, nat>, waiters: map<GroupKey, seq<Future>>,
    results: map<Future, Outcome>, follows: map<Future, Future>, nextFuture: nat,
    phase: Phase)

  /** `calculate_group_number` */
  function GroupOf(channel: int): int {
    (channel + 5) / 6
  }

  function Start(group: int): nat {
    if group == 1 then 0 else 6
  }

  function Buffer(buffers: map<Address, Image>, a: Address): Image {
    if a in buffers then buffers[a] else ZEROS
  }

  function GroupBytes(image: Image, group: int): (r: seq<Byte>)
    ensures |r| == 6
  {
    image[Start(group)..Start(group) + 6]
  }

  /** `set_bytearray_state` on one buffer. */
  function PutChannel(image: Image, channel: int, value: Byte): Image {
    if 0 <= channel - 1 < 12 then image[channel - 1 := value] else image
  }

  /** Channel writes laid over an image. */
  function Overlay(image: Image, channels: Channels): (r: Image)
    ensures forall i :: 0 <= i < 12 ==> r[i] == if i + 1 in channels then channels[i + 1] else image[i]
  {
    seq<Byte>(12, i requires 0 <= i < 12 => if i + 1 in channels then channels[i + 1] else image[i])
  }

  function PutGroup(image: Image, group: int, six: seq<Byte>): (r: Image)
    requires |six| == 6
    ensures forall i :: 0 <= i < 12 ==> r[i] == if Start(group) <= i < Start(group) + 6 then six[i - Start(group)] else image[i]
  {
    image[..Start(group)] + six + image[Start(group) + 6..]
  }

  // ---- writes ------------------------------------------------------------------------------------

  /** `set_output_state`: the buffer now, the frame later; a request of the group that is
      still waiting takes this one aboard. */
  function SetOutputState(h: Handler, a: Address, channel: int, value: Byte): Handler {
    var k := (a, GroupOf(channel));
    var buffers := h.buffers[a := PutChannel(Buffer(h.buffers, a), channel, value)];
    var own := Derived(h.nextFuture);
    if k in h.pending && h.pending[k] in h.items && h.items[h.pending[k]].SetItem? then
      var id := h.pending[k];
      var item := h.items[id];
      h.(buffers := buffers, items := h.items[id := item.(channels := item.channels[channel := value])],
         follows := h.follows[own := Shared(id)], nextFuture := h.nextFuture + 1)
    else
      var id := h.nextItem;
      h.(buffers := buffers, items := h.items[id := SetItem(k, map[channel := value])], nextItem := id + 1,
         pending := h.pending[k := id], queue := h.queue + [id],
         follows := h.follows[own := Shared(id)], nextFuture := h.nextFuture + 1)
  }

  function PendingChannels(pending: map<GroupKey, nat>, items: map<nat, Item>, k: GroupKey): Channels {
    if k in pending && pending[k] in items && items[pending[k]].SetItem? then items[pending[k]].channels else map[]
  }

  function WritingChannels(writing: map<GroupKey, Channels>, k: GroupKey): Channels {
    if k in writing then writing[k] else map[]
  }

  /** `apply_group_state` on a state of six bytes or more: the waiting writes, then the ones
      being sent, are laid on top again. */
  function ApplyGroupState(h: Handler, k: GroupKey, state: seq<Byte>, now: int): Handler
    requires |state| >= 6
  {
    var image := PutGroup(Buffer(h.buffers, k.0), k.1, state[..6]);
    var laid := Overlay(Overlay(image, PendingChannels(h.pending, h.items, k)), WritingChannels(h.writing, k));
    h.(buffers := h.buffers[k.0 := laid], knownAt := h.knownAt[k := now])
  }

  // ---- futures ------------------------------------------------------------------------------------

  /** A future is finished once; later outcomes are ignored. */
  function Finished(results: map<Future, Outcome>, f: Future, outcome: Outcome): map<Future, Outcome> {
    if f in results then results else results[f := outcome]
  }

  function FinishedAll(results: map<Future, Outcome>, fs: seq<Future>, outcome: Outcome): (r: map<Future, Outcome>)
    ensures forall f :: f in r <==> f in results || f in fs
    ensures forall f :: f in results ==> r[f] == results[f]
    ensures forall f :: f in fs && f !in results ==> r[f] == outcome
  {
    results + map f | f in fs && f !in results :: outcome
  }

  /** Finish a shared future: it and every view of it that is still open. */
  function FinishShared(results: map<Future, Outcome>, follows: map<Future, Future>, id: nat, outcome: Outcome): (r: map<Future, Outcome>)
    ensures forall f :: f in r <==> f in results || f == Shared(id) || (Shared(id) !in results && f in follows && follows[f] == Shared(id))
    ensures forall f :: f in results ==> r[f] == results[f]
    ensures Shared(id) !in results ==> forall f :: f in r && f !in results ==> r[f] == outcome
  {
    if Shared(id) in results then results
    else results + (map d | d in follows && follows[d] == Shared(id) && d !in results :: outcome) + map[Shared(id) := outcome]
  }

  function Waiters(h: Handler, k: GroupKey): seq<Future> {
    if k in h.waiters then h.waiters[k] else []
  }

  /** `resolve_pending_get` */
  function ResolvePendingGet(h: Handler, k: GroupKey, state: seq<Byte>, now: int): Handler {
    h.(knownAt := if |state| >= 6 then h.knownAt[k := now] else h.knownAt,
       results := FinishedAll(h.results, Waiters(h, k), Answered(state)))
  }

  /** A caller cancelling its own view of a write, as a time-out does. */
  function CancelView(h: Handler, d: Future): Handler {
    h.(results := Finished(h.results, d, Cancelled))
  }

  // ---- reads --------------------------------------------------------------------------------------

  /** `get_output_state` up to its wait: join the waiters, and queue a read unless one is queued. */
  function BeginGet(h: Handler, k: GroupKey): Handler {
    var f := Get(h.nextFuture);
    var waiters := h.waiters[k := Waiters(h, k) + [f]];
    if k in h.owners then h.(waiters := waiters, nextFuture := h.nextFuture + 1)
    else
      var id := h.nextItem;
      h.(waiters := waiters, nextFuture := h.nextFuture + 1, items := h.items[id := GetItem(k, f)], nextItem := id + 1, owners := h.owners[k := id], queue := h.queue + [id])
  }

  function Without(fs: seq<Future>, f: Future): (r: seq<Future>)
    ensures forall x :: x in r ==> x in fs
    ensures forall x :: x in fs && x != f ==> x in r
  {
    if fs == [] then [] else if fs[0] == f then fs[1..] else [fs[0]] + Without(fs[1..], f)
  }

  /** The `finally` of `get_output_state`: the caller leaves the waiters. */
  function LeaveWaiters(h: Handler, k: GroupKey, f: Future): Handler {
    h.(waiters := WaitersLeft(h.waiters, k, f))
  }

  function WaitersLeft(waiters: map<GroupKey, seq<Future>>, k: GroupKey, f: Future): map<GroupKey, seq<Future>> {
    if k !in waiters then waiters
    else
      var rest := Without(waiters[k], f);
      if rest == [] then waiters - {k} else waiters[k := rest]
  }

  function OwnerFuture(h: Handler, k: GroupKey): Option<Future> {
    if k in h.owners && h.owners[k] in h.items && h.items[h.owners[k]].GetItem? then Some(h.items[h.owners[k]].future) else None
  }

  /** A caller whose wait timed out or was cancelled. */
  function GiveUpGet(h: Handler, k: GroupKey, f: Future): Handler {
    h.(results := Finished(h.results, f, Cancelled),
       owners := if OwnerFuture(h, k) == Some(f) then h.owners - {k} else h.owners,
       waiters := WaitersLeft(h.waiters, k, f))
  }

  // ---- the worker --------------------------------------------------------------------------------

  /** A table entry is released by the item that holds it, and by no other. */
  function Released(table: map<GroupKey, nat>, k: GroupKey, id: nat): map<GroupKey, nat> {
    if k in table && table[k] == id then table - {k} else table
  }

  predicate AllFinished(h: Handler, fs: seq<Future>) {
    forall i :: 0 <= i < |fs| ==> fs[i] in h.results
  }

  /** Take the next item: skipped when nobody waits for it, else its exchange begins. */
  function Pop(h: Handler): Handler
    requires h.phase == Idle && h.queue != [] && h.queue[0] in h.items
  {
    var id := h.queue[0];
    match h.items[id]
    case GetItem(k, f) =>
      var skipped := f in h.results && AllFinished(h, Waiters(h, k));
      h.(queue := h.queue[1..], owners := Released(h.owners, k, id), phase := if skipped then Idle else Getting(id))
    case SetItem(k, _) =>
      var skipped := Shared(id) in h.results;
      h.(queue := h.queue[1..], pending := if skipped then Released(h.pending, k, id) else h.pending,
         phase := if skipped then Idle else Coalescing(id))
  }

  predicate Recent(h: Handler, k: GroupKey, now: int) {
    k in h.knownAt && now - h.knownAt[k] <= READ_BEFORE_WRITE
  }

  /** Apply the item's writes once more and take the frame from the buffer. */
  function Build(h: Handler, id: nat): Handler
    requires id in h.items && h.items[id].SetItem?
  {
    var (a, group) := h.items[id].group;
    var image := Overlay(Buffer(h.buffers, a), h.items[id].channels);
    h.(buffers := h.buffers[a := image], phase := Sending(id, GroupBytes(image, group)))
  }

  /** The coalescing window is over: no more joiners; read first unless the group is recent. */
  function Coalesced(h: Handler, now: int): Handler
    requires h.phase.Coalescing? && h.phase.id in h.items && h.items[h.phase.id].SetItem?
  {
    var id := h.phase.id;
    var item := h.items[id];
    var h := h.(pending := Released(h.pending, item.group, id), writing := h.writing[item.group := item.channels]);
    if Recent(h, item.group, now) then Build(h, id) else h.(phase := Reading(id))
  }

  /** The read before the write is over; a failed or short answer leaves the buffer alone. */
  function ReadDone(h: Handler, answer: Option<seq<Byte>>, now: int): Handler
    requires h.phase.Reading? && h.phase.id in h.items && h.items[h.phase.id].SetItem?
  {
    var id := h.phase.id;
    var k := h.items[id].group;
    var h := if answer.Some? && |answer.value| >= 6
      then ResolvePendingGet(ApplyGroupState(h, k, answer.value, now), k, answer.value, now) else h;
    Build(h, id)
  }

  function SetDone(h: Handler, now: int): Handler
    requires h.phase.Sending? && h.phase.id in h.items && h.items[h.phase.id].SetItem?
  {
    var k := h.items[h.phase.id].group;
    h.(results := FinishShared(h.results, h.follows, h.phase.id, Answered([])),
       knownAt := h.knownAt[k := now], writing := h.writing - {k}, phase := Idle)
  }

  function SetFailed(h: Handler): Handler
    requires h.phase.Sending? && h.phase.id in h.items && h.items[h.phase.id].SetItem?
  {
    h.(results := FinishShared(h.results, h.follows, h.phase.id, Failed),
       writing := h.writing - {h.items[h.phase.id].group}, phase := Idle)
  }

  function GetDone(h: Handler, state: seq<Byte>, now: int): Handler
    requires h.phase.Getting? && h.phase.id in h.items && h.items[h.phase.id].GetItem?
  {
    var GetItem(k, f) := h.items[h.phase.id];
    h.(results := FinishedAll(Finished(h.results, f, Answered(state)), Waiters(h, k), Answered(state)),
       knownAt := if |state| >= 6 then h.knownAt[k := now] else h.knownAt, phase := Idle)
  }

  function GetFailed(h: Handler): Handler
    requires h.phase.Getting? && h.phase.id in h.items && h.items[h.phase.id].GetItem?
  {
    var GetItem(k, f) := h.items[h.phase.id];
    h.(results := FinishedAll(Finished(h.results, f, Failed), Waiters(h, k), Failed), phase := Idle)
  }
}
