/** The links of a whole button store, and the pass that copies each to the paired keys
    (`discovery/fileio.py`, `_mirror_paired_button_links`). */
module LinkStore {
  import opened Wrappers
  import opened LinkBlocks

  datatype Letter = A | B | C | D

  /** A key label: a wall key such as 1A, a paged key of the 52-key remote such as 2.3B, or any other. */
  datatype Label = Wall(row: nat, letter: Letter) | Paged(channel: nat, row: nat, letter: Letter) | Named(text: string)

  /** A key of a button: the button's address and its label. */
  datatype KeyRef = KeyRef(plate: nat, name: Label)

  type Links = map<KeyRef, seq<Block>>

  const TWO_BUTTON_MODES: set<string> := {"M01 (Dim on/off (2 buttons))", "M01 (Open - stop - close)", "M01 (On / off)"}
  const FOUR_BUTTON_MODES: set<string> := {"M02 (Dim on/off (4 buttons))"}

  function Other(letter: Letter): Letter {
    match letter case A => B case B => A case C => D case D => C
  }

  /** `_TWO_BUTTON_PAIRS` */
  function Pair(name: Label): seq<Label> {
    match name
    case Wall(row, letter) =>
      if 1 <= row <= 2 || (3 <= row <= 4 && (letter == A || letter == B)) then [Wall(row, Other(letter))] else []
    case Paged(channel, row, letter) =>
      if 1 <= channel <= 4 && 1 <= row <= 5 && (letter == A || letter == B) then [Paged(channel, row, Other(letter))] else []
    case Named(_) => []
  }

  /** `_FOUR_BUTTON_GROUPS` */
  function Row(name: Label): seq<Label> {
    if name == Wall(1, A) then [Wall(1, B), Wall(1, C), Wall(1, D)]
    else if name == Wall(2, A) then [Wall(2, B), Wall(2, C), Wall(2, D)]
    else []
  }

  /** `_peers_for_mirror` */
  function Peers(name: Label, mode: string): seq<Label> {
    if mode in TWO_BUTTON_MODES then Pair(name) else if mode in FOUR_BUTTON_MODES then Row(name) else []
  }

  /** A peer's own peers are the key itself or its other peers: one pass is enough. */
  lemma PeersOfPeers(name: Label, mode: string, p: Label, q: Label)
    requires p in Peers(name, mode) && q in Peers(p, mode)
    ensures q == name || q in Peers(name, mode)
    ensures p != name
  {
  }

  lemma NeverOwnPeer(name: Label, mode: string)
    ensures name !in Peers(name, mode)
  {
  }

  predicate Present(links: Links, k: KeyRef, m: nat, d: DedupeKey) {
    k in links && Has(links[k], m, d)
  }

  ghost predicate AllTidy(links: Links) {
    forall k :: k in links ==> Tidy(links[k])
  }

  ghost predicate AllSingle(links: Links) {
    forall k :: k in links ==> Single(links[k])
  }

  /** Every existing peer of the key holds the output too. */
  ghost predicate Spread(links: Links, k: KeyRef, m: nat, d: DedupeKey) {
    forall p :: p in Peers(k.name, d.mode) && KeyRef(k.plate, p) in links ==> Present(links, KeyRef(k.plate, p), m, d)
  }

  ghost predicate SpreadFrom(links: Links, k: KeyRef) {
    forall m, d :: Present(links, k, m, d) ==> Spread(links, k, m, d)
  }

  /** The fixpoint: every output whose mode has peers is present on every existing peer. */
  ghost predicate Closed(links: Links) {
    forall k :: k in links ==> SpreadFrom(links, k)
  }

  /** Nothing stored is removed or altered: each block's outputs stay in front. */
  ghost predicate Grown(before: Links, after: Links) {
    && after.Keys == before.Keys
    && forall k, m :: k in before ==> Longer(OutputsAt(before[k], m), OutputsAt(after[k], m))
  }

  ghost predicate Longer(before: Option<seq<Output>>, after: Option<seq<Output>>) {
    if before.Some? then after.Some? && Extends(before.value, after.value)
    else after.Some? ==> after.value != [] && Extends([], after.value)
  }

  /** Some key of the same button held the output before and has this one among its peers. */
  ghost predicate FromPeer(before: Links, k: KeyRef, m: nat, d: DedupeKey) {
    exists s :: KeyRef(k.plate, s) in before && Present(before, KeyRef(k.plate, s), m, d) && k.name in Peers(s, d.mode)
  }

  /** What a pass brings in is a mirror image of what was there. */
  ghost predicate OnlyMirrored(before: Links, after: Links) {
    forall k, m, d :: Present(after, k, m, d) ==> Present(before, k, m, d) || FromPeer(before, k, m, d)
  }

  /** The output itself stands in the module's block of the key. */
  ghost predicate Stored(links: Links, k: KeyRef, m: nat, o: Output) {
    k in links && o in Or(OutputsAt(links[k], m), [])
  }

  ghost predicate CopiedFrom(before: Links, k: KeyRef, m: nat, o: Output) {
    exists s :: Stored(before, KeyRef(k.plate, s), m, o) && k.name in Peers(s, o.key.mode)
  }

  /** What a pass brings in is a copy of an output of a peer, whole. */
  ghost predicate OnlyCopied(before: Links, after: Links) {
    forall k, m, o :: Stored(after, k, m, o) ==> Stored(before, k, m, o) || CopiedFrom(before, k, m, o)
  }

  // ---- one output copied to the peers of its key --------------------------------------------------

  /** One output filed on the keys of a list that exist. */
  function PutAll(links: Links, plate: nat, labels: seq<Label>, m: nat, o: Output): (r: Links)
    ensures r.Keys == links.Keys
  {
    if labels == [] then links
    else
      var k := KeyRef(plate, labels[0]);
      PutAll(if k in links then links[k := Put(links[k], m, o)] else links, plate, labels[1..], m, o)
  }

  lemma AppendTwice(outputs: seq<Output>, o: Output)
    ensures Appended(Appended(outputs, o), o) == Appended(outputs, o)
  {
    AppendedKeys(outputs, o, o.key);
  }

  /** It changes no other module's block and no other key. */
  lemma {:induction false} PutAllView(links: Links, plate: nat, labels: seq<Label>, m: nat, o: Output, k: KeyRef, m': nat)
    requires k in links
    ensures OutputsAt(PutAll(links, plate, labels, m, o)[k], m') ==
      if m' == m && k.plate == plate && k.name in labels then Some(Appended(Or(OutputsAt(links[k], m), []), o)) else OutputsAt(links[k], m')
    decreases |labels|
  {
    hide Put, OutputsAt, Appended;
    if labels != [] {
      var p := KeyRef(plate, labels[0]);
      var next := if p in links then links[p := Put(links[p], m, o)] else links;
      PutAllView(next, plate, labels[1..], m, o, k, m');
      assert k.name in labels <==> k.name == labels[0] || k.name in labels[1..];
      if p == k {
        PutView(links[k], m, o, m');
        PutView(links[k], m, o, m);
        AppendTwice(Or(OutputsAt(links[k], m), []), o);
      }
    }
  }

  lemma {:induction false} PutAllSingle(links: Links, plate: nat, labels: seq<Label>, m: nat, o: Output)
    requires AllSingle(links)
    ensures AllSingle(PutAll(links, plate, labels, m, o))
    decreases |labels|
  {
    hide Single, Put;
    if labels != [] {
      var k := KeyRef(plate, labels[0]);
      if k in links {
        FilingKeepsSingle(links[k], m, o);
      }
      PutAllSingle(if k in links then links[k := Put(links[k], m, o)] else links, plate, labels[1..], m, o);
    }
  }

  /** An output stands on a key of the list, or where it stood. */
  lemma PutAllPresent(links: Links, plate: nat, labels: seq<Label>, m: nat, o: Output, k: KeyRef, m': nat, d: DedupeKey)
    ensures Present(PutAll(links, plate, labels, m, o), k, m', d) <==>
      Present(links, k, m', d) || (k in links && m' == m && d == o.key && k.plate == plate && k.name in labels)
  {
    hide OutputsAt, HasKey, Appended;
    if k in links {
      PutAllView(links, plate, labels, m, o, k, m');
      AppendedKeys(Or(OutputsAt(links[k], m), []), o, d);
      NothingInNone(d);
    }
  }

  lemma NothingInNone(d: DedupeKey)
    ensures !HasKey([], d)
  {
  }

  /** After it, the output is spread from its key, and keys that were closed stay closed. */
  lemma MirrorOne(links: Links, s: KeyRef, m: nat, o: Output)
    requires Present(links, s, m, o.key)
    ensures var after := PutAll(links, s.plate, Peers(s.name, o.key.mode), m, o);
      Spread(after, s, m, o.key) && forall k :: k in links && SpreadFrom(links, k) ==> SpreadFrom(after, k)
  {
    hide Peers, Has;
    var labels := Peers(s.name, o.key.mode);
    var after := PutAll(links, s.plate, labels, m, o);
    assert Spread(after, s, m, o.key) by {
      forall p | p in labels && KeyRef(s.plate, p) in after ensures Present(after, KeyRef(s.plate, p), m, o.key) {
        PutAllPresent(links, s.plate, labels, m, o, KeyRef(s.plate, p), m, o.key);
      }
    }
    forall k, m', d | k in links && SpreadFrom(links, k) && Present(after, k, m', d) ensures Spread(after, k, m', d) {
      PutAllPresent(links, s.plate, labels, m, o, k, m', d);
      forall q | q in Peers(k.name, d.mode) && KeyRef(k.plate, q) in after ensures Present(after, KeyRef(k.plate, q), m', d) {
        PutAllPresent(links, s.plate, labels, m, o, KeyRef(k.plate, q), m', d);
        if Present(links, k, m', d) {
          assert Spread(links, k, m', d);
        } else {
          PeersOfPeers(s.name, o.key.mode, k.name, q);
        }
      }
    }
  }

  lemma SpreadStays(before: Links, after: Links, s: KeyRef, m: nat, d: DedupeKey)
    requires Spread(before, s, m, d) && after.Keys == before.Keys && forall k, m', d' :: Present(before, k, m', d') ==> Present(after, k, m', d')
    ensures Spread(after, s, m, d)
  {
    hide Peers, Has;
  }

  lemma MirrorGrows(before: Links, links: Links, s: KeyRef, m: nat, o: Output)
    requires Grown(before, links) && OnlyMirrored(before, links) && Present(links, s, m, o.key)
    ensures var after := PutAll(links, s.plate, Peers(s.name, o.key.mode), m, o);
      Grown(before, after) && OnlyMirrored(before, after)
  {
    hide Peers, Has, Extends, OutputsAt, Appended;
    var labels := Peers(s.name, o.key.mode);
    var after := PutAll(links, s.plate, labels, m, o);
    forall k, m' | k in before ensures Longer(OutputsAt(before[k], m'), OutputsAt(after[k], m')) {
      PutAllView(links, s.plate, labels, m, o, k, m');
      assert Longer(OutputsAt(before[k], m'), OutputsAt(links[k], m'));
      NothingExtended();
      AppendedExtends(Or(OutputsAt(before[k], m'), []), Or(OutputsAt(links[k], m'), []), o);
      AppendedNotEmpty(Or(OutputsAt(links[k], m), []), o);
    }
    forall k, m', d | Present(after, k, m', d) ensures Present(before, k, m', d) || FromPeer(before, k, m', d) {
      PutAllPresent(links, s.plate, labels, m, o, k, m', d);
      if !Present(links, k, m', d) {
        MirroredAgain(before, links, s, k, m, d);
      }
    }
  }

  lemma MirrorCopies(before: Links, links: Links, s: KeyRef, m: nat, o: Output)
    requires OnlyCopied(before, links) && Stored(links, s, m, o) && before.Keys == links.Keys
    ensures OnlyCopied(before, PutAll(links, s.plate, Peers(s.name, o.key.mode), m, o))
  {
    hide Peers, OutputsAt, HasKey;
    var labels := Peers(s.name, o.key.mode);
    var after := PutAll(links, s.plate, labels, m, o);
    forall k, m', o' | Stored(after, k, m', o') ensures Stored(before, k, m', o') || CopiedFrom(before, k, m', o') {
      PutAllView(links, s.plate, labels, m, o, k, m');
      if !Stored(links, k, m', o') {
        assert o' == o && m' == m && k.plate == s.plate && k.name in labels;
        CopiedAgain(before, links, s, k, m, o);
      }
    }
  }

  /** A copy of a copy is one of the original. */
  lemma CopiedAgain(before: Links, links: Links, s: KeyRef, k: KeyRef, m: nat, o: Output)
    requires OnlyCopied(before, links) && Stored(links, s, m, o) && s.plate == k.plate
    requires k.name in Peers(s.name, o.key.mode) && k in before
    ensures Stored(before, k, m, o) || CopiedFrom(before, k, m, o)
  {
    hide Peers, OutputsAt;
    if Stored(before, s, m, o) {
      assert KeyRef(k.plate, s.name) == s;
    } else {
      var t :| Stored(before, KeyRef(s.plate, t), m, o) && s.name in Peers(t, o.key.mode);
      PeersOfPeers(t, o.key.mode, s.name, k.name);
    }
  }

  lemma NothingExtended()
    ensures Extends([], [])
  {
  }

  lemma AppendedNotEmpty(outputs: seq<Output>, o: Output)
    ensures Appended(outputs, o) != []
  {
  }

  /** A mirror image of a mirror image is one of the original. */
  lemma MirroredAgain(before: Links, links: Links, s: KeyRef, k: KeyRef, m: nat, d: DedupeKey)
    requires OnlyMirrored(before, links) && Present(links, s, m, d) && s.plate == k.plate
    requires k.name in Peers(s.name, d.mode) && k in before && s in before
    ensures Present(before, k, m, d) || FromPeer(before, k, m, d)
  {
    hide Peers, Has;
    if Present(before, s, m, d) {
      assert KeyRef(k.plate, s.name) == s;
    } else {
      var t :| KeyRef(s.plate, t) in before && Present(before, KeyRef(s.plate, t), m, d) && s.name in Peers(t, d.mode);
      PeersOfPeers(t, d.mode, s.name, k.name);
    }
  }

  // ---- how many outputs are stored ----------------------------------------------------------------

  /** The number of outputs stored on all keys. */
  ghost function Total(links: Links): nat {
    if links == map[] then 0
    else
      var k :| k in links;
      Count(links[k]) + Total(links - {k})
  }

  /** The keys may be counted in any order. */
  lemma {:induction false} TotalWithout(links: Links, k: KeyRef)
    requires k in links
    ensures Total(links) == Count(links[k]) + Total(links - {k})
    decreases |links|
  {
    hide Count;
    var first :| first in links && Total(links) == Count(links[first]) + Total(links - {first});
    if first != k {
      TotalWithout(links - {first}, k);
      assert links - {first} - {k} == links - {k} - {first};
      TotalWithout(links - {k}, first);
    }
  }

  lemma TotalChanged(links: Links, k: KeyRef, blocks: seq<Block>)
    requires k in links
    ensures Total(links[k := blocks]) == Total(links) - Count(links[k]) + Count(blocks)
  {
    TotalWithout(links, k);
    TotalWithout(links[k := blocks], k);
    assert links[k := blocks] - {k} == links - {k};
  }

  /** What one pass over the whole store does, and how many outputs it brings in. */
  ghost predicate Mirrored(before: Links, after: Links, added: nat) {
    && AllSingle(after) && Grown(before, after) && OnlyMirrored(before, after) && OnlyCopied(before, after) && Closed(after)
    && added == Total(after) - Total(before)
    && (added == 0 ==> after == before)
    && (Closed(before) ==> added == 0)
  }

  /** It makes no output appear twice in a block. */
  lemma MirrorKeepsTidy(before: Links, after: Links)
    requires AllTidy(before) && AllSingle(after) && Grown(before, after)
    ensures AllTidy(after)
  {
    hide NoRepeats, Extends, FindBlock;
    forall k, i | k in after && 0 <= i < |after[k]| ensures NoRepeats(after[k][i].outputs) {
      var m := after[k][i].moduleAddress;
      SingleView(after[k], i);
      assert Tidy(before[k]) && Longer(OutputsAt(before[k], m), OutputsAt(after[k], m));
      NoneRepeats();
      ExtendedNoRepeats(Or(OutputsAt(before[k], m), []), after[k][i].outputs);
    }
  }

  lemma NoneRepeats()
    ensures NoRepeats([])
  {
  }

  /** An output already spread is copied nowhere. */
  lemma {:induction false} PutAllNothing(links: Links, plate: nat, labels: seq<Label>, m: nat, o: Output)
    requires forall p :: p in labels && KeyRef(plate, p) in links ==> Present(links, KeyRef(plate, p), m, o.key)
    ensures PutAll(links, plate, labels, m, o) == links
    decreases |labels|
  {
    if labels != [] {
      var k := KeyRef(plate, labels[0]);
      assert labels[0] in labels;
      assert k in links ==> links[k := Put(links[k], m, o)] == links;
      assert forall p :: p in labels[1..] ==> p in labels;
      PutAllNothing(links, plate, labels[1..], m, o);
    }
  }

  lemma {:induction false} PutAllElsewhere(links: Links, plate: nat, labels: seq<Label>, m: nat, o: Output, k: KeyRef)
    requires k in links && (k.plate != plate || k.name !in labels)
    ensures PutAll(links, plate, labels, m, o)[k] == links[k]
    decreases |labels|
  {
    hide Put;
    if labels != [] {
      var p := KeyRef(plate, labels[0]);
      assert p != k;
      PutAllElsewhere(if p in links then links[p := Put(links[p], m, o)] else links, plate, labels[1..], m, o, k);
    }
  }

  /** All that one pass has kept when it is part of the way. */
  ghost predicate OnTheWay(before: Links, links: Links) {
    AllSingle(links) && Grown(before, links) && OnlyMirrored(before, links) && OnlyCopied(before, links)
  }

  lemma SetOut(links: Links)
    requires AllSingle(links)
    ensures OnTheWay(links, links)
  {
    hide Single, Has, Peers;
  }

  ghost predicate StillClosed(before: Links, links: Links) {
    forall k :: k in before && SpreadFrom(before, k) ==> SpreadFrom(links, k)
  }

  /** The outputs of a key's first blocks, and of a block's first outputs, are spread. */
  ghost predicate SpreadUpTo(links: Links, s: KeyRef, blocks: seq<Block>, i: nat, j: nat)
    requires i <= |blocks| && (i < |blocks| ==> j <= |blocks[i].outputs|)
  {
    && (forall x, y :: 0 <= x < i && 0 <= y < |blocks[x].outputs| ==> Spread(links, s, blocks[x].moduleAddress, blocks[x].outputs[y].key))
    && (i < |blocks| ==> forall y :: 0 <= y < j ==> Spread(links, s, blocks[i].moduleAddress, blocks[i].outputs[y].key))
  }

  /** One more output of a key copied to its peers. */
  lemma PassOutput(before: Links, start: Links, links: Links, s: KeyRef, blocks: seq<Block>, i: nat, j: nat)
    requires OnTheWay(before, links) && StillClosed(start, links) && start.Keys == links.Keys && s in links
    requires links[s] == blocks
    requires i < |blocks| && j < |blocks[i].outputs| && SpreadUpTo(links, s, blocks, i, j)
    ensures var o := blocks[i].outputs[j];
      var after := PutAll(links, s.plate, Peers(s.name, o.key.mode), blocks[i].moduleAddress, o);
      OnTheWay(before, after) && StillClosed(start, after) && after[s] == blocks && SpreadUpTo(after, s, blocks, i, j + 1)
  {
    hide Grown, OnlyMirrored, OnlyCopied, PutAll, Peers, SpreadFrom, Spread;
    var m, o := blocks[i].moduleAddress, blocks[i].outputs[j];
    var after := PutAll(links, s.plate, Peers(s.name, o.key.mode), m, o);
    SingleView(blocks, i);
    assert Present(links, s, m, o.key);
    assert Stored(links, s, m, o);
    hide Present, Stored, Single;
    KeysKept(before, links);
    MirrorCopies(before, links, s, m, o);
    NeverOwnPeer(s.name, o.key.mode);
    PutAllElsewhere(links, s.plate, Peers(s.name, o.key.mode), m, o, s);
    PutAllSingle(links, s.plate, Peers(s.name, o.key.mode), m, o);
    MirrorGrows(before, links, s, m, o);
    MirrorOne(links, s, m, o);
    forall k, m', d | Present(links, k, m', d) ensures Present(after, k, m', d) {
      PutAllPresent(links, s.plate, Peers(s.name, o.key.mode), m, o, k, m', d);
    }
    forall m', d | Spread(links, s, m', d) ensures Spread(after, s, m', d) {
      SpreadStays(links, after, s, m', d);
    }
  }

  lemma KeysKept(before: Links, links: Links)
    requires Grown(before, links)
    ensures links.Keys == before.Keys
  {
  }

  /** A key whose outputs are all spread. */
  lemma KeyIsSpread(links: Links, s: KeyRef)
    requires s in links && SpreadUpTo(links, s, links[s], |links[s]|, 0)
    ensures SpreadFrom(links, s)
  {
    hide Spread;
    forall m, d | Present(links, s, m, d) ensures Spread(links, s, m, d) {
      var x := FindBlock(links[s], m);
      var y :| 0 <= y < |links[s][x].outputs| && links[s][x].outputs[y].key == d;
    }
  }

  /** On a key already spread there is nothing to copy. */
  lemma NothingToCopy(links: Links, s: KeyRef, i: nat, j: nat)
    requires AllSingle(links) && s in links && SpreadFrom(links, s) && i < |links[s]| && j < |links[s][i].outputs|
    ensures Spread(links, s, links[s][i].moduleAddress, links[s][i].outputs[j].key)
  {
    hide Spread, Single;
    SingleView(links[s], i);
    assert Present(links, s, links[s][i].moduleAddress, links[s][i].outputs[j].key);
  }

  /** Any of the keys a loop has not been through yet. */
  method Next(left: set<KeyRef>) returns (k: KeyRef)
    requires left != {}
    ensures k in left
  {
    k :| k in left;
  }

  class ButtonLinks {
    var links: Links

    constructor (initial: Links)
      ensures links == initial
    {
      links := initial;
    }

    /** An output copied to one key unless one with its dedupe key is there. */
    method CopyTo(k: KeyRef, m: nat, o: Output) returns (added: nat)
      requires k in links
      modifies this
      ensures links == old(links)[k := Put(old(links)[k], m, o)]
      ensures added == if Has(old(links)[k], m, o.key) then 0 else 1
      ensures added == 0 ==> links == old(links)
      ensures added == Total(links) - Total(old(links))
    {
      hide Total;
      var blocks := links[k];
      FilingCounts(blocks, m, o);
      TotalChanged(links, k, Put(blocks, m, o));
      var i := 0;
      while i < |blocks| && blocks[i].moduleAddress != m
        invariant 0 <= i <= |blocks| && forall j :: 0 <= j < i ==> blocks[j].moduleAddress != m
      {
        i := i + 1;
      }
      assert FindBlock(blocks, m) == i by {
        if i < |blocks| { FindUnique(blocks, m, i); }
      }
      if i == |blocks| {
        blocks := blocks + [Block(m, [])];
      }
      var outputs := blocks[i].outputs;
      for j := 0 to |outputs|
        invariant forall x :: 0 <= x < j ==> outputs[x].key != o.key
      {
        if outputs[j].key == o.key {
          assert links[k := Put(links[k], m, o)] == links;
          return 0;
        }
      }
      assert [] + [o] == [o];
      blocks := blocks[i := Block(m, outputs + [o])];
      assert !Has(links[k], m, o.key);
      assert blocks == Put(links[k], m, o);
      links := links[k := blocks];
      return 1;
    }

    /** One output copied to the peers of its key. */
    method MirrorOutput(s: KeyRef, m: nat, o: Output) returns (added: nat)
      modifies this
      ensures links == PutAll(old(links), s.plate, Peers(s.name, o.key.mode), m, o)
      ensures added == 0 ==> links == old(links)
      ensures added == Total(links) - Total(old(links))
      ensures Spread(old(links), s, m, o.key) ==> added == 0
    {
      hide Put, Peers, Total;
      added := 0;
      var peers := Peers(s.name, o.key.mode);
      assert peers[0..] == peers;
      for i := 0 to |peers|
        invariant PutAll(links, s.plate, peers[i..], m, o) == PutAll(old(links), s.plate, peers, m, o)
        invariant links.Keys == old(links).Keys && (added == 0 ==> links == old(links))
        invariant added == Total(links) - Total(old(links))
        invariant Spread(old(links), s, m, o.key) ==> added == 0
      {
        var peer := KeyRef(s.plate, peers[i]);
        assert peers[i..][1..] == peers[i + 1..];
        if peer in links {
          assert peers[i] in peers;
          var n := CopyTo(peer, m, o);
          added := added + n;
        }
      }
    }

    /** Every output of one key copied to its peers. */
    method MirrorKey(s: KeyRef, ghost before: Links) returns (added: nat)
      requires s in links && OnTheWay(before, links)
      modifies this
      ensures OnTheWay(before, links) && links.Keys == old(links).Keys && StillClosed(old(links), links)
      ensures SpreadFrom(links, s)
      ensures added == 0 ==> links == old(links)
      ensures added == Total(links) - Total(old(links))
      ensures SpreadFrom(old(links), s) ==> added == 0
    {
      hide Peers, PutAll, Spread, SpreadFrom, Grown, OnlyMirrored, OnlyCopied, Single, Total;
      added := 0;
      var blocks := links[s];
      var i := 0;
      while i < |blocks|
        invariant 0 <= i <= |blocks| && links.Keys == old(links).Keys && links[s] == blocks
        invariant OnTheWay(before, links) && StillClosed(old(links), links) && SpreadUpTo(links, s, blocks, i, 0)
        invariant (added == 0 ==> links == old(links)) && (SpreadFrom(old(links), s) ==> added == 0)
        invariant added == Total(links) - Total(old(links))
      {
        var outputs := blocks[i].outputs;
        var j := 0;
        while j < |outputs|
          invariant 0 <= j <= |outputs| && links.Keys == old(links).Keys && links[s] == blocks
          invariant OnTheWay(before, links) && StillClosed(old(links), links) && SpreadUpTo(links, s, blocks, i, j)
          invariant (added == 0 ==> links == old(links)) && (SpreadFrom(old(links), s) ==> added == 0)
          invariant added == Total(links) - Total(old(links))
        {
          if SpreadFrom(old(links), s) {
            NothingToCopy(links, s, i, j);
          }
          PassOutput(before, old(links), links, s, blocks, i, j);
          var n := MirrorOutput(s, blocks[i].moduleAddress, outputs[j]);
          added := added + n;
          j := j + 1;
        }
        i := i + 1;
      }
      KeyIsSpread(links, s);
    }

    /** `_mirror_paired_button_links`, whatever the order of the keys: one pass reaches the
        fixpoint, removes and alters nothing, and a second pass adds nothing. */
    method MirrorPairedButtonLinks() returns (added: nat)
      requires AllSingle(links)
      modifies this
      ensures Mirrored(old(links), links, added)
    {
      hide SpreadFrom, Grown, OnlyMirrored, OnlyCopied, Single, Total;
      added := 0;
      var left := links.Keys;
      SetOut(links);
      while left != {}
        invariant left <= links.Keys && links.Keys == old(links).Keys && OnTheWay(old(links), links)
        invariant forall k :: k in links && k !in left ==> SpreadFrom(links, k)
        invariant (added == 0 ==> links == old(links)) && (Closed(old(links)) ==> added == 0)
        invariant added == Total(links) - Total(old(links))
        decreases |left|
      {
        var s := Next(left);
        var n := MirrorKey(s, old(links));
        added := added + n;
        left := left - {s};
      }
    }
  }
}
