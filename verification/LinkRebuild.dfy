/** A module's links rebuilt from its own table: what is stored of it goes, and only what the
    module holds comes back (`_rebuild_module_links`, `strip_module_links`). */
module LinkRebuild {
  import opened Wrappers
  import opened LinkBlocks
  import opened LinkStore
  import opened LinkMerge

  function Strip(links: Links, targets: set<nat>): (r: Links)
    ensures r.Keys == links.Keys
  {
    map k | k in links :: LinkBlocks.Without(links[k], targets)
  }

  /** The blocks of one key that stay, and the outputs that go with the others. */
  method KeepBlocks(blocks: seq<Block>, targets: set<nat>) returns (kept: seq<Block>, removed: nat)
    ensures kept == LinkBlocks.Without(blocks, targets)
    ensures removed == Count(blocks) - Count(kept)
  {
    kept, removed := [], 0;
    assert blocks[0..] == blocks;
    for i := 0 to |blocks|
      invariant kept + LinkBlocks.Without(blocks[i..], targets) == LinkBlocks.Without(blocks, targets)
      invariant removed + Count(kept) + Count(blocks[i..]) == Count(blocks)
    {
      assert blocks[i..][1..] == blocks[i + 1..];
      if blocks[i].moduleAddress in targets {
        removed := removed + |blocks[i].outputs|;
      } else {
        CountAdded(kept, blocks[i]);
        Shifted(kept, blocks[i], LinkBlocks.Without(blocks[i + 1..], targets));
        kept := kept + [blocks[i]];
      }
    }
  }

  lemma Shifted(kept: seq<Block>, b: Block, rest: seq<Block>)
    ensures kept + ([b] + rest) == (kept + [b]) + rest
  {
  }

  /** `strip_module_links`: how many outputs went. */
  method StripModuleLinks(store: ButtonLinks, targets: set<nat>) returns (removed: nat)
    modifies store
    ensures store.links == Strip(old(store.links), targets)
    ensures removed == Total(old(store.links)) - Total(store.links)
  {
    hide Total, Count;
    removed := 0;
    var left := store.links.Keys;
    while left != {}
      invariant left <= store.links.Keys && store.links.Keys == old(store.links).Keys
      invariant forall k :: k in store.links && k in left ==> store.links[k] == old(store.links)[k]
      invariant forall k :: k in store.links && k !in left ==>
        store.links[k] == LinkBlocks.Without(old(store.links)[k], targets)
      invariant removed == Total(old(store.links)) - Total(store.links)
      decreases |left|
    {
      var k := LinkStore.Next(left);
      var kept, gone := KeepBlocks(store.links[k], targets);
      TotalChanged(store.links, k, kept);
      store.links := store.links[k := kept];
      removed := removed + gone;
      left := left - {k};
    }
  }

  /** The module's own records of a mapping: those of its table, not a controller's copies. */
  function OwnRecords(records: seq<Record>, m: nat): (r: seq<Record>)
    ensures forall x :: x in r <==> x in records && x.moduleAddress == m && !FromRegistry(x.output.source)
  {
    if records == [] then []
    else if records[0].moduleAddress == m && !FromRegistry(records[0].output.source) then [records[0]] + OwnRecords(records[1..], m)
    else OwnRecords(records[1..], m)
  }

  function Own(mapping: seq<Entry>, m: nat): seq<Entry> {
    if mapping == [] then []
    else
      var mine := OwnRecords(mapping[0].records, m);
      (if mine == [] then [] else [mapping[0].(records := mine)]) + Own(mapping[1..], m)
  }

  /** `_rebuild_module_links` on the store. */
  method RebuildModuleLinks(store: ButtonLinks, mapping: seq<Entry>, m: nat, authoritative: set<nat>) returns (removed: nat, outputsAdded: nat)
    requires AllSingle(store.links)
    modifies store
    ensures Rebuilt(old(store.links), mapping, m, authoritative, store.links)
    ensures Total(store.links) == Total(old(store.links)) - removed + outputsAdded
  {
    hide MergeResult, Total;
    removed := StripModuleLinks(store, {m});
    StripSingle(old(store.links), {m});
    var linksAdded;
    linksAdded, outputsAdded := MergeLinkedModules(store, Own(mapping, m), authoritative);
    assert MergeResult(Strip(old(store.links), {m}), Own(mapping, m), authoritative, store.links, linksAdded, outputsAdded);
    MergeCounts(Strip(old(store.links), {m}), Own(mapping, m), authoritative, store.links, linksAdded, outputsAdded);
  }

  ghost predicate Rebuilt(before: Links, mapping: seq<Entry>, m: nat, authoritative: set<nat>, after: Links) {
    exists l, o :: MergeResult(Strip(before, {m}), Own(mapping, m), authoritative, after, l, o)
  }

  lemma StripSingle(links: Links, targets: set<nat>)
    requires AllSingle(links)
    ensures AllSingle(Strip(links, targets))
  {
    hide Single;
    forall k | k in links ensures Single(Strip(links, targets)[k]) {
      WithoutSingle(links[k], targets);
    }
  }

  // ---- what merging one module's records does -------------------------------------------------------

  ghost predicate OnlyModule(records: seq<Record>, m: nat) {
    forall r :: r in records ==> r.moduleAddress == m
  }

  predicate Holds(records: seq<Record>, d: DedupeKey) {
    exists i :: 0 <= i < |records| && records[i].output.key == d
  }

  /** They touch the module's own block only, and bring in exactly their own outputs. */
  lemma {:induction false} RecordsOfModule(blocks: seq<Block>, records: seq<Record>, m: nat, d: DedupeKey, m': nat)
    requires OnlyModule(records, m)
    ensures m' != m ==> OutputsAt(MergeRecords(blocks, records), m') == OutputsAt(blocks, m')
    ensures Has(MergeRecords(blocks, records), m, d) <==> Has(blocks, m, d) || Holds(records, d)
    decreases |records|
  {
    hide Merge, OutputsAt, HasKey;
    if records != [] {
      assert records[0] in records;
      var o := records[0].output;
      var next := Merge(blocks, m, o);
      MergeView(blocks, m, o, m');
      MergeView(blocks, m, o, m);
      MergedKeys(Or(OutputsAt(blocks, m), []), o, d);
      NothingInNone(d);
      assert forall r :: r in records[1..] ==> r in records;
      RecordsOfModule(next, records[1..], m, d, m');
      HoldsSplit(records, d);
    }
  }

  lemma HoldsSplit(records: seq<Record>, d: DedupeKey)
    requires records != []
    ensures Holds(records, d) <==> records[0].output.key == d || Holds(records[1..], d)
  {
    if Holds(records, d) && records[0].output.key != d {
      var i :| 0 <= i < |records| && records[i].output.key == d;
      assert records[1..][i - 1] == records[i];
    }
    if Holds(records[1..], d) {
      var i :| 0 <= i < |records[1..]| && records[1..][i].output.key == d;
      assert records[i + 1].output.key == d;
    }
  }

  ghost predicate OnlyModuleEntries(mapping: seq<Entry>, m: nat) {
    forall e :: e in mapping ==> OnlyModule(e.records, m)
  }

  /** A key some entry of the mapping resolves to, with a record of this output. */
  predicate Recorded(mapping: seq<Entry>, k: KeyRef, d: DedupeKey) {
    exists i :: 0 <= i < |mapping| && mapping[i].target == Some(k) && Holds(mapping[i].records, d)
  }

  lemma RecordedSplit(mapping: seq<Entry>, k: KeyRef, d: DedupeKey)
    requires mapping != []
    ensures Recorded(mapping, k, d) <==> (mapping[0].target == Some(k) && Holds(mapping[0].records, d)) || Recorded(mapping[1..], k, d)
  {
    hide Holds;
    if Recorded(mapping, k, d) {
      var i :| 0 <= i < |mapping| && mapping[i].target == Some(k) && Holds(mapping[i].records, d);
      assert i > 0 ==> mapping[1..][i - 1] == mapping[i];
    }
    if Recorded(mapping[1..], k, d) {
      var i :| 0 <= i < |mapping[1..]| && mapping[1..][i].target == Some(k) && Holds(mapping[1..][i].records, d);
      assert mapping[i + 1] == mapping[1..][i];
    }
  }

  /** No record of an output module's own table is skipped. */
  lemma {:induction false} KeptAll(records: seq<Record>, authoritative: set<nat>)
    requires forall r :: r in records ==> !FromRegistry(r.output.source)
    ensures Kept(records, authoritative) == records
    decreases |records|
  {
    if records != [] {
      assert records[0] in records && forall r :: r in records[1..] ==> r in records;
      KeptAll(records[1..], authoritative);
    }
  }

  lemma {:induction false} MappingOfModule(links: Links, mapping: seq<Entry>, authoritative: set<nat>, m: nat, k: KeyRef, d: DedupeKey, m': nat)
    requires k in links && OnlyModuleEntries(mapping, m) && forall e, r :: e in mapping && r in e.records ==> !FromRegistry(r.output.source)
    ensures m' != m ==> OutputsAt(MergeAll(links, mapping, authoritative)[k], m') == OutputsAt(links[k], m')
    ensures Has(MergeAll(links, mapping, authoritative)[k], m, d) <==> Has(links[k], m, d) || Recorded(mapping, k, d)
    decreases |mapping|
  {
    hide OutputsAt, HasKey, MergeRecords, Holds;
    if mapping != [] {
      var e := mapping[0];
      assert e in mapping;
      KeptAll(e.records, authoritative);
      var next := MergeEntry(links, e, authoritative);
      if e.target == Some(k) {
        RecordsOfModule(links[k], e.records, m, d, m');
      }
      assert forall x :: x in mapping[1..] ==> x in mapping;
      MappingOfModule(next, mapping[1..], authoritative, m, k, d, m');
      RecordedSplit(mapping, k, d);
    }
  }

  lemma {:induction false} OwnIsOwn(mapping: seq<Entry>, m: nat)
    ensures OnlyModuleEntries(Own(mapping, m), m)
    ensures forall e, r :: e in Own(mapping, m) && r in e.records ==> !FromRegistry(r.output.source)
    decreases |mapping|
  {
    if mapping != [] {
      OwnIsOwn(mapping[1..], m);
    }
  }

  // ---- the rebuild ---------------------------------------------------------------------------------

  /** Every output of the module is present on every existing peer. */
  ghost predicate ClosedFor(links: Links, m: nat) {
    forall k, d :: Present(links, k, m, d) ==> Spread(links, k, m, d)
  }

  /** A mirror pass that brings in no output of a block leaves the block as it was. */
  lemma NothingNewNothingChanged(before: Links, after: Links, k: KeyRef, m: nat)
    requires Grown(before, after) && k in before
    requires forall d :: Present(after, k, m, d) ==> Present(before, k, m, d)
    ensures OutputsAt(after[k], m) == OutputsAt(before[k], m)
  {
    hide FindBlock;
    var early, late := OutputsAt(before[k], m), OutputsAt(after[k], m);
    assert Longer(early, late);
    if late.Some? {
      var shown := Or(early, []);
      assert early.None? ==> late.value != [];
      forall d | HasKey(late.value, d) ensures HasKey(shown, d) {
        assert Present(after, k, m, d);
      }
      NewKeyIsNew(shown, late.value);
    }
  }

  /** The peer closure of the module's own resolved records. */
  ghost predicate InClosure(links: Links, mapping: seq<Entry>, k: KeyRef, d: DedupeKey) {
    Recorded(mapping, k, d) || exists s :: KeyRef(k.plate, s) in links && Recorded(mapping, KeyRef(k.plate, s), d) && k.name in Peers(s, d.mode)
  }

  /** The rebuild leaves exactly that closure for the module. */
  lemma RebuildLeavesOwn(before: Links, mapping: seq<Entry>, m: nat, authoritative: set<nat>, after: Links, k: KeyRef, d: DedupeKey)
    requires AllSingle(before) && Rebuilt(before, mapping, m, authoritative, after) && k in before
    ensures Present(after, k, m, d) <==> InClosure(before, Own(mapping, m), k, d)
  {
    hide AllSingle, Total, Peers, OutputsAt, HasKey, Recorded, MergeAll, AddedByAll;
    var own, stripped := Own(mapping, m), Strip(before, {m});
    var l, o :| MergeResult(stripped, own, authoritative, after, l, o);
    var mid := MergeAll(stripped, own, authoritative);
    OwnIsOwn(mapping, m);
    forall s | s in before ensures Present(mid, s, m, d) <==> Recorded(own, s, d) {
      MappingOfModule(stripped, own, authoritative, m, s, d, m);
      WithoutView(before[s], {m}, m);
    }
    if Present(after, k, m, d) && !Present(mid, k, m, d) {
      assert FromPeer(mid, k, m, d);
      var s :| KeyRef(k.plate, s) in mid && Present(mid, KeyRef(k.plate, s), m, d) && k.name in Peers(s, d.mode);
    }
    if Recorded(own, k, d) {
      StaysPresent(mid, after, k, m, d);
    } else if InClosure(before, own, k, d) {
      var s :| KeyRef(k.plate, s) in before && Recorded(own, KeyRef(k.plate, s), d) && k.name in Peers(s, d.mode);
      StaysPresent(mid, after, KeyRef(k.plate, s), m, d);
      assert Spread(after, KeyRef(k.plate, s), m, d);
      assert KeyRef(k.plate, k.name) == k;
    }
  }

  lemma StaysPresent(before: Links, after: Links, k: KeyRef, m: nat, d: DedupeKey)
    requires Grown(before, after) && Present(before, k, m, d)
    ensures Present(after, k, m, d)
  {
    hide FindBlock;
    assert Longer(OutputsAt(before[k], m), OutputsAt(after[k], m));
    var early, late := OutputsAt(before[k], m).value, OutputsAt(after[k], m).value;
    var i :| 0 <= i < |early| && early[i].key == d;
    assert late[i] == early[i];
  }

  /** A key's block of another module whose links were mirrored already stays as it was. */
  lemma MirroredModuleStays(before: Links, mapping: seq<Entry>, m: nat, authoritative: set<nat>, after: Links, k: KeyRef, other: nat)
    requires AllSingle(before) && Rebuilt(before, mapping, m, authoritative, after) && k in before && other != m
    requires ClosedFor(before, other)
    ensures OutputsAt(after[k], other) == OutputsAt(before[k], other)
  {
    hide AllSingle, Total, Peers, OutputsAt, HasKey, MergeAll, AddedByAll, Spread;
    var own, stripped := Own(mapping, m), Strip(before, {m});
    var l, o :| MergeResult(stripped, own, authoritative, after, l, o);
    var mid := MergeAll(stripped, own, authoritative);
    forall s | s in before ensures OutputsAt(mid[s], other) == OutputsAt(before[s], other) {
      OthersUntilMirror(before, mapping, m, authoritative, s, other);
    }
    forall d | Present(after, k, other, d) ensures Present(mid, k, other, d) {
      if !Present(mid, k, other, d) {
        assert FromPeer(mid, k, other, d);
        var s :| KeyRef(k.plate, s) in mid && Present(mid, KeyRef(k.plate, s), other, d) && k.name in Peers(s, d.mode);
        SpreadReaches(before, KeyRef(k.plate, s), k, other, d);
      }
    }
    assert OutputsAt(mid[k], other) == OutputsAt(before[k], other);
    NothingNewNothingChanged(mid, after, k, other);
  }

  /** The merge before the mirror pass leaves the other module's blocks alone. */
  lemma OthersUntilMirror(before: Links, mapping: seq<Entry>, m: nat, authoritative: set<nat>, k: KeyRef, other: nat)
    requires k in before && other != m
    ensures OutputsAt(MergeAll(Strip(before, {m}), Own(mapping, m), authoritative)[k], other) == OutputsAt(before[k], other)
  {
    hide OutputsAt, MergeAll;
    OwnIsOwn(mapping, m);
    var any := DedupeKey(0, "", None, None, None, None);
    MappingOfModule(Strip(before, {m}), Own(mapping, m), authoritative, m, k, any, other);
    WithoutView(before[k], {m}, other);
  }

  /** A rebuild leaves another module's blocks untouched if and only if that module's links were
      mirrored already: the merge ends with a mirror pass over the whole store. */
  lemma RebuildLeavesOthers(before: Links, mapping: seq<Entry>, m: nat, authoritative: set<nat>, after: Links, other: nat)
    requires AllSingle(before) && Rebuilt(before, mapping, m, authoritative, after) && other != m
    ensures (forall k :: k in before ==> OutputsAt(after[k], other) == OutputsAt(before[k], other)) <==> ClosedFor(before, other)
  {
    hide AllSingle, OutputsAt, Rebuilt, Spread, HasKey;
    RebuildKeepsTidy(before, mapping, m, authoritative, after);
    if ClosedFor(before, other) {
      forall k | k in before ensures OutputsAt(after[k], other) == OutputsAt(before[k], other) {
        MirroredModuleStays(before, mapping, m, authoritative, after, k, other);
      }
    }
    if forall k :: k in before ==> OutputsAt(after[k], other) == OutputsAt(before[k], other) {
      forall k, d | Present(before, k, other, d) ensures Spread(before, k, other, d) {
        assert Present(after, k, other, d) && SpreadFrom(after, k);
        SpreadSeenAlike(after, before, k, other, d);
      }
    }
  }

  lemma SpreadSeenAlike(after: Links, before: Links, k: KeyRef, m: nat, d: DedupeKey)
    requires Spread(after, k, m, d) && after.Keys == before.Keys
    requires forall s :: s in before ==> OutputsAt(after[s], m) == OutputsAt(before[s], m)
    ensures Spread(before, k, m, d)
  {
    hide Peers, OutputsAt, HasKey;
  }

  const LONE_OUTPUT: Output := Output(DedupeKey(1, "M01 (On / off)", None, None, None, None), ModuleTable, 0)

  /** Key 1A drives module 2; its pair, key 1B, drives nothing yet. */
  const UNMIRRORED: Links := map[KeyRef(0, Wall(1, A)) := [Block(2, [LONE_OUTPUT])], KeyRef(0, Wall(1, B)) := []]

  lemma UnmirroredStore()
    ensures AllTidy(UNMIRRORED) && Present(UNMIRRORED, KeyRef(0, Wall(1, A)), 2, LONE_OUTPUT.key)
    ensures OutputsAt(UNMIRRORED[KeyRef(0, Wall(1, B))], 2) == None
  {
    assert [LONE_OUTPUT][0].key == LONE_OUTPUT.key;
  }

  /** The pair of 1A, in a store that has it. */
  lemma PairOfFirst(links: Links, d: DedupeKey)
    requires KeyRef(0, Wall(1, B)) in links && d.mode in TWO_BUTTON_MODES
    ensures Spread(links, KeyRef(0, Wall(1, A)), 2, d) <==> Present(links, KeyRef(0, Wall(1, B)), 2, d)
  {
    hide Present;
    assert Pair(Wall(1, A)) == [Wall(1, B)];
    assert Wall(1, B) in Peers(Wall(1, A), d.mode);
  }

  /** Rebuilding module 1, of which nothing is stored and nothing was read, gives key 1B a link
      to module 2. */
  lemma RebuildChangesUnmirrored(authoritative: set<nat>, after: Links)
    requires Rebuilt(UNMIRRORED, [], 1, authoritative, after)
    ensures AllTidy(UNMIRRORED) && !ClosedFor(UNMIRRORED, 2)
    ensures OutputsAt(UNMIRRORED[KeyRef(0, Wall(1, B))], 2) == None
    ensures Present(after, KeyRef(0, Wall(1, B)), 2, LONE_OUTPUT.key)
  {
    hide Rebuilt, Spread, Tidy, Closed;
    var a, d := KeyRef(0, Wall(1, A)), LONE_OUTPUT.key;
    UnmirroredStore();
    PairOfFirst(UNMIRRORED, d);
    assert !Spread(UNMIRRORED, a, 2, d);
    TidyIsSingle(UNMIRRORED);
    RebuildKeepsTidy(UNMIRRORED, [], 1, authoritative, after);
    OneStays(UNMIRRORED, 1, authoritative, after, a, 2, d);
    ClosedSpreads(after, a, 2, d);
    PairOfFirst(after, d);
  }

  lemma TidyIsSingle(links: Links)
    requires AllTidy(links)
    ensures AllSingle(links)
  {
    hide Single, NoRepeats;
    forall k | k in links ensures Single(links[k]) {
      assert Tidy(links[k]);
    }
  }

  lemma ClosedSpreads(links: Links, k: KeyRef, m: nat, d: DedupeKey)
    requires Closed(links) && Present(links, k, m, d)
    ensures Spread(links, k, m, d)
  {
    hide Spread;
    assert SpreadFrom(links, k);
  }

  lemma OneStays(before: Links, m: nat, authoritative: set<nat>, after: Links, k: KeyRef, other: nat, d: DedupeKey)
    requires Rebuilt(before, [], m, authoritative, after) && Present(before, k, other, d) && other != m
    ensures Present(after, k, other, d)
  {
    hide AllSingle, OutputsAt, HasKey, MergeAll, AddedByAll, OnlyMirrored, Closed, Total;
    var l, o :| MergeResult(Strip(before, {m}), Own([], m), authoritative, after, l, o);
    OthersUntilMirror(before, [], m, authoritative, k, other);
    StaysPresent(MergeAll(Strip(before, {m}), Own([], m), authoritative), after, k, other, d);
  }

  lemma SpreadReaches(links: Links, s: KeyRef, k: KeyRef, m: nat, d: DedupeKey)
    requires ClosedFor(links, m) && Present(links, s, m, d) && s.plate == k.plate && k in links
    requires k.name in Peers(s.name, d.mode)
    ensures Present(links, k, m, d)
  {
    hide Peers, Has;
    assert Spread(links, s, m, d);
    assert KeyRef(s.plate, k.name) == k;
  }

  /** One block per module after a rebuild, no output twice where there was none, and every
      output on all peers of its key. */
  lemma RebuildKeepsTidy(before: Links, mapping: seq<Entry>, m: nat, authoritative: set<nat>, after: Links)
    requires AllSingle(before) && Rebuilt(before, mapping, m, authoritative, after)
    ensures AllSingle(after) && Closed(after) && after.Keys == before.Keys && (AllTidy(before) ==> AllTidy(after))
  {
    hide AllSingle, AllTidy, MergeAll, AddedByAll, SpreadFrom, Total;
    var own, stripped := Own(mapping, m), Strip(before, {m});
    var l, o :| MergeResult(stripped, own, authoritative, after, l, o);
    StripSingle(before, {m});
    MergeKeepsTidy(stripped, own, authoritative, after, l, o);
    if AllTidy(before) {
      StripTidy(before, {m});
    }
  }

  lemma StripTidy(links: Links, targets: set<nat>)
    requires AllTidy(links)
    ensures AllTidy(Strip(links, targets))
  {
    hide Single, NoRepeats;
    forall k | k in links ensures Tidy(Strip(links, targets)[k]) {
      assert Tidy(links[k]);
      WithoutSingle(links[k], targets);
      forall i | 0 <= i < |Strip(links, targets)[k]| ensures NoRepeats(Strip(links, targets)[k][i].outputs) {
        assert Strip(links, targets)[k][i] in links[k];
      }
    }
  }
}
