/** Records of a scan merged into the store (`discovery/fileio.py`, `merge_linked_modules`). */
module LinkMerge {
  import opened Wrappers
  import opened LinkBlocks
  import opened LinkStore

  /** One decoded record: the output module it drives and what is stored of it. */
  datatype Record = Record(moduleAddress: nat, output: Output)

  /** The records of one mapping key, and the stored key they resolve to, if any. */
  datatype Entry = Entry(target: Option<KeyRef>, records: seq<Record>)

  predicate FromRegistry(s: Source) {
    s == PcLinkRegistry || s == PcLogicRegistry
  }

  /** A controller's copy of a record is skipped for a module whose own table was read in full. */
  predicate Counts(r: Record, authoritative: set<nat>) {
    !(FromRegistry(r.output.source) && r.moduleAddress in authoritative)
  }

  function Kept(records: seq<Record>, authoritative: set<nat>): (r: seq<Record>)
    ensures forall x :: x in r <==> x in records && Counts(x, authoritative)
  {
    if records == [] then []
    else if Counts(records[0], authoritative) then [records[0]] + Kept(records[1..], authoritative)
    else Kept(records[1..], authoritative)
  }

  function MergeRecords(blocks: seq<Block>, records: seq<Record>): seq<Block>
    decreases |records|
  {
    if records == [] then blocks else MergeRecords(Merge(blocks, records[0].moduleAddress, records[0].output), records[1..])
  }

  /** Blocks and outputs that merging the records adds. */
  function Added(blocks: seq<Block>, records: seq<Record>): (nat, nat)
    decreases |records|
  {
    if records == [] then (0, 0)
    else
      var r := records[0];
      var (links, outputs) := Added(Merge(blocks, r.moduleAddress, r.output), records[1..]);
      (links + if FindBlock(blocks, r.moduleAddress) == |blocks| then 1 else 0, outputs + if Has(blocks, r.moduleAddress, r.output.key) then 0 else 1)
  }

  predicate Lands(links: Links, e: Entry) {
    e.target.Some? && e.target.value in links
  }

  function MergeEntry(links: Links, e: Entry, authoritative: set<nat>): (r: Links)
    ensures r.Keys == links.Keys
  {
    if Lands(links, e) then links[e.target.value := MergeRecords(links[e.target.value], Kept(e.records, authoritative))] else links
  }

  function MergeAll(links: Links, mapping: seq<Entry>, authoritative: set<nat>): (r: Links)
    ensures r.Keys == links.Keys
    decreases |mapping|
  {
    if mapping == [] then links else MergeAll(MergeEntry(links, mapping[0], authoritative), mapping[1..], authoritative)
  }

  function AddedBy(links: Links, e: Entry, authoritative: set<nat>): (nat, nat) {
    if Lands(links, e) then Added(links[e.target.value], Kept(e.records, authoritative)) else (0, 0)
  }

  function AddedByAll(links: Links, mapping: seq<Entry>, authoritative: set<nat>): (nat, nat)
    decreases |mapping|
  {
    if mapping == [] then (0, 0)
    else
      var (l, o) := AddedBy(links, mapping[0], authoritative);
      var (ls, os) := AddedByAll(MergeEntry(links, mapping[0], authoritative), mapping[1..], authoritative);
      (l + ls, o + os)
  }

  /** What a merge does: every record filed in order, then one mirror pass. */
  ghost predicate MergeResult(before: Links, mapping: seq<Entry>, authoritative: set<nat>, after: Links, linksAdded: nat, outputsAdded: nat) {
    var (l, o) := AddedByAll(before, mapping, authoritative);
    linksAdded == l && outputsAdded >= o && Mirrored(MergeAll(before, mapping, authoritative), after, outputsAdded - o)
  }

  // ---- tidiness is kept --------------------------------------------------------------------------

  lemma {:induction false} MergeRecordsTidy(blocks: seq<Block>, records: seq<Record>)
    requires Tidy(blocks)
    ensures Tidy(MergeRecords(blocks, records))
    decreases |records|
  {
    hide Tidy, Merge;
    if records != [] {
      FilingKeepsTidy(blocks, records[0].moduleAddress, records[0].output);
      MergeRecordsTidy(Merge(blocks, records[0].moduleAddress, records[0].output), records[1..]);
    }
  }

  lemma {:induction false} MergeRecordsSingle(blocks: seq<Block>, records: seq<Record>)
    requires Single(blocks)
    ensures Single(MergeRecords(blocks, records))
    decreases |records|
  {
    hide Single, Merge;
    if records != [] {
      FilingKeepsSingle(blocks, records[0].moduleAddress, records[0].output);
      MergeRecordsSingle(Merge(blocks, records[0].moduleAddress, records[0].output), records[1..]);
    }
  }

  lemma {:induction false} MergeAllSingle(links: Links, mapping: seq<Entry>, authoritative: set<nat>)
    requires AllSingle(links)
    ensures AllSingle(MergeAll(links, mapping, authoritative))
    decreases |mapping|
  {
    hide Single, MergeRecords;
    if mapping != [] {
      if Lands(links, mapping[0]) {
        MergeRecordsSingle(links[mapping[0].target.value], Kept(mapping[0].records, authoritative));
      }
      MergeAllSingle(MergeEntry(links, mapping[0], authoritative), mapping[1..], authoritative);
    }
  }

  lemma {:induction false} RecordsCount(blocks: seq<Block>, records: seq<Record>)
    ensures Count(MergeRecords(blocks, records)) == Count(blocks) + Added(blocks, records).1
    decreases |records|
  {
    hide Count, Merge, Has;
    if records != [] {
      FilingCounts(blocks, records[0].moduleAddress, records[0].output);
      RecordsCount(Merge(blocks, records[0].moduleAddress, records[0].output), records[1..]);
    }
  }

  lemma {:induction false} MappingCounts(links: Links, mapping: seq<Entry>, authoritative: set<nat>)
    ensures Total(MergeAll(links, mapping, authoritative)) == Total(links) + AddedByAll(links, mapping, authoritative).1
    decreases |mapping|
  {
    hide Total, Count, Added, MergeRecords;
    if mapping != [] {
      if Lands(links, mapping[0]) {
        var k, records := mapping[0].target.value, Kept(mapping[0].records, authoritative);
        RecordsCount(links[k], records);
        TotalChanged(links, k, MergeRecords(links[k], records));
      }
      MappingCounts(MergeEntry(links, mapping[0], authoritative), mapping[1..], authoritative);
    }
  }

  /** The outputs a merge reports are the outputs the store has more, mirrored ones included. */
  lemma MergeCounts(before: Links, mapping: seq<Entry>, authoritative: set<nat>, after: Links, linksAdded: nat, outputsAdded: nat)
    requires MergeResult(before, mapping, authoritative, after, linksAdded, outputsAdded)
    ensures outputsAdded == Total(after) - Total(before)
  {
    hide Total, MergeAll, AddedByAll, AllSingle, Grown, OnlyMirrored, Closed;
    MappingCounts(before, mapping, authoritative);
  }

  /** A merge keeps one block per module, and no output twice in a block where there was none. */
  lemma MergeKeepsTidy(before: Links, mapping: seq<Entry>, authoritative: set<nat>, after: Links, linksAdded: nat, outputsAdded: nat)
    requires AllSingle(before) && MergeResult(before, mapping, authoritative, after, linksAdded, outputsAdded)
    ensures AllSingle(after) && (AllTidy(before) ==> AllTidy(after))
  {
    hide AllTidy, Total, MergeAll, AddedByAll, Grown, OnlyMirrored, Closed;
    if AllTidy(before) {
      MergeAllTidy(before, mapping, authoritative);
      MirrorKeepsTidy(MergeAll(before, mapping, authoritative), after);
    }
  }

  lemma {:induction false} MergeAllTidy(links: Links, mapping: seq<Entry>, authoritative: set<nat>)
    requires AllTidy(links)
    ensures AllTidy(MergeAll(links, mapping, authoritative))
    decreases |mapping|
  {
    hide Tidy, MergeRecords;
    if mapping != [] {
      if Lands(links, mapping[0]) {
        MergeRecordsTidy(links[mapping[0].target.value], Kept(mapping[0].records, authoritative));
      }
      MergeAllTidy(MergeEntry(links, mapping[0], authoritative), mapping[1..], authoritative);
    }
  }

  // ---- the loops ---------------------------------------------------------------------------------

  /** The provenance of every stored copy of a record read from its own module's table. */
  method Upgrade(outputs: seq<Output>, d: DedupeKey) returns (r: seq<Output>)
    ensures r == Upgraded(outputs, d)
  {
    r := outputs;
    for j := 0 to |outputs|
      invariant |r| == |outputs|
      invariant forall x :: 0 <= x < |r| ==> r[x] == if x < j then Upgraded(outputs, d)[x] else outputs[x]
    {
      if r[j].key == d && r[j].source != ModuleTable {
        r := r[j := r[j].(source := ModuleTable)];
      }
    }
  }

  /** One record into the blocks of its key. */
  method FileRecord(blocks: seq<Block>, r: Record) returns (after: seq<Block>, link: nat, output: nat)
    ensures after == Merge(blocks, r.moduleAddress, r.output)
    ensures link == if FindBlock(blocks, r.moduleAddress) == |blocks| then 1 else 0
    ensures output == if Has(blocks, r.moduleAddress, r.output.key) then 0 else 1
  {
    var m, o := r.moduleAddress, r.output;
    after, link := blocks, 0;
    var i := 0;
    while i < |blocks| && blocks[i].moduleAddress != m
      invariant 0 <= i <= |blocks| && forall j :: 0 <= j < i ==> blocks[j].moduleAddress != m
    {
      i := i + 1;
    }
    assert FindBlock(blocks, m) == i by {
      if i < |blocks| { FindUnique(blocks, m, i); }
    }
    if i == |blocks| {
      after := after + [Block(m, [])];
      link := 1;
    }
    var outputs := after[i].outputs;
    var found := false;
    for j := 0 to |outputs|
      invariant found <==> exists x :: 0 <= x < j && outputs[x].key == o.key
    {
      found := found || outputs[j].key == o.key;
    }
    if !found {
      assert [] + [o] == [o];
      after := after[i := Block(m, outputs + [o])];
      return after, link, 1;
    }
    output := 0;
    if o.source == ModuleTable {
      outputs := Upgrade(outputs, o.key);
      after := after[i := Block(m, outputs)];
    }
  }

  /** `merge_linked_modules`, the records' keys resolved; lists are kept unsorted. */
  method MergeLinkedModules(store: ButtonLinks, mapping: seq<Entry>, authoritative: set<nat>) returns (linksAdded: nat, outputsAdded: nat)
    requires AllSingle(store.links)
    modifies store
    ensures MergeResult(old(store.links), mapping, authoritative, store.links, linksAdded, outputsAdded)
  {
    hide Merge, Single, Mirrored, Added, MergeRecords;
    linksAdded, outputsAdded := 0, 0;
    MergeAllSingle(store.links, mapping, authoritative);
    assert mapping[0..] == mapping;
    ghost var (l, o) := AddedByAll(store.links, mapping, authoritative);
    for i := 0 to |mapping|
      invariant MergeAll(store.links, mapping[i..], authoritative) == MergeAll(old(store.links), mapping, authoritative)
      invariant var (ls, os) := AddedByAll(store.links, mapping[i..], authoritative); linksAdded + ls == l && outputsAdded + os == o
    {
      assert mapping[i..][0] == mapping[i] && mapping[i..][1..] == mapping[i + 1..];
      if mapping[i].target.Some? && mapping[i].target.value in store.links {
        var k := mapping[i].target.value;
        var blocks, links, outputs := FileRecords(store.links[k], mapping[i].records, authoritative);
        store.links := store.links[k := blocks];
        linksAdded, outputsAdded := linksAdded + links, outputsAdded + outputs;
      }
    }
    var mirrored := store.MirrorPairedButtonLinks();
    outputsAdded := outputsAdded + mirrored;
  }

  /** The records of one mapping key, those that count. */
  method FileRecords(blocks: seq<Block>, records: seq<Record>, authoritative: set<nat>) returns (after: seq<Block>, links: nat, outputs: nat)
    ensures after == MergeRecords(blocks, Kept(records, authoritative))
    ensures (links, outputs) == Added(blocks, Kept(records, authoritative))
  {
    hide Merge, Has;
    after, links, outputs := blocks, 0, 0;
    assert records[0..] == records;
    for i := 0 to |records|
      invariant MergeRecords(after, Kept(records[i..], authoritative)) == MergeRecords(blocks, Kept(records, authoritative))
      invariant var (ls, os) := Added(after, Kept(records[i..], authoritative)); (links + ls, outputs + os) == Added(blocks, Kept(records, authoritative))
    {
      assert records[i..][1..] == records[i + 1..];
      KeptOneMore(records[i..], authoritative);
      if !(FromRegistry(records[i].output.source) && records[i].moduleAddress in authoritative) {
        var link, output;
        after, link, output := FileRecord(after, records[i]);
        links, outputs := links + link, outputs + output;
      }
    }
  }

  lemma KeptOneMore(records: seq<Record>, authoritative: set<nat>)
    requires records != []
    ensures Kept(records, authoritative) ==
      if Counts(records[0], authoritative) then [records[0]] + Kept(records[1..], authoritative) else Kept(records[1..], authoritative)
    ensures Counts(records[0], authoritative) ==>
      Kept(records, authoritative)[0] == records[0] && Kept(records, authoritative)[1..] == Kept(records[1..], authoritative)
  {
  }

  // ---- merging twice -----------------------------------------------------------------------------

  /** The record is stored, with the provenance it gives. */
  ghost predicate Absorbed(blocks: seq<Block>, r: Record) {
    && Has(blocks, r.moduleAddress, r.output.key)
    && (r.output.source == ModuleTable ==> AllFromTable(OutputsAt(blocks, r.moduleAddress).value, r.output.key))
  }

  ghost predicate AllFromTable(outputs: seq<Output>, d: DedupeKey) {
    forall i :: 0 <= i < |outputs| && outputs[i].key == d ==> outputs[i].source == ModuleTable
  }

  lemma MergedFromTable(outputs: seq<Output>, o: Output, d: DedupeKey)
    ensures (HasKey(outputs, d) || d != o.key || o.source == ModuleTable) && AllFromTable(outputs, d) ==>
      AllFromTable(Merged(outputs, o), d)
    ensures o.source == ModuleTable ==> AllFromTable(Merged(outputs, o), o.key)
  {
  }

  lemma MergeAbsorbs(blocks: seq<Block>, r: Record)
    ensures Absorbed(Merge(blocks, r.moduleAddress, r.output), r)
  {
    hide Merge, Merged, AllFromTable, HasKey, OutputsAt;
    var m, o := r.moduleAddress, r.output;
    MergeView(blocks, m, o, m);
    MergedKeys(Or(OutputsAt(blocks, m), []), o, o.key);
    MergedFromTable(Or(OutputsAt(blocks, m), []), o, o.key);
  }

  lemma AbsorbedStays(blocks: seq<Block>, r: Record, other: Record)
    requires Absorbed(blocks, r)
    ensures Absorbed(Merge(blocks, other.moduleAddress, other.output), r)
  {
    hide Merge, Merged, AllFromTable, HasKey, OutputsAt;
    MergeView(blocks, other.moduleAddress, other.output, r.moduleAddress);
    if other.moduleAddress == r.moduleAddress {
      MergedKeys(OutputsAt(blocks, r.moduleAddress).value, other.output, r.output.key);
      MergedFromTable(OutputsAt(blocks, r.moduleAddress).value, other.output, r.output.key);
    }
  }

  /** Merging a record that is stored already changes nothing. */
  lemma AbsorbedAgain(blocks: seq<Block>, r: Record)
    requires Absorbed(blocks, r)
    ensures Merge(blocks, r.moduleAddress, r.output) == blocks
    ensures FindBlock(blocks, r.moduleAddress) < |blocks| && Has(blocks, r.moduleAddress, r.output.key)
  {
    var i := FindBlock(blocks, r.moduleAddress);
    if r.output.source == ModuleTable {
      assert Upgraded(blocks[i].outputs, r.output.key) == blocks[i].outputs;
    }
  }

  lemma {:induction false} RecordsKeepAbsorbed(blocks: seq<Block>, records: seq<Record>, r: Record)
    requires Absorbed(blocks, r)
    ensures Absorbed(MergeRecords(blocks, records), r)
    decreases |records|
  {
    hide Absorbed, Merge;
    if records != [] {
      AbsorbedStays(blocks, r, records[0]);
      RecordsKeepAbsorbed(Merge(blocks, records[0].moduleAddress, records[0].output), records[1..], r);
    }
  }

  ghost predicate AllAbsorbed(blocks: seq<Block>, records: seq<Record>) {
    forall r :: r in records ==> Absorbed(blocks, r)
  }

  lemma {:induction false} RecordsAbsorbed(blocks: seq<Block>, records: seq<Record>)
    ensures AllAbsorbed(MergeRecords(blocks, records), records)
    decreases |records|
  {
    hide Absorbed, Merge;
    if records != [] {
      var next := Merge(blocks, records[0].moduleAddress, records[0].output);
      MergeAbsorbs(blocks, records[0]);
      RecordsKeepAbsorbed(next, records[1..], records[0]);
      RecordsAbsorbed(next, records[1..]);
      assert forall r :: r in records ==> r == records[0] || r in records[1..];
    }
  }

  lemma {:induction false} RecordsAgain(blocks: seq<Block>, records: seq<Record>)
    requires AllAbsorbed(blocks, records)
    ensures MergeRecords(blocks, records) == blocks && Added(blocks, records) == (0, 0)
    decreases |records|
  {
    hide Absorbed, Merge, Has;
    if records != [] {
      assert records[0] in records;
      AbsorbedAgain(blocks, records[0]);
      assert forall r :: r in records[1..] ==> r in records;
      RecordsAgain(blocks, records[1..]);
    }
  }

  ghost predicate EntryAbsorbed(links: Links, e: Entry, authoritative: set<nat>) {
    Lands(links, e) ==> AllAbsorbed(links[e.target.value], Kept(e.records, authoritative))
  }

  lemma EntryStays(links: Links, e: Entry, other: Entry, authoritative: set<nat>)
    requires EntryAbsorbed(links, e, authoritative)
    ensures EntryAbsorbed(MergeEntry(links, other, authoritative), e, authoritative)
  {
    hide Absorbed, MergeRecords;
    if Lands(links, e) && Lands(links, other) && other.target == e.target {
      var k := e.target.value;
      forall r | r in Kept(e.records, authoritative) ensures Absorbed(MergeRecords(links[k], Kept(other.records, authoritative)), r) {
        RecordsKeepAbsorbed(links[k], Kept(other.records, authoritative), r);
      }
    }
  }

  lemma {:induction false} MappingStays(links: Links, mapping: seq<Entry>, e: Entry, authoritative: set<nat>)
    requires EntryAbsorbed(links, e, authoritative)
    ensures EntryAbsorbed(MergeAll(links, mapping, authoritative), e, authoritative)
    decreases |mapping|
  {
    hide EntryAbsorbed, MergeEntry;
    if mapping != [] {
      EntryStays(links, e, mapping[0], authoritative);
      MappingStays(MergeEntry(links, mapping[0], authoritative), mapping[1..], e, authoritative);
    }
  }

  lemma {:induction false} MappingAbsorbed(links: Links, mapping: seq<Entry>, e: Entry, authoritative: set<nat>)
    requires e in mapping
    ensures EntryAbsorbed(MergeAll(links, mapping, authoritative), e, authoritative)
    decreases |mapping|
  {
    hide EntryAbsorbed, MergeEntry;
    var next := MergeEntry(links, mapping[0], authoritative);
    if e == mapping[0] {
      EntryMerged(links, e, authoritative);
      MappingStays(next, mapping[1..], e, authoritative);
    } else {
      MappingAbsorbed(next, mapping[1..], e, authoritative);
    }
  }

  lemma EntryMerged(links: Links, e: Entry, authoritative: set<nat>)
    ensures EntryAbsorbed(MergeEntry(links, e, authoritative), e, authoritative)
  {
    hide AllAbsorbed, MergeRecords;
    if Lands(links, e) {
      RecordsAbsorbed(links[e.target.value], Kept(e.records, authoritative));
    }
  }

  /** The mirror pass keeps what is stored, its provenance too. */
  lemma MirrorKeepsAbsorbed(before: Links, after: Links, k: KeyRef, r: Record)
    requires Grown(before, after) && k in before && Absorbed(before[k], r)
    ensures Absorbed(after[k], r)
  {
    hide FindBlock;
    var m, d := r.moduleAddress, r.output.key;
    assert Longer(OutputsAt(before[k], m), OutputsAt(after[k], m));
    var early, late := OutputsAt(before[k], m).value, OutputsAt(after[k], m).value;
    var i :| 0 <= i < |early| && early[i].key == d;
    assert late[i] == early[i];
    forall j | 0 <= j < |late| && late[j].key == d && r.output.source == ModuleTable ensures late[j].source == ModuleTable {
      assert j < |early|;
      assert late[j] == early[j];
    }
  }

  lemma {:induction false} MappingAgain(links: Links, mapping: seq<Entry>, authoritative: set<nat>)
    requires forall e :: e in mapping ==> EntryAbsorbed(links, e, authoritative)
    ensures MergeAll(links, mapping, authoritative) == links && AddedByAll(links, mapping, authoritative) == (0, 0)
    decreases |mapping|
  {
    hide AllAbsorbed, MergeRecords, Added;
    if mapping != [] {
      var e := mapping[0];
      assert e in mapping && EntryAbsorbed(links, e, authoritative);
      if Lands(links, e) {
        RecordsAgain(links[e.target.value], Kept(e.records, authoritative));
      }
      assert MergeEntry(links, e, authoritative) == links;
      assert forall x :: x in mapping[1..] ==> x in mapping;
      MappingAgain(links, mapping[1..], authoritative);
    }
  }

  /** Merging the same mapping a second time adds no link and no output, and changes nothing. */
  lemma MergeTwiceAddsNothing(s0: Links, mapping: seq<Entry>, authoritative: set<nat>, s1: Links, l1: nat, o1: nat, s2: Links, l2: nat, o2: nat)
    requires AllSingle(s0) && MergeResult(s0, mapping, authoritative, s1, l1, o1)
    requires MergeResult(s1, mapping, authoritative, s2, l2, o2)
    ensures l2 == 0 && o2 == 0 && s2 == s1
  {
    hide Closed, OnlyMirrored, Single, Total, Absorbed, MergeAll, AddedByAll;
    var mid := MergeAll(s0, mapping, authoritative);
    forall e | e in mapping ensures EntryAbsorbed(s1, e, authoritative) {
      MappingAbsorbed(s0, mapping, e, authoritative);
      if Lands(s1, e) {
        forall r | r in Kept(e.records, authoritative) ensures Absorbed(s1[e.target.value], r) {
          MirrorKeepsAbsorbed(mid, s1, e.target.value, r);
        }
      }
    }
    MappingAgain(s1, mapping, authoritative);
  }
}
