/** What a merge and a rebuild leave in the store, output by output: which records are filed, which
    copy of an output stays, and what it is said to come from. */
module LinkContents {
  import opened Wrappers
  import opened LinkBlocks
  import opened LinkStore
  import opened LinkMerge
  import opened LinkRebuild

  // ---- the keys a link is copied to ----------------------------------------------------------------

  /** Two keys that belong together, one step up and one step down. */
  predicate Rocker(name: Label, p: Label) {
    match (name, p)
    case (Wall(r, x), Wall(s, y)) =>
      r == s && ((1 <= r <= 4 && ((x == A && y == B) || (x == B && y == A))) || (1 <= r <= 2 && ((x == C && y == D) || (x == D && y == C))))
    case (Paged(c, r, x), Paged(d, s, y)) => c == d && r == s && 1 <= c <= 4 && 1 <= r <= 5 && ((x == A && y == B) || (x == B && y == A))
    case _ => false
  }

  /** The three modes of two keys copy to the other key of the rocker, the one mode of four keys from
      the first key of a row to the three others, and no other mode copies at all. */
  lemma PeersAre(name: Label, mode: string, p: Label)
    ensures p in Peers(name, mode) <==>
      || (mode in {"M01 (Dim on/off (2 buttons))", "M01 (Open - stop - close)", "M01 (On / off)"} && Rocker(name, p))
      || (mode == "M02 (Dim on/off (4 buttons))" &&
           ((name == Wall(1, A) && p in {Wall(1, B), Wall(1, C), Wall(1, D)}) || (name == Wall(2, A) && p in {Wall(2, B), Wall(2, C), Wall(2, D)})))
  {
    assert "M02 (Dim on/off (4 buttons))"[2] != "M01 (On / off)"[2];
    assert "M01 (Dim on/off (2 buttons))"[2] == '1' && "M01 (Open - stop - close)"[2] == '1';
    match name {
      case Wall(r, x) =>
      case Paged(c, r, x) =>
      case Named(_) =>
    }
  }

  // ---- one output of a block -----------------------------------------------------------------------

  /** The output of a dedupe key, the first if there are several. */
  function First(outputs: seq<Output>, d: DedupeKey): (o: Option<Output>)
    ensures o.Some? <==> HasKey(outputs, d)
    ensures o.Some? ==> o.value in outputs && o.value.key == d
  {
    if outputs == [] then None
    else if outputs[0].key == d then Some(outputs[0])
    else
      assert HasKey(outputs, d) <==> HasKey(outputs[1..], d) by { HasKeySplit(outputs, d); }
      First(outputs[1..], d)
  }

  lemma HasKeySplit(outputs: seq<Output>, d: DedupeKey)
    requires outputs != []
    ensures HasKey(outputs, d) <==> outputs[0].key == d || HasKey(outputs[1..], d)
  {
    if HasKey(outputs, d) && outputs[0].key != d {
      var i :| 0 <= i < |outputs| && outputs[i].key == d;
      assert outputs[1..][i - 1] == outputs[i];
    }
    if HasKey(outputs[1..], d) {
      var i :| 0 <= i < |outputs[1..]| && outputs[1..][i].key == d;
      assert outputs[i + 1] == outputs[1..][i];
    }
  }

  /** The stored output of a key's block for a module. */
  function OutputOf(links: Links, k: KeyRef, m: nat, d: DedupeKey): Option<Output> {
    if k in links then First(Or(OutputsAt(links[k], m), []), d) else None
  }

  /** What is left of several copies of one output: the first, from the module's table if any is. */
  function Surviving(was: Option<Output>, copies: seq<Output>): Option<Output> {
    var all := (if was.Some? then [was.value] else []) + copies;
    if all == [] then None
    else Some(all[0].(source := if FromTable(all) then ModuleTable else all[0].source))
  }

  predicate FromTable(copies: seq<Output>) {
    exists i :: 0 <= i < |copies| && copies[i].source == ModuleTable
  }

  lemma TableConcat(a: seq<Output>, b: seq<Output>)
    ensures FromTable(a + b) <==> FromTable(a) || FromTable(b)
  {
    assert forall i :: 0 <= i < |b| ==> (a + b)[|a| + i] == b[i];
    if FromTable(a) {
      var i :| 0 <= i < |a| && a[i].source == ModuleTable;
      assert (a + b)[i].source == ModuleTable;
    }
    if FromTable(b) {
      var i :| 0 <= i < |b| && b[i].source == ModuleTable;
      assert (a + b)[|a| + i].source == ModuleTable;
    }
    if FromTable(a + b) && !FromTable(a) {
      var i :| 0 <= i < |a + b| && (a + b)[i].source == ModuleTable;
      assert b[i - |a|].source == ModuleTable;
    }
  }

  lemma TableOne(o: Output)
    ensures FromTable([o]) <==> o.source == ModuleTable
  {
    assert [o][0] == o;
  }

  lemma {:induction false} FirstAppended(outputs: seq<Output>, o: Output, d: DedupeKey)
    ensures First(outputs + [o], d) == if HasKey(outputs, d) then First(outputs, d) else if o.key == d then Some(o) else None
    decreases |outputs|
  {
    if outputs == [] {
      assert [] + [o] == [o] && [o][1..] == [];
    } else {
      assert (outputs + [o])[1..] == outputs[1..] + [o];
      HasKeySplit(outputs, d);
      FirstAppended(outputs[1..], o, d);
    }
  }

  lemma {:induction false} FirstUpgraded(outputs: seq<Output>, u: DedupeKey, d: DedupeKey)
    ensures First(Upgraded(outputs, u), d) ==
      match First(outputs, d)
      case None => None
      case Some(o) => Some(if d == u then o.(source := ModuleTable) else o)
    decreases |outputs|
  {
    if outputs != [] {
      assert Upgraded(outputs, u)[1..] == Upgraded(outputs[1..], u);
      FirstUpgraded(outputs[1..], u, d);
    }
  }

  lemma OneCopy(was: Option<Output>, o: Output)
    ensures Surviving(was, [o]) == Some(
      match was
      case None => o
      case Some(x) => if o.source == ModuleTable then x.(source := ModuleTable) else x)
  {
    hide FromTable;
    TableOne(o);
    if was.Some? {
      TableOne(was.value);
      TableConcat([was.value], [o]);
    } else {
      assert [] + [o] == [o];
    }
  }

  lemma MergedContents(outputs: seq<Output>, o: Output, d: DedupeKey)
    ensures First(Merged(outputs, o), d) == if o.key == d then Surviving(First(outputs, d), [o]) else First(outputs, d)
  {
    hide Surviving, First;
    FirstAppended(outputs, o, d);
    FirstUpgraded(outputs, o.key, d);
    OneCopy(First(outputs, d), o);
  }

  lemma KeptNone(was: Option<Output>)
    ensures Surviving(was, []) == was
  {
    if was.Some? {
      TableOne(was.value);
      assert [was.value] + [] == [was.value];
    }
  }

  /** Copies may come in several goes. */
  lemma KeptAgain(was: Option<Output>, a: seq<Output>, b: seq<Output>)
    ensures Surviving(Surviving(was, a), b) == Surviving(was, a + b)
  {
    hide FromTable;
    var first := if was.Some? then [was.value] else [];
    var early := first + a;
    assert first + (a + b) == early + b;
    if early == [] {
      assert a + b == b;
    } else {
      var one := Surviving(was, a).value;
      assert (early + b)[0] == early[0];
      TableConcat(early, b);
      TableConcat([one], b);
      TableOne(one);
      if early[0].source == ModuleTable {
        FirstFromTable(early);
      }
    }
  }

  lemma FirstFromTable(copies: seq<Output>)
    requires copies != [] && copies[0].source == ModuleTable
    ensures FromTable(copies)
  {
  }

  // ---- the records a merge files -------------------------------------------------------------------

  /** The record is of this output, and no controller's copy for a module whose own table was read in
      full. */
  predicate Filed(r: Record, m: nat, d: DedupeKey, authoritative: set<nat>) {
    && r.moduleAddress == m && r.output.key == d
    && !((r.output.source == PcLinkRegistry || r.output.source == PcLogicRegistry) && m in authoritative)
  }

  function Copies(records: seq<Record>, m: nat, d: DedupeKey, authoritative: set<nat>): seq<Output> {
    if records == [] then []
    else (if Filed(records[0], m, d, authoritative) then [records[0].output] else []) + Copies(records[1..], m, d, authoritative)
  }

  function CopiesFor(mapping: seq<Entry>, k: KeyRef, m: nat, d: DedupeKey, authoritative: set<nat>): seq<Output> {
    if mapping == [] then []
    else
      (if mapping[0].target == Some(k) then Copies(mapping[0].records, m, d, authoritative) else [])
      + CopiesFor(mapping[1..], k, m, d, authoritative)
  }

  function BlockOutput(blocks: seq<Block>, m: nat, d: DedupeKey): Option<Output> {
    First(Or(OutputsAt(blocks, m), []), d)
  }

  lemma {:induction false} RecordsContents(blocks: seq<Block>, records: seq<Record>, m: nat, d: DedupeKey, authoritative: set<nat>)
    ensures BlockOutput(MergeRecords(blocks, LinkMerge.Kept(records, authoritative)), m, d)
      == Surviving(BlockOutput(blocks, m, d), Copies(records, m, d, authoritative))
    decreases |records|
  {
    hide Surviving, First, Merge, Merged, OutputsAt;
    if records == [] {
      KeptNone(BlockOutput(blocks, m, d));
    } else {
      var r := records[0];
      KeptOneMore(records, authoritative);
      var next := if Counts(r, authoritative) then Merge(blocks, r.moduleAddress, r.output) else blocks;
      RecordsContents(next, records[1..], m, d, authoritative);
      if Counts(r, authoritative) {
        MergeView(blocks, r.moduleAddress, r.output, m);
        if r.moduleAddress == m {
          MergedContents(Or(OutputsAt(blocks, m), []), r.output, d);
        }
      }
      var one := if Filed(r, m, d, authoritative) then [r.output] else [];
      KeptNone(BlockOutput(blocks, m, d));
      KeptAgain(BlockOutput(blocks, m, d), one, Copies(records[1..], m, d, authoritative));
    }
  }

  /** What a merge stores, before it copies to paired keys: of the output that was there and the
      records filed for it, in order, the first stays, and it is from the module's table if any is. */
  lemma {:induction false} MergeContents(links: Links, mapping: seq<Entry>, authoritative: set<nat>, k: KeyRef, m: nat, d: DedupeKey)
    requires k in links
    ensures OutputOf(MergeAll(links, mapping, authoritative), k, m, d)
      == Surviving(OutputOf(links, k, m, d), CopiesFor(mapping, k, m, d, authoritative))
    decreases |mapping|
  {
    hide Surviving, First, OutputsAt, MergeRecords, Copies;
    if mapping == [] {
      KeptNone(OutputOf(links, k, m, d));
    } else {
      var e := mapping[0];
      MergeContents(MergeEntry(links, e, authoritative), mapping[1..], authoritative, k, m, d);
      var some := if e.target == Some(k) then Copies(e.records, m, d, authoritative) else [];
      if e.target == Some(k) {
        RecordsContents(links[k], e.records, m, d, authoritative);
      }
      KeptNone(OutputOf(links, k, m, d));
      KeptAgain(OutputOf(links, k, m, d), some, CopiesFor(mapping[1..], k, m, d, authoritative));
    }
  }

  /** Some entry that resolves to the key has a record filed for the output. */
  ghost predicate Recorded(mapping: seq<Entry>, k: KeyRef, m: nat, d: DedupeKey, authoritative: set<nat>) {
    exists i, j :: 0 <= i < |mapping| && mapping[i].target == Some(k) && 0 <= j < |mapping[i].records| && Filed(mapping[i].records[j], m, d, authoritative)
  }

  lemma {:induction false} CopiesAreRecords(records: seq<Record>, m: nat, d: DedupeKey, authoritative: set<nat>)
    ensures Copies(records, m, d, authoritative) != [] <==> exists j :: 0 <= j < |records| && Filed(records[j], m, d, authoritative)
    decreases |records|
  {
    hide Filed;
    if records != [] {
      CopiesAreRecords(records[1..], m, d, authoritative);
      assert forall j :: 0 <= j < |records[1..]| ==> records[1..][j] == records[j + 1];
      if exists j :: 0 <= j < |records| && Filed(records[j], m, d, authoritative) {
        var j :| 0 <= j < |records| && Filed(records[j], m, d, authoritative);
        assert j > 0 ==> Filed(records[1..][j - 1], m, d, authoritative);
      }
    }
  }

  lemma {:induction false} CopiesForAreRecorded(mapping: seq<Entry>, k: KeyRef, m: nat, d: DedupeKey, authoritative: set<nat>)
    ensures CopiesFor(mapping, k, m, d, authoritative) != [] <==> Recorded(mapping, k, m, d, authoritative)
    decreases |mapping|
  {
    hide Filed, Copies;
    if mapping != [] {
      CopiesForAreRecorded(mapping[1..], k, m, d, authoritative);
      CopiesAreRecords(mapping[0].records, m, d, authoritative);
      assert forall i :: 0 <= i < |mapping[1..]| ==> mapping[1..][i] == mapping[i + 1];
      if Recorded(mapping, k, m, d, authoritative) {
        var i, j :| 0 <= i < |mapping| && mapping[i].target == Some(k) && 0 <= j < |mapping[i].records| && Filed(mapping[i].records[j], m, d, authoritative);
        if i > 0 {
          assert mapping[1..][i - 1].target == Some(k) && Filed(mapping[1..][i - 1].records[j], m, d, authoritative);
        }
      }
    }
  }

  lemma KeptSome(was: Option<Output>, copies: seq<Output>)
    ensures Surviving(was, copies).Some? <==> was.Some? || copies != []
  {
  }

  lemma PresentIsSome(links: Links, k: KeyRef, m: nat, d: DedupeKey)
    ensures Present(links, k, m, d) <==> OutputOf(links, k, m, d).Some?
  {
    hide OutputsAt, HasKey;
    NothingInNone(d);
  }

  /** An output is on a key when it was there or a record is filed for it; a controller's copy is
      filed exactly for modules whose own table was not read in full. */
  lemma MergeFilesExactly(links: Links, mapping: seq<Entry>, authoritative: set<nat>, k: KeyRef, m: nat, d: DedupeKey)
    requires k in links
    ensures Present(MergeAll(links, mapping, authoritative), k, m, d) <==>
      || Present(links, k, m, d)
      || exists i, j :: 0 <= i < |mapping| && mapping[i].target == Some(k) && 0 <= j < |mapping[i].records|
           && var r := mapping[i].records[j];
              r.moduleAddress == m && r.output.key == d
              && !((r.output.source == PcLinkRegistry || r.output.source == PcLogicRegistry) && m in authoritative)
  {
    hide Present, OutputOf, Surviving, MergeAll;
    MergeContents(links, mapping, authoritative, k, m, d);
    CopiesForAreRecorded(mapping, k, m, d, authoritative);
    KeptSome(OutputOf(links, k, m, d), CopiesFor(mapping, k, m, d, authoritative));
    PresentIsSome(links, k, m, d);
    PresentIsSome(MergeAll(links, mapping, authoritative), k, m, d);
    RecordedFiled(mapping, k, m, d, authoritative);
  }

  lemma RecordedFiled(mapping: seq<Entry>, k: KeyRef, m: nat, d: DedupeKey, authoritative: set<nat>)
    ensures Recorded(mapping, k, m, d, authoritative) <==>
      exists i, j :: 0 <= i < |mapping| && mapping[i].target == Some(k) && 0 <= j < |mapping[i].records|
        && var r := mapping[i].records[j];
           r.moduleAddress == m && r.output.key == d
           && !((r.output.source == PcLinkRegistry || r.output.source == PcLogicRegistry) && m in authoritative)
  {
  }

  // ---- the store after the copies to paired keys -----------------------------------------------------

  /** The output was on the key or is recorded for it. */
  ghost predicate Held(links: Links, mapping: seq<Entry>, k: KeyRef, m: nat, d: DedupeKey, authoritative: set<nat>) {
    k in links && (Present(links, k, m, d) || Recorded(mapping, k, m, d, authoritative))
  }

  /** After a merge an output is on a key exactly when it was, or is recorded, for the key or one that
      copies to it. */
  lemma MergedStoreExactly(before: Links, mapping: seq<Entry>, authoritative: set<nat>, after: Links, linksAdded: nat, outputsAdded: nat, k: KeyRef, m: nat, d: DedupeKey)
    requires MergeResult(before, mapping, authoritative, after, linksAdded, outputsAdded) && k in before
    ensures Present(after, k, m, d) <==>
      || Held(before, mapping, k, m, d, authoritative)
      || exists s :: Held(before, mapping, KeyRef(k.plate, s), m, d, authoritative) && k.name in Peers(s, d.mode)
  {
    hide Present, Peers, MergeAll, AddedByAll, Total, AllSingle, OnlyCopied, Recorded;
    var mid := MergeAll(before, mapping, authoritative);
    forall s | s in before ensures Present(mid, s, m, d) <==> Held(before, mapping, s, m, d, authoritative) {
      MergeFilesExactly(before, mapping, authoritative, s, m, d);
      RecordedFiled(mapping, s, m, d, authoritative);
    }
    KeysKept(mid, after);
    if Present(after, k, m, d) && !Present(mid, k, m, d) {
      assert FromPeer(mid, k, m, d);
    }
    if Present(mid, k, m, d) {
      StaysPresent(mid, after, k, m, d);
    } else if exists s :: Held(before, mapping, KeyRef(k.plate, s), m, d, authoritative) && k.name in Peers(s, d.mode) {
      var s :| Held(before, mapping, KeyRef(k.plate, s), m, d, authoritative) && k.name in Peers(s, d.mode);
      var source := KeyRef(k.plate, s);
      StaysPresent(mid, after, source, m, d);
      assert SpreadFrom(after, source) && Spread(after, source, m, d);
      assert KeyRef(source.plate, k.name) == k;
    }
  }

  /** The output on a key after a merge is what the copies leave of it, or, where there are none, the
      whole output of a key that copies to it. */
  lemma MergedOutputIs(before: Links, mapping: seq<Entry>, authoritative: set<nat>, after: Links, linksAdded: nat, outputsAdded: nat, k: KeyRef, m: nat, d: DedupeKey)
    requires MergeResult(before, mapping, authoritative, after, linksAdded, outputsAdded) && k in before
    ensures var own := Surviving(OutputOf(before, k, m, d), CopiesFor(mapping, k, m, d, authoritative));
      && (own.Some? ==> OutputOf(after, k, m, d) == own)
      && (own.None? && OutputOf(after, k, m, d).Some? ==>
            exists s :: k.name in Peers(s, d.mode)
              && Stored(MergeAll(before, mapping, authoritative), KeyRef(k.plate, s), m, OutputOf(after, k, m, d).value))
  {
    hide Peers, MergeAll, AddedByAll, Total, AllSingle, OnlyMirrored, Closed, Surviving, OutputsAt, HasKey;
    var mid := MergeAll(before, mapping, authoritative);
    MergeContents(before, mapping, authoritative, k, m, d);
    KeysKept(mid, after);
    assert Longer(OutputsAt(mid[k], m), OutputsAt(after[k], m));
    var early, late := Or(OutputsAt(mid[k], m), []), Or(OutputsAt(after[k], m), []);
    NothingExtended();
    if First(early, d).Some? {
      FirstStays(early, late, d);
    }
    if OutputOf(mid, k, m, d).None? && OutputOf(after, k, m, d).Some? {
      var o := OutputOf(after, k, m, d).value;
      assert Stored(after, k, m, o);
      NotThere(early, o, d);
      assert CopiedFrom(mid, k, m, o);
    }
  }

  lemma NotThere(outputs: seq<Output>, o: Output, d: DedupeKey)
    requires First(outputs, d).None? && o.key == d
    ensures o !in outputs
  {
    assert forall i :: 0 <= i < |outputs| ==> outputs[i] in outputs;
  }

  lemma {:induction false} FirstStays(early: seq<Output>, late: seq<Output>, d: DedupeKey)
    requires early <= late && First(early, d).Some?
    ensures First(late, d) == First(early, d)
    decreases |early|
  {
    if early[0].key != d {
      assert early[1..] <= late[1..];
      FirstStays(early[1..], late[1..], d);
    }
  }

  // ---- blocks counted --------------------------------------------------------------------------------

  /** The number of blocks stored on all keys. */
  ghost function Blocks(links: Links): nat {
    if links == map[] then 0
    else
      var k :| k in links;
      |links[k]| + Blocks(links - {k})
  }

  lemma {:induction false} BlocksWithout(links: Links, k: KeyRef)
    requires k in links
    ensures Blocks(links) == |links[k]| + Blocks(links - {k})
    decreases |links|
  {
    var first :| first in links && Blocks(links) == |links[first]| + Blocks(links - {first});
    if first != k {
      BlocksWithout(links - {first}, k);
      assert links - {first} - {k} == links - {k} - {first};
      BlocksWithout(links - {k}, first);
    }
  }

  lemma BlocksChanged(links: Links, k: KeyRef, blocks: seq<Block>)
    requires k in links
    ensures Blocks(links[k := blocks]) == Blocks(links) - |links[k]| + |blocks|
  {
    BlocksWithout(links, k);
    BlocksWithout(links[k := blocks], k);
    assert links[k := blocks] - {k} == links - {k};
  }

  lemma {:induction false} RecordsAddBlocks(blocks: seq<Block>, records: seq<Record>)
    ensures |MergeRecords(blocks, records)| == |blocks| + Added(blocks, records).0
    decreases |records|
  {
    hide Has, HasKey, Upgraded;
    if records != [] {
      RecordsAddBlocks(Merge(blocks, records[0].moduleAddress, records[0].output), records[1..]);
    }
  }

  /** The links a merge reports are the blocks its records add to the store. */
  lemma {:induction false} LinksAreBlocks(links: Links, mapping: seq<Entry>, authoritative: set<nat>)
    ensures Blocks(MergeAll(links, mapping, authoritative)) == Blocks(links) + AddedByAll(links, mapping, authoritative).0
    decreases |mapping|
  {
    hide Blocks, Added, MergeRecords;
    if mapping != [] {
      if Lands(links, mapping[0]) {
        var k, records := mapping[0].target.value, LinkMerge.Kept(mapping[0].records, authoritative);
        RecordsAddBlocks(links[k], records);
        BlocksChanged(links, k, MergeRecords(links[k], records));
      }
      LinksAreBlocks(MergeEntry(links, mapping[0], authoritative), mapping[1..], authoritative);
    }
  }

  // ---- a rebuild -------------------------------------------------------------------------------------

  /** Some entry that resolves to the key has a record of the module's own table for the output. */
  ghost predicate OwnRecord(mapping: seq<Entry>, k: KeyRef, m: nat, d: DedupeKey) {
    exists i, j :: 0 <= i < |mapping| && mapping[i].target == Some(k) && 0 <= j < |mapping[i].records|
      && IsOwn(mapping[i].records[j], m, d)
  }

  predicate IsOwn(r: Record, m: nat, d: DedupeKey) {
    r.moduleAddress == m && r.output.key == d && r.output.source != PcLinkRegistry && r.output.source != PcLogicRegistry
  }

  lemma {:induction false} OwnRecorded(mapping: seq<Entry>, k: KeyRef, m: nat, d: DedupeKey)
    ensures LinkRebuild.Recorded(Own(mapping, m), k, d) <==> OwnRecord(mapping, k, m, d)
    decreases |mapping|
  {
    if mapping == [] {
    } else {
      hide OwnRecords, Holds, IsOwn;
      var mine := OwnRecords(mapping[0].records, m);
      OwnRecorded(mapping[1..], k, m, d);
      OwnHolds(mapping[0].records, m, d);
      var front := if mine == [] then [] else [mapping[0].(records := mine)];
      if mine != [] {
        var own := front + Own(mapping[1..], m);
        assert own[1..] == Own(mapping[1..], m) && own[0] == front[0];
        RecordedSplit(own, k, d);
      } else {
        assert front + Own(mapping[1..], m) == Own(mapping[1..], m);
        NothingHeld(mine, d);
      }
      OwnRecordSplit(mapping, k, m, d);
    }
  }

  lemma NothingHeld(records: seq<Record>, d: DedupeKey)
    requires records == []
    ensures !Holds(records, d)
  {
  }

  lemma OwnHolds(records: seq<Record>, m: nat, d: DedupeKey)
    ensures Holds(OwnRecords(records, m), d) <==> exists j :: 0 <= j < |records| && IsOwn(records[j], m, d)
  {
    if exists j :: 0 <= j < |records| && IsOwn(records[j], m, d) {
      var j :| 0 <= j < |records| && IsOwn(records[j], m, d);
      assert records[j] in OwnRecords(records, m);
    }
    if Holds(OwnRecords(records, m), d) {
      var i :| 0 <= i < |OwnRecords(records, m)| && OwnRecords(records, m)[i].output.key == d;
      assert OwnRecords(records, m)[i] in records;
    }
  }

  lemma OwnRecordSplit(mapping: seq<Entry>, k: KeyRef, m: nat, d: DedupeKey)
    requires mapping != []
    ensures OwnRecord(mapping, k, m, d) <==>
      (mapping[0].target == Some(k) && exists j :: 0 <= j < |mapping[0].records| && IsOwn(mapping[0].records[j], m, d))
      || OwnRecord(mapping[1..], k, m, d)
  {
    hide IsOwn;
    if OwnRecord(mapping, k, m, d) {
      var i, j :| 0 <= i < |mapping| && mapping[i].target == Some(k) && 0 <= j < |mapping[i].records| && IsOwn(mapping[i].records[j], m, d);
      if i > 0 {
        assert mapping[1..][i - 1] == mapping[i];
        assert mapping[1..][i - 1].target == Some(k) && IsOwn(mapping[1..][i - 1].records[j], m, d);
      }
    }
    if OwnRecord(mapping[1..], k, m, d) {
      var i, j :| 0 <= i < |mapping[1..]| && mapping[1..][i].target == Some(k) && 0 <= j < |mapping[1..][i].records| && IsOwn(mapping[1..][i].records[j], m, d);
      assert mapping[i + 1] == mapping[1..][i];
    }
  }

  /** After a rebuild an output of the module is on a key exactly when a record of the module's own
      table, not a controller's copy, names the key or one that copies to it. */
  lemma RebuiltStoreExactly(before: Links, mapping: seq<Entry>, m: nat, authoritative: set<nat>, after: Links, k: KeyRef, d: DedupeKey)
    requires AllSingle(before) && Rebuilt(before, mapping, m, authoritative, after) && k in before
    ensures Present(after, k, m, d) <==>
      || OwnRecord(mapping, k, m, d)
      || exists s :: KeyRef(k.plate, s) in before && OwnRecord(mapping, KeyRef(k.plate, s), m, d) && k.name in Peers(s, d.mode)
  {
    hide AllSingle, Rebuilt, Present, OwnRecord, LinkRebuild.Recorded, Peers;
    RebuildLeavesOwn(before, mapping, m, authoritative, after, k, d);
    forall s ensures LinkRebuild.Recorded(Own(mapping, m), s, d) <==> OwnRecord(mapping, s, m, d) { OwnRecorded(mapping, s, m, d); }
  }
}
