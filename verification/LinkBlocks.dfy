/** The links stored on one key: a list of blocks, one per output module (`discovery/fileio.py`). */
module LinkBlocks {
  import opened Wrappers

  datatype Source = ModuleTable | PcLinkRegistry | PcLogicRegistry | NoSource

  /** What two outputs are compared by. */
  datatype DedupeKey = DedupeKey(
    channel: int, mode: string, t1: Option<string>, t2: Option<string>,
    irCode: Option<string>, irButton: Option<string>)

  /** A stored output; `details` stands for the payload, the button address and the audio fields. */
  datatype Output = Output(key: DedupeKey, source: Source, details: nat)

  datatype Block = Block(moduleAddress: nat, outputs: seq<Output>)

  predicate HasKey(outputs: seq<Output>, d: DedupeKey) {
    exists i :: 0 <= i < |outputs| && outputs[i].key == d
  }

  function FindBlock(blocks: seq<Block>, m: nat): (i: nat)
    ensures i <= |blocks| && (i < |blocks| ==> blocks[i].moduleAddress == m)
    ensures forall j :: 0 <= j < i ==> blocks[j].moduleAddress != m
  {
    if blocks == [] then 0 else if blocks[0].moduleAddress == m then 0 else 1 + FindBlock(blocks[1..], m)
  }

  /** The outputs of the first block of a module. */
  function OutputsAt(blocks: seq<Block>, m: nat): Option<seq<Output>> {
    var i := FindBlock(blocks, m);
    if i < |blocks| then Some(blocks[i].outputs) else None
  }

  predicate Has(blocks: seq<Block>, m: nat, d: DedupeKey) {
    OutputsAt(blocks, m).Some? && HasKey(OutputsAt(blocks, m).value, d)
  }

  /** One block per module, and no dedupe key twice in a block. */
  ghost predicate Tidy(blocks: seq<Block>) {
    Single(blocks) && forall i :: 0 <= i < |blocks| ==> NoRepeats(blocks[i].outputs)
  }

  /** One block per module. */
  ghost predicate Single(blocks: seq<Block>) {
    forall i, j :: 0 <= i < j < |blocks| ==> blocks[i].moduleAddress != blocks[j].moduleAddress
  }

  ghost predicate NoRepeats(outputs: seq<Output>) {
    forall i, j :: 0 <= i < j < |outputs| ==> outputs[i].key != outputs[j].key
  }

  function Or<T>(o: Option<T>, otherwise: T): T {
    if o.Some? then o.value else otherwise
  }

  /** An output filed under a module's block, unless one with its key is there. */
  function Put(blocks: seq<Block>, m: nat, o: Output): seq<Block> {
    var i := FindBlock(blocks, m);
    if i == |blocks| then blocks + [Block(m, [o])]
    else if HasKey(blocks[i].outputs, o.key) then blocks
    else blocks[i := Block(m, blocks[i].outputs + [o])]
  }

  function Appended(outputs: seq<Output>, o: Output): seq<Output> {
    if HasKey(outputs, o.key) then outputs else outputs + [o]
  }

  /** Outputs with the key, marked as read from the module's own table. */
  function Upgraded(outputs: seq<Output>, d: DedupeKey): (r: seq<Output>)
    ensures |r| == |outputs|
    ensures forall i :: 0 <= i < |r| ==> r[i] == if outputs[i].key == d then outputs[i].(source := ModuleTable) else outputs[i]
  {
    seq(|outputs|, i requires 0 <= i < |outputs| => if outputs[i].key == d then outputs[i].(source := ModuleTable) else outputs[i])
  }

  /** One record of a scan filed under its module: appended, or the stored copy's provenance
      upgraded when the record comes from the module's own table. */
  function Merge(blocks: seq<Block>, m: nat, o: Output): seq<Block> {
    var i := FindBlock(blocks, m);
    if o.source == ModuleTable && i < |blocks| && HasKey(blocks[i].outputs, o.key)
    then blocks[i := Block(m, Upgraded(blocks[i].outputs, o.key))]
    else Put(blocks, m, o)
  }

  function Merged(outputs: seq<Output>, o: Output): seq<Output> {
    if o.source == ModuleTable && HasKey(outputs, o.key) then Upgraded(outputs, o.key) else Appended(outputs, o)
  }

  // ---- what filing one output does ---------------------------------------------------------------

  lemma FindUnique(blocks: seq<Block>, m: nat, i: nat)
    requires i < |blocks| && blocks[i].moduleAddress == m && forall j :: 0 <= j < i ==> blocks[j].moduleAddress != m
    ensures FindBlock(blocks, m) == i
  {
  }

  lemma Replaced(blocks: seq<Block>, m: nat, outputs: seq<Output>, m': nat)
    requires FindBlock(blocks, m) < |blocks|
    ensures OutputsAt(blocks[FindBlock(blocks, m) := Block(m, outputs)], m') ==
      if m' == m then Some(outputs) else OutputsAt(blocks, m')
  {
    var i := FindBlock(blocks, m);
    var after := blocks[i := Block(m, outputs)];
    if m' == m {
      FindUnique(after, m, i);
    } else {
      var j := FindBlock(blocks, m');
      if j < |blocks| {
        FindUnique(after, m', j);
      } else {
        assert forall k :: 0 <= k < |after| ==> after[k].moduleAddress != m';
      }
    }
  }

  lemma AddedBlock(blocks: seq<Block>, b: Block, m': nat)
    requires FindBlock(blocks, b.moduleAddress) == |blocks|
    ensures OutputsAt(blocks + [b], m') == if m' == b.moduleAddress then Some(b.outputs) else OutputsAt(blocks, m')
  {
    var after := blocks + [b];
    if m' == b.moduleAddress {
      FindUnique(after, m', |blocks|);
    } else if FindBlock(blocks, m') < |blocks| {
      FindUnique(after, m', FindBlock(blocks, m'));
    } else {
      assert forall k :: 0 <= k < |after| ==> after[k].moduleAddress != m';
    }
  }

  /** Filing an output touches its module's block only, and appends at most itself. */
  lemma PutView(blocks: seq<Block>, m: nat, o: Output, m': nat)
    ensures OutputsAt(Put(blocks, m, o), m') ==
      if m' == m then Some(Appended(Or(OutputsAt(blocks, m), []), o)) else OutputsAt(blocks, m')
  {
    var i := FindBlock(blocks, m);
    if i == |blocks| {
      AddedBlock(blocks, Block(m, [o]), m');
      assert [] + [o] == [o];
    } else {
      Replaced(blocks, m, blocks[i].outputs + [o], m');
    }
  }

  lemma MergeView(blocks: seq<Block>, m: nat, o: Output, m': nat)
    ensures OutputsAt(Merge(blocks, m, o), m') ==
      if m' == m then Some(Merged(Or(OutputsAt(blocks, m), []), o)) else OutputsAt(blocks, m')
  {
    var i := FindBlock(blocks, m);
    PutView(blocks, m, o, m');
    if i < |blocks| {
      Replaced(blocks, m, Upgraded(blocks[i].outputs, o.key), m');
    }
  }

  lemma AppendedKeys(outputs: seq<Output>, o: Output, d: DedupeKey)
    ensures HasKey(Appended(outputs, o), d) <==> HasKey(outputs, d) || d == o.key
    ensures NoRepeats(outputs) ==> NoRepeats(Appended(outputs, o))
    ensures outputs <= Appended(outputs, o)
  {
    if !HasKey(outputs, o.key) {
      var after := outputs + [o];
      assert after[|outputs|] == o;
      if HasKey(outputs, d) {
        var i :| 0 <= i < |outputs| && outputs[i].key == d;
        assert after[i].key == d;
      }
    }
  }

  lemma UpgradedKeys(outputs: seq<Output>, u: DedupeKey, d: DedupeKey)
    ensures HasKey(Upgraded(outputs, u), d) <==> HasKey(outputs, d)
    ensures NoRepeats(outputs) ==> NoRepeats(Upgraded(outputs, u))
  {
    var after := Upgraded(outputs, u);
    if HasKey(outputs, d) {
      var i :| 0 <= i < |outputs| && outputs[i].key == d;
      assert after[i].key == d;
    }
  }

  lemma MergedKeys(outputs: seq<Output>, o: Output, d: DedupeKey)
    ensures HasKey(Merged(outputs, o), d) <==> HasKey(outputs, d) || d == o.key
    ensures NoRepeats(outputs) ==> NoRepeats(Merged(outputs, o))
  {
    AppendedKeys(outputs, o, d);
    UpgradedKeys(outputs, o.key, d);
  }

  /** A block in place of one of the same module keeps one block per module. */
  lemma SingleReplaced(blocks: seq<Block>, i: nat, b: Block)
    requires Single(blocks) && i < |blocks| && blocks[i].moduleAddress == b.moduleAddress
    ensures Single(blocks[i := b])
  {
    var after := blocks[i := b];
    assert forall j :: 0 <= j < |after| ==> after[j].moduleAddress == blocks[j].moduleAddress;
  }

  lemma SingleAdded(blocks: seq<Block>, b: Block)
    requires Single(blocks) && FindBlock(blocks, b.moduleAddress) == |blocks|
    ensures Single(blocks + [b])
  {
    assert forall j :: 0 <= j < |blocks| ==> (blocks + [b])[j] == blocks[j];
  }

  lemma FilingKeepsSingle(blocks: seq<Block>, m: nat, o: Output)
    requires Single(blocks)
    ensures Single(Put(blocks, m, o)) && Single(Merge(blocks, m, o))
  {
    hide Single, HasKey;
    var i := FindBlock(blocks, m);
    if i == |blocks| {
      SingleAdded(blocks, Block(m, [o]));
    } else {
      SingleReplaced(blocks, i, Block(m, blocks[i].outputs + [o]));
      SingleReplaced(blocks, i, Block(m, Upgraded(blocks[i].outputs, o.key)));
    }
  }

  /** Filing keeps one block per module and no key twice. */
  lemma FilingKeepsTidy(blocks: seq<Block>, m: nat, o: Output)
    requires Tidy(blocks)
    ensures Tidy(Put(blocks, m, o)) && Tidy(Merge(blocks, m, o))
  {
    hide NoRepeats, Single, HasKey, Upgraded;
    FilingKeepsSingle(blocks, m, o);
    var i := FindBlock(blocks, m);
    OneOutput(o);
    if i < |blocks| {
      assert NoRepeats(blocks[i].outputs);
      AppendedKeys(blocks[i].outputs, o, o.key);
      UpgradedKeys(blocks[i].outputs, o.key, o.key);
    }
  }

  lemma OneOutput(o: Output)
    ensures NoRepeats([o])
  {
  }

  /** With one block per module every output is seen through its module's view. */
  lemma SingleView(blocks: seq<Block>, i: nat)
    requires Single(blocks) && i < |blocks|
    ensures OutputsAt(blocks, blocks[i].moduleAddress) == Some(blocks[i].outputs)
  {
    FindUnique(blocks, blocks[i].moduleAddress, i);
  }

  // ---- growing ----------------------------------------------------------------------------------

  /** More outputs behind the ones there were, each with a key of its own. */
  ghost predicate Extends(early: seq<Output>, late: seq<Output>) {
    early <= late && forall i, j :: 0 <= j < i < |late| && i >= |early| ==> late[j].key != late[i].key
  }

  lemma AppendedExtends(early: seq<Output>, outputs: seq<Output>, o: Output)
    requires Extends(early, outputs)
    ensures Extends(early, Appended(outputs, o))
  {
    if !HasKey(outputs, o.key) {
      var late := outputs + [o];
      assert forall j :: 0 <= j < |outputs| ==> late[j] == outputs[j] && late[j].key != o.key;
    }
  }

  lemma ExtendedNoRepeats(early: seq<Output>, late: seq<Output>)
    requires NoRepeats(early) && Extends(early, late)
    ensures NoRepeats(late)
  {
    assert forall i :: 0 <= i < |early| ==> late[i] == early[i];
  }

  /** An output added behind is of a new key. */
  lemma NewKeyIsNew(early: seq<Output>, late: seq<Output>)
    requires Extends(early, late)
    ensures early == late || exists d :: HasKey(late, d) && !HasKey(early, d)
  {
    assert |early| == |late| ==> early == late;
    assert forall i :: 0 <= i < |early| ==> early[i] == late[i];
    if |early| < |late| {
      assert HasKey(late, late[|early|].key);
    }
  }

  // ---- counting ---------------------------------------------------------------------------------

  /** The number of outputs in a list of blocks. */
  function Count(blocks: seq<Block>): nat {
    if blocks == [] then 0 else |blocks[0].outputs| + Count(blocks[1..])
  }

  lemma {:induction false} CountReplaced(blocks: seq<Block>, i: nat, b: Block)
    requires i < |blocks|
    ensures Count(blocks[i := b]) == Count(blocks) - |blocks[i].outputs| + |b.outputs|
    decreases i
  {
    if i == 0 {
      assert blocks[i := b][1..] == blocks[1..];
    } else {
      assert blocks[i := b][1..] == blocks[1..][i - 1 := b];
      CountReplaced(blocks[1..], i - 1, b);
    }
  }

  lemma {:induction false} CountAdded(blocks: seq<Block>, b: Block)
    ensures Count(blocks + [b]) == Count(blocks) + |b.outputs|
    decreases |blocks|
  {
    if blocks == [] {
      assert blocks + [b] == [b];
      assert Count([b]) == |b.outputs| + Count([b][1..]);
    } else {
      assert (blocks + [b])[1..] == blocks[1..] + [b];
      CountAdded(blocks[1..], b);
    }
  }

  /** Filing adds one output unless its key is there. */
  lemma FilingCounts(blocks: seq<Block>, m: nat, o: Output)
    ensures Count(Put(blocks, m, o)) == Count(blocks) + if Has(blocks, m, o.key) then 0 else 1
    ensures Count(Merge(blocks, m, o)) == Count(blocks) + if Has(blocks, m, o.key) then 0 else 1
  {
    hide HasKey, Count;
    var i := FindBlock(blocks, m);
    if i == |blocks| {
      CountAdded(blocks, Block(m, [o]));
    } else {
      CountReplaced(blocks, i, Block(m, blocks[i].outputs + [o]));
      CountReplaced(blocks, i, Block(m, Upgraded(blocks[i].outputs, o.key)));
    }
  }

  // ---- removing a module's blocks -----------------------------------------------------------------

  function Without(blocks: seq<Block>, targets: set<nat>): seq<Block> {
    if blocks == [] then []
    else if blocks[0].moduleAddress in targets then Without(blocks[1..], targets)
    else [blocks[0]] + Without(blocks[1..], targets)
  }

  lemma {:induction false} WithoutView(blocks: seq<Block>, targets: set<nat>, m: nat)
    ensures OutputsAt(Without(blocks, targets), m) == if m in targets then None else OutputsAt(blocks, m)
    decreases |blocks|
  {
    if blocks != [] {
      WithoutView(blocks[1..], targets, m);
      var rest := Without(blocks[1..], targets);
      assert ([blocks[0]] + rest)[1..] == rest;
    }
  }

  lemma {:induction false} WithoutSingle(blocks: seq<Block>, targets: set<nat>)
    requires Single(blocks)
    ensures Single(Without(blocks, targets)) && forall b :: b in Without(blocks, targets) ==> b in blocks
    decreases |blocks|
  {
    if blocks != [] {
      assert Single(blocks[1..]);
      WithoutSingle(blocks[1..], targets);
      var rest := Without(blocks[1..], targets);
      forall i | 0 <= i < |rest| ensures rest[i].moduleAddress != blocks[0].moduleAddress {
        assert rest[i] in blocks[1..];
      }
    }
  }
}
