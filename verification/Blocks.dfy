/** Sixteen-byte memory blocks and the scan sections that name them. */
module Blocks {
  import opened Bits

  function Word16(lo: Byte, hi: Byte): nat {
    (lo as int) + 256 * (hi as int)
  }

  function Registers(first: nat, last: nat): seq<nat>
    requires first <= last + 1
  {
    seq(last + 1 - first, i requires 0 <= i => first + i)
  }

  /** One section per sub-byte the run of blocks touches. */
  function Sections(first: nat, last: nat): seq<(nat, seq<nat>)>
    decreases last + 1 - first
  {
    if first > last then []
    else
      var sub := first / 256;
      var end := if last <= 256 * sub + 255 then last else 256 * sub + 255;
      [(sub, Registers(first % 256, end % 256))] + Sections(end + 1, last)
  }

  lemma FirstSection(first: nat, last: nat)
    requires first <= last
    ensures var end := if last <= 256 * (first / 256) + 255 then last else 256 * (first / 256) + 255;
      first <= end <= last && first / 256 == end / 256
      && Sections(first, last) == [(first / 256, Registers(first % 256, end % 256))] + Sections(end + 1, last)
  {
  }

  /** `blocks_to_sections` */
  method BlocksToSections(first: nat, last: nat) returns (sections: seq<(nat, seq<nat>)>)
    ensures sections == Sections(first, last)
  {
    sections := [];
    var block := first;
    hide Registers;
    while block <= last
      invariant sections + Sections(block, last) == Sections(first, last)
      decreases last + 1 - block
    {
      var sub := block / 256;
      var end := if last <= 256 * sub + 255 then last else 256 * sub + 255;
      FirstSection(block, last);
      assert (sections + [(sub, Registers(block % 256, end % 256))]) + Sections(end + 1, last) == sections + Sections(block, last);
      sections := sections + [(sub, Registers(block % 256, end % 256))];
      block := end + 1;
    }
  }

  /** The blocks a list of sections names, in order: sub-byte and register together. */
  function Named(sections: seq<(nat, seq<nat>)>): seq<nat> {
    if sections == [] then []
    else seq(|sections[0].1|, i requires 0 <= i < |sections[0].1| => 256 * sections[0].0 + sections[0].1[i]) + Named(sections[1..])
  }

  lemma NamedSection(sub: nat, first: nat, end: nat, more: seq<(nat, seq<nat>)>)
    requires first <= end && first / 256 == end / 256 == sub
    ensures Named([(sub, Registers(first % 256, end % 256))] + more) == Registers(first, end) + Named(more)
    ensures forall r :: r in Registers(first % 256, end % 256) ==> r < 256
  {
    var sections := [(sub, Registers(first % 256, end % 256))] + more;
    assert sections[1..] == more;
  }

  lemma NoSections(first: nat, last: nat)
    ensures first > last ==> Sections(first, last) == [] && Named([]) == []
  {
  }

  /** The sections name exactly the blocks of the run, each once and in order. */
  lemma {:induction false} SectionsNameRun(first: nat, last: nat)
    ensures first <= last + 1 ==> Named(Sections(first, last)) == Registers(first, last)
    ensures first <= last + 1 ==>
      |Named(Sections(first, last))| == last + 1 - first && forall i :: 0 <= i < last + 1 - first ==> Named(Sections(first, last))[i] == first + i
    ensures forall s :: s in Sections(first, last) ==> forall r :: r in s.1 ==> r < 256
    decreases last + 1 - first
  {
    hide Sections, Named;
    NoSections(first, last);
    if first <= last {
      var sub := first / 256;
      var end := if last <= 256 * sub + 255 then last else 256 * sub + 255;
      SectionsNameRun(end + 1, last);
      FirstSection(first, last);
      NamedSection(sub, first, end, Sections(end + 1, last));
      assert Registers(first, last) == Registers(first, end) + Registers(end + 1, last);
    }
  }

  /** The low byte comes first. */
  lemma LowByteFirst(lo: Byte, hi: Byte)
    ensures Word16(lo, hi) % 256 == lo && Word16(lo, hi) / 256 == hi
  {
  }
}
