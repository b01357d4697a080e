/** How a flowsheet numbers the states and outputs of its blocks: block by
    block, and within a block in declaration order, each name takes the next
    value of a running counter. */
module FlowsheetLayout {
  import opened Wrappers
  import opened Hydraulics

  /** The names paired with consecutive offsets from base. */
  function Enumerate(names: seq<string>, base: nat): (r: seq<(string, nat)>)
    ensures |r| == |names|
    ensures forall j :: 0 <= j < |names| ==> r[j] == (names[j], base + j)
  {
    seq(|names|, j requires 0 <= j < |names| => (names[j], base + j))
  }

  function Lengths<T>(ns: seq<seq<T>>): (r: seq<nat>)
    ensures |r| == |ns| && forall i :: 0 <= i < |ns| ==> r[i] == |ns[i]|
  {
    seq(|ns|, i requires 0 <= i < |ns| => |ns[i]|)
  }

  /** The counter's value when block i starts: the name count of the blocks before it. */
  function Base<T>(ns: seq<seq<T>>, i: nat): nat
    requires i <= |ns|
  {
    SumNat(Lengths(ns)[..i])
  }

  /** The global (name, offset) list of the blocks' names ns. */
  function Layout(ns: seq<seq<string>>): seq<(string, nat)>
  {
    if ns == [] then []
    else Layout(ns[..|ns| - 1]) + Enumerate(ns[|ns| - 1], Base(ns, |ns| - 1))
  }

  /** All entries, block after block. */
  function Concat<T>(ns: seq<seq<T>>): seq<T>
  {
    if ns == [] then [] else Concat(ns[..|ns| - 1]) + ns[|ns| - 1]
  }

  /** One more block's entries go at the end. */
  lemma ConcatNext<T>(ns: seq<seq<T>>, i: nat)
    requires i < |ns|
    ensures Concat(ns[..i + 1]) == Concat(ns[..i]) + ns[i]
  {
    var p := ns[..i + 1];
    assert p[..|p| - 1] == ns[..i];
  }

  lemma BaseFront<T>(ns: seq<seq<T>>, i: nat)
    requires i < |ns|
    ensures Base(ns[..|ns| - 1], i) == Base(ns, i)
  {
    assert Lengths(ns[..|ns| - 1])[..i] == Lengths(ns)[..i];
  }

  lemma BaseNext<T>(ns: seq<seq<T>>, i: nat)
    requires i < |ns|
    ensures Base(ns, i + 1) == Base(ns, i) + |ns[i]|
  {
    assert Lengths(ns)[..i + 1][..i] == Lengths(ns)[..i];
  }

  /** The concatenation is as long as all blocks together. */
  lemma {:induction false} ConcatLength<T>(ns: seq<seq<T>>)
    ensures |Concat(ns)| == Base(ns, |ns|)
  {
    assert Lengths(ns)[..|ns|] == Lengths(ns);
    if ns != [] {
      var front := ns[..|ns| - 1];
      ConcatLength(front);
      BaseFront(ns, |ns| - 1);
      BaseNext(ns, |ns| - 1);
      assert Lengths(front)[..|front|] == Lengths(front);
    }
  }

  /** Block i's entries sit at positions Base(ns, i) onwards of the
      concatenation. */
  lemma {:induction false} ConcatSlice<T>(ns: seq<seq<T>>, i: nat)
    requires i < |ns|
    ensures Base(ns, i) + |ns[i]| <= |Concat(ns)|
    ensures Concat(ns)[Base(ns, i)..Base(ns, i) + |ns[i]|] == ns[i]
  {
    var front := ns[..|ns| - 1];
    ConcatLength(front);
    ConcatLength(ns);
    BaseFront(ns, |ns| - 1);
    assert Lengths(front)[..|front|] == Lengths(front);
    if i < |ns| - 1 {
      ConcatSlice(front, i);
      BaseFront(ns, i);
      assert front[i] == ns[i];
    }
  }

  /** The offsets are exactly 0, 1, ..., total - 1 in order, with the names
      of the blocks in block order. */
  lemma {:induction false} LayoutOffsets(ns: seq<seq<string>>)
    ensures |Layout(ns)| == Base(ns, |ns|) == |Concat(ns)|
    ensures forall j :: 0 <= j < |Layout(ns)| ==> Layout(ns)[j] == (Concat(ns)[j], j)
  {
    assert Lengths(ns)[..|ns|] == Lengths(ns);
    if ns != [] {
      var front := ns[..|ns| - 1];
      LayoutOffsets(front);
      BaseFront(ns, |ns| - 1);
      BaseNext(ns, |ns| - 1);
      assert Lengths(front)[..|front|] == Lengths(front);
    }
  }

  /** Block i's entries are its own names numbered from its base, and they
      sit at exactly those positions of the global list. */
  lemma {:induction false} LayoutSlice(ns: seq<seq<string>>, i: nat)
    requires i < |ns|
    ensures Base(ns, i) + |ns[i]| <= |Layout(ns)|
    ensures Layout(ns)[Base(ns, i)..Base(ns, i) + |ns[i]|] == Enumerate(ns[i], Base(ns, i))
  {
    var front := ns[..|ns| - 1];
    LayoutOffsets(front);
    LayoutOffsets(ns);
    BaseFront(ns, |ns| - 1);
    assert Lengths(front)[..|front|] == Lengths(front);
    if i < |ns| - 1 {
      LayoutSlice(front, i);
      BaseFront(ns, i);
      assert front[i] == ns[i];
    }
  }

  function StateNames(kinds: seq<Kind>): (ns: seq<seq<string>>)
    ensures |ns| == |kinds| && forall i :: 0 <= i < |kinds| ==> ns[i] == StatesName(kinds[i])
  {
    seq(|kinds|, i requires 0 <= i < |kinds| => StatesName(kinds[i]))
  }

  function OutputNames(kinds: seq<Kind>): (ns: seq<seq<string>>)
    ensures |ns| == |kinds| && forall i :: 0 <= i < |kinds| ==> ns[i] == OutputsName(kinds[i])
  {
    seq(|kinds|, i requires 0 <= i < |kinds| => OutputsName(kinds[i]))
  }
}
