/** The block contract of the collocation engine: a block holds the column
    layout the flowsheet gives it, the named attributes that set_values
    writes, its inlet and outlet neighbours, and the inputs it gathers from
    them before its residual is evaluated. */
module Blocks {
  import opened Wrappers
  import opened Tables
  import opened Values
  import opened Hydraulics

  /** Which of the three tables a write reads its column from. */
  datatype Source = Xdot | X | Y

  /** One attribute write of set_values: attribute key becomes column index
      of the table source. */
  datatype Write = Write(key: string, source: Source, index: nat)

  /** The writes for the states, in order: der_name from xdot, then name from x. */
  function StateWrites(stateIdx: seq<(string, nat)>): (ws: seq<Write>)
    ensures |ws| == 2 * |stateIdx|
  {
    if stateIdx == [] then []
    else
      var last := stateIdx[|stateIdx| - 1];
      StateWrites(stateIdx[..|stateIdx| - 1]) + [Write(DerName(last.0), Xdot, last.1), Write(last.0, X, last.1)]
  }

  /** Entry 2i of the state writes is state i's derivative, entry 2i+1 its value. */
  lemma {:induction false} StateWritesAt(stateIdx: seq<(string, nat)>, i: nat)
    requires i < |stateIdx|
    ensures StateWrites(stateIdx)[2 * i] == Write(DerName(stateIdx[i].0), Xdot, stateIdx[i].1)
    ensures StateWrites(stateIdx)[2 * i + 1] == Write(stateIdx[i].0, X, stateIdx[i].1)
  {
    if i < |stateIdx| - 1 {
      StateWritesAt(stateIdx[..|stateIdx| - 1], i);
    }
  }

  /** The writes for the outputs, in order: name from y. */
  function OutputWrites(outputIdx: seq<(string, nat)>): (ws: seq<Write>)
    ensures |ws| == |outputIdx|
  {
    if outputIdx == [] then []
    else
      var last := outputIdx[|outputIdx| - 1];
      OutputWrites(outputIdx[..|outputIdx| - 1]) + [Write(last.0, Y, last.1)]
  }

  /** Entry i of the output writes is output i. */
  lemma {:induction false} OutputWritesAt(outputIdx: seq<(string, nat)>, i: nat)
    requires i < |outputIdx|
    ensures OutputWrites(outputIdx)[i] == Write(outputIdx[i].0, Y, outputIdx[i].1)
  {
    if i < |outputIdx| - 1 {
      OutputWritesAt(outputIdx[..|outputIdx| - 1], i);
    }
  }

  function Width(s: Source, xw: nat, yw: nat): nat
  {
    if s == Y then yw else xw
  }

  function Pick(s: Source, xdot: Table, x: Table, y: Table): Table
  {
    match s
    case Xdot => xdot
    case X => x
    case Y => y
  }

  predicate Shapes(xdot: Table, x: Table, y: Table, xw: nat, yw: nat)
  {
    IsTable(xdot, xw) && IsTable(x, xw) && IsTable(y, yw)
  }

  /** The writes performed one after the other; the first column index past
      its table's width raises IndexError and leaves the earlier writes done. */
  function Apply(attrs: map<string, Value>, ws: seq<Write>, xdot: Table, x: Table, y: Table, xw: nat, yw: nat)
    : (r: (map<string, Value>, Outcome))
    requires Shapes(xdot, x, y, xw, yw)
  {
    if ws == [] then (attrs, Pass)
    else Then(Apply(attrs, ws[..|ws| - 1], xdot, x, y, xw, yw), ws[|ws| - 1], xdot, x, y, xw, yw)
  }

  /** One write after the earlier ones, unless one of them failed. */
  function Then(prev: (map<string, Value>, Outcome), w: Write, xdot: Table, x: Table, y: Table, xw: nat, yw: nat)
    : (map<string, Value>, Outcome)
    requires Shapes(xdot, x, y, xw, yw)
  {
    if prev.1.Fail? then prev
    else if w.index < Width(w.source, xw, yw) then
      (prev.0[w.key := Column(Tables.Column(Pick(w.source, xdot, x, y), w.index))], Pass)
    else (prev.0, Fail(IndexError))
  }

  lemma ApplySnoc(attrs: map<string, Value>, ws: seq<Write>, w: Write, xdot: Table, x: Table, y: Table, xw: nat, yw: nat)
    requires Shapes(xdot, x, y, xw, yw)
    ensures Apply(attrs, ws + [w], xdot, x, y, xw, yw) == Then(Apply(attrs, ws, xdot, x, y, xw, yw), w, xdot, x, y, xw, yw)
  {
    assert (ws + [w])[..|ws|] == ws;
  }

  /** The writes succeed exactly when every column index is inside its table. */
  lemma {:induction false} ApplyOutcome(attrs: map<string, Value>, ws: seq<Write>, xdot: Table, x: Table, y: Table, xw: nat, yw: nat)
    requires Shapes(xdot, x, y, xw, yw)
    ensures Apply(attrs, ws, xdot, x, y, xw, yw).1.Pass? <==>
      forall j :: 0 <= j < |ws| ==> ws[j].index < Width(ws[j].source, xw, yw)
    ensures Apply(attrs, ws, xdot, x, y, xw, yw).1.Fail? ==> Apply(attrs, ws, xdot, x, y, xw, yw).1.error == IndexError
  {
    if ws != [] {
      ApplyOutcome(attrs, ws[..|ws| - 1], xdot, x, y, xw, yw);
    }
  }

  /** After writes that succeed, further writes start from their result. */
  lemma {:induction false} ApplyAppend(attrs: map<string, Value>, ws: seq<Write>, more: seq<Write>, xdot: Table, x: Table, y: Table, xw: nat, yw: nat)
    requires Shapes(xdot, x, y, xw, yw)
    requires Apply(attrs, ws, xdot, x, y, xw, yw).1.Pass?
    ensures Apply(attrs, ws + more, xdot, x, y, xw, yw) == Apply(Apply(attrs, ws, xdot, x, y, xw, yw).0, more, xdot, x, y, xw, yw)
  {
    if more == [] {
      assert ws + more == ws;
    } else {
      var front := more[..|more| - 1];
      assert (ws + more)[..|ws + more| - 1] == ws + front;
      ApplyAppend(attrs, ws, front, xdot, x, y, xw, yw);
    }
  }

  /** Once a write has failed, later writes are not attempted. */
  lemma {:induction false} ApplyStops(attrs: map<string, Value>, ws: seq<Write>, more: seq<Write>, xdot: Table, x: Table, y: Table, xw: nat, yw: nat)
    requires Shapes(xdot, x, y, xw, yw)
    requires Apply(attrs, ws, xdot, x, y, xw, yw).1.Fail?
    ensures Apply(attrs, ws + more, xdot, x, y, xw, yw) == Apply(attrs, ws, xdot, x, y, xw, yw)
  {
    if more != [] {
      var front := more[..|more| - 1];
      assert (ws + more)[..|ws + more| - 1] == ws + front;
      ApplyStops(attrs, ws, front, xdot, x, y, xw, yw);
    } else {
      assert ws + more == ws;
    }
  }

  /** After successful writes to distinct keys, each written key holds its
      column. */
  lemma {:induction false} ApplyWritten(attrs: map<string, Value>, ws: seq<Write>, xdot: Table, x: Table, y: Table, xw: nat, yw: nat, j: nat)
    requires Shapes(xdot, x, y, xw, yw)
    requires Apply(attrs, ws, xdot, x, y, xw, yw).1.Pass?
    requires forall a, b :: 0 <= a < b < |ws| ==> ws[a].key != ws[b].key
    requires j < |ws|
    ensures ws[j].index < Width(ws[j].source, xw, yw)
    ensures ws[j].key in Apply(attrs, ws, xdot, x, y, xw, yw).0
    ensures Apply(attrs, ws, xdot, x, y, xw, yw).0[ws[j].key] ==
      Column(Tables.Column(Pick(ws[j].source, xdot, x, y), ws[j].index))
  {
    var front := ws[..|ws| - 1];
    if j < |ws| - 1 {
      ApplyWritten(attrs, front, xdot, x, y, xw, yw, j);
      assert ws[j].key != ws[|ws| - 1].key;
    }
  }

  /** Successful writes leave every key they do not name as it was. */
  lemma {:induction false} ApplyUntouched(attrs: map<string, Value>, ws: seq<Write>, xdot: Table, x: Table, y: Table, xw: nat, yw: nat, k: string)
    requires Shapes(xdot, x, y, xw, yw)
    requires forall j :: 0 <= j < |ws| ==> ws[j].key != k
    ensures k in Apply(attrs, ws, xdot, x, y, xw, yw).0 <==> k in attrs
    ensures k in attrs ==> Apply(attrs, ws, xdot, x, y, xw, yw).0[k] == attrs[k]
  {
    if ws != [] {
      ApplyUntouched(attrs, ws[..|ws| - 1], xdot, x, y, xw, yw, k);
    }
  }

  class Block {
    /** The element this block is, with its parameters and attribute names. */
    const kind: Kind
    /** (state name, global state offset) pairs, assigned by the flowsheet. */
    var stateIdx: seq<(string, nat)>
    /** (output name, global output offset) pairs, assigned by the flowsheet. */
    var outputIdx: seq<(string, nat)>
    var inlet: seq<Block>
    var outlet: seq<Block>
    /** The attributes set by name: states, their derivatives, outputs. */
    var attrs: map<string, Value>
    /** The number of collocation nodes of the last set_values; None before. */
    var nNodes: Option<nat>
    /** The node times of the last set_values; None before. */
    var t: Option<Value>
    /** A release's upstream height. */
    var h: Value
    /** A reservoir's total inflow and outflow. */
    var qIn: Value
    var qOut: Value

    constructor (kind: Kind, stateIdx: seq<(string, nat)>, outputIdx: seq<(string, nat)>)
      ensures this.kind == kind && this.stateIdx == stateIdx && this.outputIdx == outputIdx
      ensures inlet == [] && outlet == []
      ensures attrs == InitialAttrs(kind)
      ensures nNodes == None && t == None
      ensures h == Scalar(0.0) && qIn == Scalar(0.0) && qOut == Scalar(0.0)
    {
      this.kind := kind;
      this.stateIdx := stateIdx;
      this.outputIdx := outputIdx;
      inlet := [];
      outlet := [];
      attrs := InitialAttrs(kind);
      nNodes := None;
      t := None;
      h := Scalar(0.0);
      qIn := Scalar(0.0);
      qOut := Scalar(0.0);
    }

    /** One column per declared state and output. */
    function ResidWidth(): nat
      reads this`stateIdx, this`outputIdx
    {
      |stateIdx| + |outputIdx|
    }

    /** The zero residual table: n_nodes rows, one column per state and
        output; AttributeError before the first set_values. */
    function GetResid(): (r: Result<Table>)
      reads this`nNodes, this`stateIdx, this`outputIdx
      ensures r.Ok? <==> nNodes.Some?
      ensures r.Ok? ==> |r.value| == nNodes.value && IsTable(r.value, ResidWidth())
      ensures r.Ok? ==> forall i, j :: 0 <= i < nNodes.value && 0 <= j < ResidWidth() ==> r.value[i][j] == 0.0
    {
      if nNodes.None? then Raise(AttributeError) else Ok(Zeros(nNodes.value, ResidWidth()))
    }

    /** The first loop of set_values: each state's der_ attribute and value
        from its column of xdot and x, stopping at the first column index
        out of range. */
    method WriteStates(xdot: Table, x: Table, y: Table, xw: nat, yw: nat) returns (o: Outcome)
      requires Shapes(xdot, x, y, xw, yw)
      modifies this`attrs
      ensures (attrs, o) == Apply(old(attrs), StateWrites(stateIdx), xdot, x, y, xw, yw)
    {
      var i := 0;
      while i < |stateIdx|
        invariant 0 <= i <= |stateIdx|
        invariant (attrs, Pass) == Apply(old(attrs), StateWrites(stateIdx[..i]), xdot, x, y, xw, yw)
      {
        var name, idx := stateIdx[i].0, stateIdx[i].1;
        if idx >= xw {
          StatesFail(old(attrs), stateIdx, i, xdot, x, y, xw, yw);
          return Fail(IndexError);
        }
        StatesNext(old(attrs), stateIdx, i, xdot, x, y, xw, yw);
        attrs := attrs[DerName(name) := Column(Tables.Column(xdot, idx))];
        attrs := attrs[name := Column(Tables.Column(x, idx))];
        i := i + 1;
      }
      assert stateIdx[..i] == stateIdx;
      o := Pass;
    }

    /** The second loop of set_values: each output from its column of y,
        stopping at the first column index out of range. */
    method WriteOutputs(xdot: Table, x: Table, y: Table, xw: nat, yw: nat) returns (o: Outcome)
      requires Shapes(xdot, x, y, xw, yw)
      modifies this`attrs
      ensures (attrs, o) == Apply(old(attrs), OutputWrites(outputIdx), xdot, x, y, xw, yw)
    {
      var j := 0;
      while j < |outputIdx|
        invariant 0 <= j <= |outputIdx|
        invariant (attrs, Pass) == Apply(old(attrs), OutputWrites(outputIdx[..j]), xdot, x, y, xw, yw)
      {
        var name, idx := outputIdx[j].0, outputIdx[j].1;
        if idx >= yw {
          OutputsFail(old(attrs), outputIdx, j, xdot, x, y, xw, yw);
          return Fail(IndexError);
        }
        OutputsNext(old(attrs), outputIdx, j, xdot, x, y, xw, yw);
        attrs := attrs[name := Column(Tables.Column(y, idx))];
        j := j + 1;
      }
      assert outputIdx[..j] == outputIdx;
      o := Pass;
    }

    /** Records the node count (the rows of y) and the node times, then
        writes each state's der_ attribute and value from xdot and x, then
        each output from y, stopping at the first column index out of range. */
    method SetValues(xdot: Table, x: Table, y: Table, t: Value, xw: nat, yw: nat) returns (o: Outcome)
      requires Shapes(xdot, x, y, xw, yw)
      modifies this`nNodes, this`t, this`attrs
      ensures nNodes == Some(|y|) && this.t == Some(t)
      ensures (attrs, o) == Apply(old(attrs), StateWrites(stateIdx) + OutputWrites(outputIdx), xdot, x, y, xw, yw)
    {
      nNodes := Some(|y|);
      this.t := Some(t);
      o := WriteStates(xdot, x, y, xw, yw);
      if o.Fail? {
        ApplyStops(old(attrs), StateWrites(stateIdx), OutputWrites(outputIdx), xdot, x, y, xw, yw);
        return;
      }
      ApplyAppend(old(attrs), StateWrites(stateIdx), OutputWrites(outputIdx), xdot, x, y, xw, yw);
      o := WriteOutputs(xdot, x, y, xw, yw);
    }

    /** The value of a reservoir's height attribute, read by a release
        through its first inlet: IndexError without an inlet, AttributeError
        when the first inlet is not a reservoir. */
    function UpstreamHeight(): (r: Result<Value>)
      reads this`inlet, (set e | e in inlet)`attrs
      ensures r.Ok? <==> inlet != [] && inlet[0].kind.Reservoir? && inlet[0].kind.height in inlet[0].attrs
      ensures r.Ok? ==> r.value == inlet[0].attrs[inlet[0].kind.height]
    {
      if inlet == [] then Raise(IndexError)
      else if !inlet[0].kind.Reservoir? then Raise(AttributeError)
      else Lookup(inlet[0].attrs, inlet[0].kind.height)
    }

    /** Gathers the inputs a block reads from its neighbours: a release the
        upstream height; a reservoir its inflow and outflow totals (these are
        rebound as the sums proceed); the other kinds nothing. */
    method ChangeInputs() returns (o: Outcome)
      modifies this`h, this`qIn, this`qOut
      ensures kind.FlowRelease? ==>
        (o.Pass? <==> UpstreamHeight().Ok?) &&
        (o.Pass? ==> h == UpstreamHeight().value) && (o.Fail? ==> h == old(h)) &&
        qIn == old(qIn) && qOut == old(qOut)
      ensures kind.Reservoir? ==>
        h == old(h) &&
        (nNodes.None? ==> o == Fail(AttributeError) && qIn == old(qIn) && qOut == old(qOut)) &&
        (nNodes.Some? ==>
          (o.Pass? <==> FlowTotal(nNodes.value, inlet).Ok? && FlowTotal(nNodes.value, outlet).Ok?) &&
          (o.Pass? ==> qIn == Column(FlowTotal(nNodes.value, inlet).value) &&
                       qOut == Column(FlowTotal(nNodes.value, outlet).value)))
      ensures (kind.FlowConstant? || kind.FlowSource?) ==>
        o.Pass? && h == old(h) && qIn == old(qIn) && qOut == old(qOut)
    {
      match kind
      case FlowRelease(_, _) =>
        var height := UpstreamHeight();
        if height.Raise? {
          return Fail(height.error);
        }
        h := height.value;
        o := Pass;
      case Reservoir(_, _, _, _) =>
        if nNodes.None? {
          return Fail(AttributeError);
        }
        var n := nNodes.value;
        var total := Accumulate(n, inlet);
        if total.Raise? {
          return Fail(total.error);
        }
        qIn := Column(total.value);
        total := Accumulate(n, outlet);
        if total.Raise? {
          return Fail(total.error);
        }
        qOut := Column(total.value);
        o := Pass;
      case _ =>
        o := Pass;
    }

    /** The residual table of this block's kind over its current attributes
        and inputs, one row per node and one column per state and output. */
    function Resid(sqrt: real -> real): (r: Result<Table>)
      reads this
      ensures r.Ok? ==> nNodes.Some? && |r.value| == nNodes.value && IsTable(r.value, ResidWidth())
    {
      var zero :- GetResid();
      if t.None? && kind.FlowSource? then Raise(AttributeError)
      else
        var times := if t.Some? then t.value else Scalar(0.0);
        Residual(kind, attrs, h, qIn, qOut, times, zero, ResidWidth(), sqrt)
    }
  }

  /** A neighbour's contribution to a reservoir's total: its flow attribute
      when it has a flowrate, nothing otherwise. */
  function Contribution(e: Block): Result<Option<Value>>
    reads e`attrs
  {
    if ProvidesFlow(e.kind) then
      var q :- Lookup(e.attrs, e.kind.flowrate);
      Ok(Some(q))
    else Ok(None)
  }

  /** The total flow of the neighbours in nb that have a flowrate: zeros of
      length n to which each such flow is added, in order. */
  function FlowTotal(n: nat, nb: seq<Block>): (r: Result<seq<real>>)
    reads (set e | e in nb)`attrs
    ensures r.Ok? ==> |r.value| == n
  {
    if nb == [] then Ok(Repeat(0.0, n))
    else
      var acc :- FlowTotal(n, nb[..|nb| - 1]);
      var q :- Contribution(nb[|nb| - 1]);
      if q.Some? then AddInto(acc, q.value) else Ok(acc)
  }

  /** The accumulation loop of a reservoir over one neighbour list. */
  method Accumulate(n: nat, nb: seq<Block>) returns (r: Result<seq<real>>)
    ensures r == FlowTotal(n, nb)
  {
    var acc := Repeat(0.0, n);
    var i := 0;
    while i < |nb|
      invariant 0 <= i <= |nb|
      invariant FlowTotal(n, nb[..i]) == Ok(acc)
    {
      assert nb[..i + 1][..i] == nb[..i];
      var q := Contribution(nb[i]);
      if q.Raise? {
        FlowTotalStops(n, nb, i + 1);
        return Raise(q.error);
      }
      if q.value.Some? {
        var sum := AddInto(acc, q.value.value);
        if sum.Raise? {
          FlowTotalStops(n, nb, i + 1);
          return sum;
        }
        acc := sum.value;
      }
      i := i + 1;
    }
    assert nb[..i] == nb;
    r := Ok(acc);
  }

  /** A failure part-way through the neighbours is the failure of the whole. */
  lemma {:induction false} FlowTotalStops(n: nat, nb: seq<Block>, i: nat)
    requires i <= |nb| && FlowTotal(n, nb[..i]).Raise?
    ensures FlowTotal(n, nb) == FlowTotal(n, nb[..i])
    decreases |nb| - i
  {
    if i < |nb| {
      assert nb[..i + 1][..i] == nb[..i];
      FlowTotalStops(n, nb, i + 1);
    } else {
      assert nb[..i] == nb;
    }
  }

  /** The flow values of the neighbours that have a flowrate, in order. */
  function FlowValues(nb: seq<Block>): seq<Value>
    reads (set e | e in nb)`attrs
    requires forall k :: 0 <= k < |nb| ==> Contribution(nb[k]).Ok?
  {
    if nb == [] then []
    else
      var q := Contribution(nb[|nb| - 1]).value;
      FlowValues(nb[..|nb| - 1]) + (if q.Some? then [q.value] else [])
  }

  /** The neighbour total is the sum of exactly the flows of the neighbours
      that have a flowrate; others contribute nothing, and with none the
      total is zero. */
  lemma {:induction false} FlowTotalIsSum(n: nat, nb: seq<Block>)
    requires forall k :: 0 <= k < |nb| ==> Contribution(nb[k]).Ok?
    ensures FlowTotal(n, nb) == SumFlows(n, FlowValues(nb))
    ensures (forall k :: 0 <= k < |nb| ==> !ProvidesFlow(nb[k].kind)) ==> FlowTotal(n, nb) == Ok(Repeat(0.0, n))
  {
    if nb != [] {
      var front := nb[..|nb| - 1];
      FlowTotalIsSum(n, front);
      var q := Contribution(nb[|nb| - 1]).value;
      if q.Some? {
        var vs := FlowValues(front) + [q.value];
        assert FlowValues(nb) == vs;
        assert vs[..|vs| - 1] == FlowValues(front);
      } else {
        assert FlowValues(nb) == FlowValues(front);
      }
    }
  }

  lemma {:induction false} StateWritesSplit(stateIdx: seq<(string, nat)>, i: nat)
    requires i < |stateIdx|
    ensures StateWrites(stateIdx) ==
      StateWrites(stateIdx[..i]) + [Write(DerName(stateIdx[i].0), Xdot, stateIdx[i].1), Write(stateIdx[i].0, X, stateIdx[i].1)]
        + StateWrites(stateIdx[i + 1..])
  {
    var ws := StateWrites(stateIdx);
    var rhs := StateWrites(stateIdx[..i]) + [Write(DerName(stateIdx[i].0), Xdot, stateIdx[i].1), Write(stateIdx[i].0, X, stateIdx[i].1)]
        + StateWrites(stateIdx[i + 1..]);
    assert |ws| == |rhs|;
    forall p | 0 <= p < |ws|
      ensures ws[p] == rhs[p]
    {
      var q := p / 2;
      StateWritesAt(stateIdx, q);
      if q < i {
        assert stateIdx[..i][q] == stateIdx[q];
        StateWritesAt(stateIdx[..i], q);
        assert rhs[2 * q] == StateWrites(stateIdx[..i])[2 * q];
        assert rhs[2 * q + 1] == StateWrites(stateIdx[..i])[2 * q + 1];
      } else if q > i {
        var u := q - i - 1;
        assert stateIdx[i + 1..][u] == stateIdx[q];
        StateWritesAt(stateIdx[i + 1..], u);
        assert rhs[2 * q] == StateWrites(stateIdx[i + 1..])[2 * u];
        assert rhs[2 * q + 1] == StateWrites(stateIdx[i + 1..])[2 * u + 1];
      }
    }
  }

  lemma {:induction false} OutputWritesSplit(outputIdx: seq<(string, nat)>, j: nat)
    requires j <= |outputIdx|
    ensures OutputWrites(outputIdx) == OutputWrites(outputIdx[..j]) + OutputWrites(outputIdx[j..])
  {
    var ws := OutputWrites(outputIdx);
    var rhs := OutputWrites(outputIdx[..j]) + OutputWrites(outputIdx[j..]);
    assert |ws| == |rhs|;
    forall p | 0 <= p < |ws|
      ensures ws[p] == rhs[p]
    {
      OutputWritesAt(outputIdx, p);
      if p < j {
        assert outputIdx[..j][p] == outputIdx[p];
        OutputWritesAt(outputIdx[..j], p);
      } else {
        assert outputIdx[j..][p - j] == outputIdx[p];
        OutputWritesAt(outputIdx[j..], p - j);
      }
    }
  }

  lemma StatesNext(attrs: map<string, Value>, stateIdx: seq<(string, nat)>, i: nat, xdot: Table, x: Table, y: Table, xw: nat, yw: nat)
    requires Shapes(xdot, x, y, xw, yw) && i < |stateIdx|
    ensures Apply(attrs, StateWrites(stateIdx[..i + 1]), xdot, x, y, xw, yw) ==
      Then(Then(Apply(attrs, StateWrites(stateIdx[..i]), xdot, x, y, xw, yw),
        Write(DerName(stateIdx[i].0), Xdot, stateIdx[i].1), xdot, x, y, xw, yw), Write(stateIdx[i].0, X, stateIdx[i].1), xdot, x, y, xw, yw)
  {
    var name, idx := stateIdx[i].0, stateIdx[i].1;
    var before := StateWrites(stateIdx[..i]);
    assert stateIdx[..i + 1][..i] == stateIdx[..i];
    assert StateWrites(stateIdx[..i + 1]) == (before + [Write(DerName(name), Xdot, idx)]) + [Write(name, X, idx)];
    ApplySnoc(attrs, before + [Write(DerName(name), Xdot, idx)], Write(name, X, idx), xdot, x, y, xw, yw);
    ApplySnoc(attrs, before, Write(DerName(name), Xdot, idx), xdot, x, y, xw, yw);
  }

  lemma StatesFail(attrs: map<string, Value>, stateIdx: seq<(string, nat)>, i: nat,
                   xdot: Table, x: Table, y: Table, xw: nat, yw: nat)
    requires Shapes(xdot, x, y, xw, yw) && i < |stateIdx| && stateIdx[i].1 >= xw
    requires Apply(attrs, StateWrites(stateIdx[..i]), xdot, x, y, xw, yw).1.Pass?
    ensures Apply(attrs, StateWrites(stateIdx), xdot, x, y, xw, yw) ==
      (Apply(attrs, StateWrites(stateIdx[..i]), xdot, x, y, xw, yw).0, Fail(IndexError))
  {
    var name, idx := stateIdx[i].0, stateIdx[i].1;
    var before := StateWrites(stateIdx[..i]);
    var failing := before + [Write(DerName(name), Xdot, idx)];
    ApplySnoc(attrs, before, Write(DerName(name), Xdot, idx), xdot, x, y, xw, yw);
    StateWritesSplit(stateIdx, i);
    var rest := [Write(name, X, idx)] + StateWrites(stateIdx[i + 1..]);
    assert StateWrites(stateIdx) == failing + rest;
    ApplyStops(attrs, failing, rest, xdot, x, y, xw, yw);
  }

  lemma OutputsNext(attrs: map<string, Value>, outputIdx: seq<(string, nat)>, j: nat,
                    xdot: Table, x: Table, y: Table, xw: nat, yw: nat)
    requires Shapes(xdot, x, y, xw, yw) && j < |outputIdx|
    ensures Apply(attrs, OutputWrites(outputIdx[..j + 1]), xdot, x, y, xw, yw) ==
      Then(Apply(attrs, OutputWrites(outputIdx[..j]), xdot, x, y, xw, yw),
           Write(outputIdx[j].0, Y, outputIdx[j].1), xdot, x, y, xw, yw)
  {
    var w := Write(outputIdx[j].0, Y, outputIdx[j].1);
    assert outputIdx[..j + 1][..j] == outputIdx[..j];
    assert OutputWrites(outputIdx[..j + 1]) == OutputWrites(outputIdx[..j]) + [w];
    ApplySnoc(attrs, OutputWrites(outputIdx[..j]), w, xdot, x, y, xw, yw);
  }

  lemma OutputsFail(attrs: map<string, Value>, outputIdx: seq<(string, nat)>, j: nat,
                    xdot: Table, x: Table, y: Table, xw: nat, yw: nat)
    requires Shapes(xdot, x, y, xw, yw) && j < |outputIdx| && outputIdx[j].1 >= yw
    requires Apply(attrs, OutputWrites(outputIdx[..j]), xdot, x, y, xw, yw).1.Pass?
    ensures Apply(attrs, OutputWrites(outputIdx), xdot, x, y, xw, yw) ==
      (Apply(attrs, OutputWrites(outputIdx[..j]), xdot, x, y, xw, yw).0, Fail(IndexError))
  {
    OutputsNext(attrs, outputIdx, j, xdot, x, y, xw, yw);
    OutputWritesSplit(outputIdx, j + 1);
    ApplyStops(attrs, OutputWrites(outputIdx[..j + 1]), OutputWrites(outputIdx[j + 1..]), xdot, x, y, xw, yw);
  }

  /** The attribute keys set_values writes, in order. */
  function WrittenKeys(stateIdx: seq<(string, nat)>, outputIdx: seq<(string, nat)>): (keys: seq<string>)
    ensures |keys| == |StateWrites(stateIdx) + OutputWrites(outputIdx)|
  {
    var ws := StateWrites(stateIdx) + OutputWrites(outputIdx);
    seq(|ws|, j requires 0 <= j < |ws| => ws[j].key)
  }

  /** The column-range conditions of set_values, in terms of its writes. */
  predicate InRange(stateIdx: seq<(string, nat)>, outputIdx: seq<(string, nat)>, xw: nat, yw: nat)
  {
    (forall i :: 0 <= i < |stateIdx| ==> stateIdx[i].1 < xw) &&
    (forall i :: 0 <= i < |outputIdx| ==> outputIdx[i].1 < yw)
  }

  lemma WritesInRange(stateIdx: seq<(string, nat)>, outputIdx: seq<(string, nat)>, xw: nat, yw: nat, ws: seq<Write>)
    requires InRange(stateIdx, outputIdx, xw, yw) && ws == StateWrites(stateIdx) + OutputWrites(outputIdx)
    ensures forall j :: 0 <= j < |ws| ==> ws[j].index < Width(ws[j].source, xw, yw)
  {
    var ns := |StateWrites(stateIdx)|;
    forall j | 0 <= j < |ws|
      ensures ws[j].index < Width(ws[j].source, xw, yw)
    {
      if j < ns {
        StateWritesAt(stateIdx, j / 2);
      } else {
        OutputWritesAt(outputIdx, j - ns);
      }
    }
  }

  lemma KeysDistinct(stateIdx: seq<(string, nat)>, outputIdx: seq<(string, nat)>, ws: seq<Write>)
    requires Distinct(WrittenKeys(stateIdx, outputIdx)) && ws == StateWrites(stateIdx) + OutputWrites(outputIdx)
    ensures forall a, b :: 0 <= a < b < |ws| ==> ws[a].key != ws[b].key
  {
    var keys := WrittenKeys(stateIdx, outputIdx);
    forall a, b | 0 <= a < b < |ws|
      ensures ws[a].key != ws[b].key
    {
      assert keys[a] == ws[a].key && keys[b] == ws[b].key;
    }
  }

  /** With every column index in range and no key written twice, each write
      of set_values leaves its column in the attributes. */
  lemma WrittenAt(attrs: map<string, Value>, stateIdx: seq<(string, nat)>, outputIdx: seq<(string, nat)>,
                  xdot: Table, x: Table, y: Table, xw: nat, yw: nat, j: nat)
    requires Shapes(xdot, x, y, xw, yw) && InRange(stateIdx, outputIdx, xw, yw)
    requires Distinct(WrittenKeys(stateIdx, outputIdx))
    requires j < |StateWrites(stateIdx) + OutputWrites(outputIdx)|
    ensures var ws := StateWrites(stateIdx) + OutputWrites(outputIdx);
      var m := Apply(attrs, ws, xdot, x, y, xw, yw).0;
      ws[j].index < Width(ws[j].source, xw, yw) && ws[j].key in m && m[ws[j].key] == Column(Tables.Column(Pick(ws[j].source, xdot, x, y), ws[j].index))
  {
    var ws := StateWrites(stateIdx) + OutputWrites(outputIdx);
    WritesInRange(stateIdx, outputIdx, xw, yw, ws);
    ApplyOutcome(attrs, ws, xdot, x, y, xw, yw);
    KeysDistinct(stateIdx, outputIdx, ws);
    ApplyWritten(attrs, ws, xdot, x, y, xw, yw, j);
  }

  /** With every column index in range, set_values succeeds. */
  lemma SetValuesPass(attrs: map<string, Value>, stateIdx: seq<(string, nat)>, outputIdx: seq<(string, nat)>,
                      xdot: Table, x: Table, y: Table, xw: nat, yw: nat)
    requires Shapes(xdot, x, y, xw, yw) && InRange(stateIdx, outputIdx, xw, yw)
    ensures Apply(attrs, StateWrites(stateIdx) + OutputWrites(outputIdx), xdot, x, y, xw, yw).1.Pass?
  {
    var ws := StateWrites(stateIdx) + OutputWrites(outputIdx);
    WritesInRange(stateIdx, outputIdx, xw, yw, ws);
    ApplyOutcome(attrs, ws, xdot, x, y, xw, yw);
  }

  /** With every column index in range and no attribute key written twice,
      each state's value is its column of x and each der_ attribute its
      column of xdot. */
  lemma SetValuesStates(attrs: map<string, Value>, stateIdx: seq<(string, nat)>, outputIdx: seq<(string, nat)>,
                        xdot: Table, x: Table, y: Table, xw: nat, yw: nat)
    requires Shapes(xdot, x, y, xw, yw) && InRange(stateIdx, outputIdx, xw, yw)
    requires Distinct(WrittenKeys(stateIdx, outputIdx))
    ensures var m := Apply(attrs, StateWrites(stateIdx) + OutputWrites(outputIdx), xdot, x, y, xw, yw).0;
      forall i :: 0 <= i < |stateIdx| ==>
        stateIdx[i].0 in m && m[stateIdx[i].0] == Column(Tables.Column(x, stateIdx[i].1)) &&
        DerName(stateIdx[i].0) in m && m[DerName(stateIdx[i].0)] == Column(Tables.Column(xdot, stateIdx[i].1))
  {
    var ws := StateWrites(stateIdx) + OutputWrites(outputIdx);
    var m := Apply(attrs, ws, xdot, x, y, xw, yw).0;
    forall i | 0 <= i < |stateIdx|
      ensures stateIdx[i].0 in m && m[stateIdx[i].0] == Column(Tables.Column(x, stateIdx[i].1))
      ensures DerName(stateIdx[i].0) in m && m[DerName(stateIdx[i].0)] == Column(Tables.Column(xdot, stateIdx[i].1))
    {
      StateWritesAt(stateIdx, i);
      WrittenAt(attrs, stateIdx, outputIdx, xdot, x, y, xw, yw, 2 * i);
      WrittenAt(attrs, stateIdx, outputIdx, xdot, x, y, xw, yw, 2 * i + 1);
    }
  }

  /** Likewise each output is its column of y. */
  lemma SetValuesOutputs(attrs: map<string, Value>, stateIdx: seq<(string, nat)>, outputIdx: seq<(string, nat)>,
                         xdot: Table, x: Table, y: Table, xw: nat, yw: nat)
    requires Shapes(xdot, x, y, xw, yw) && InRange(stateIdx, outputIdx, xw, yw)
    requires Distinct(WrittenKeys(stateIdx, outputIdx))
    ensures var m := Apply(attrs, StateWrites(stateIdx) + OutputWrites(outputIdx), xdot, x, y, xw, yw).0;
      forall i :: 0 <= i < |outputIdx| ==>
        outputIdx[i].0 in m && m[outputIdx[i].0] == Column(Tables.Column(y, outputIdx[i].1))
  {
    var ws := StateWrites(stateIdx) + OutputWrites(outputIdx);
    var m := Apply(attrs, ws, xdot, x, y, xw, yw).0;
    var ns := |StateWrites(stateIdx)|;
    forall i | 0 <= i < |outputIdx|
      ensures outputIdx[i].0 in m && m[outputIdx[i].0] == Column(Tables.Column(y, outputIdx[i].1))
    {
      OutputWritesAt(outputIdx, i);
      WrittenAt(attrs, stateIdx, outputIdx, xdot, x, y, xw, yw, ns + i);
    }
  }

  /** set_values changes no attribute other than the ones it writes. */
  lemma SetValuesOthers(attrs: map<string, Value>, stateIdx: seq<(string, nat)>, outputIdx: seq<(string, nat)>,
                        xdot: Table, x: Table, y: Table, xw: nat, yw: nat, k: string)
    requires Shapes(xdot, x, y, xw, yw)
    requires k !in WrittenKeys(stateIdx, outputIdx)
    ensures var m := Apply(attrs, StateWrites(stateIdx) + OutputWrites(outputIdx), xdot, x, y, xw, yw).0;
      (k in m <==> k in attrs) && (k in attrs ==> m[k] == attrs[k])
  {
    var ws := StateWrites(stateIdx) + OutputWrites(outputIdx);
    var keys := WrittenKeys(stateIdx, outputIdx);
    forall j | 0 <= j < |ws|
      ensures ws[j].key != k
    {
      assert keys[j] == ws[j].key;
    }
    ApplyUntouched(attrs, ws, xdot, x, y, xw, yw, k);
  }
}
