/** A flowsheet: blocks simulated together by orthogonal collocation on
    finite elements. It numbers the blocks' states and outputs, evaluates
    all block residuals at once, and advances the states one element at a
    time; the nonlinear solver's answers are inputs of the model. */
module Flowsheets {
  import opened Wrappers
  import opened Tables
  import opened Values
  import opened Hydraulics
  import opened Blocks
  import opened FlowsheetLayout
  import Collocation

  function Kinds(blocks: seq<Block>): (ks: seq<Kind>)
    ensures |ks| == |blocks| && forall i :: 0 <= i < |blocks| ==> ks[i] == blocks[i].kind
  {
    seq(|blocks|, i requires 0 <= i < |blocks| => blocks[i].kind)
  }

  /** Every state a block declares is a scalar attribute, as a block is
      when it has just been built. */
  predicate HasInitialStates(b: Block)
    reads b`attrs
  {
    forall name :: name in StatesName(b.kind) ==> name in b.attrs && b.attrs[name].Scalar?
  }

  /** The current values of a block's declared states, in declaration order. */
  function StateValues(b: Block): (v: seq<real>)
    reads b`attrs
    requires HasInitialStates(b)
    ensures |v| == |StatesName(b.kind)|
  {
    var names := StatesName(b.kind);
    var attrs := b.attrs;
    seq(|names|, j requires 0 <= j < |names| => attrs[names[j]].x)
  }

  /** Every block's state values, in block order. */
  function BlockStateValues(blocks: seq<Block>): (vs: seq<seq<real>>)
    reads (set b | b in blocks)`attrs
    requires forall i :: 0 <= i < |blocks| ==> HasInitialStates(blocks[i])
    ensures |vs| == |blocks| && forall i :: 0 <= i < |blocks| ==> vs[i] == StateValues(blocks[i])
  {
    if blocks == [] then []
    else BlockStateValues(blocks[..|blocks| - 1]) + [StateValues(blocks[|blocks| - 1])]
  }

  /** The initial-condition vector: every block's state values, block after block. */
  function InitialCondition(blocks: seq<Block>): seq<real>
    reads (set b | b in blocks)`attrs
    requires forall i :: 0 <= i < |blocks| ==> HasInitialStates(blocks[i])
  {
    Concat(BlockStateValues(blocks))
  }

  /** Each block has as many state values as state names. */
  lemma StateValueLengths(blocks: seq<Block>)
    requires forall i :: 0 <= i < |blocks| ==> HasInitialStates(blocks[i])
    ensures Lengths(BlockStateValues(blocks)) == Lengths(StateNames(Kinds(blocks)))
  {
  }

  /** The initial-condition vector has one entry per global state offset. */
  lemma InitialConditionLength(blocks: seq<Block>)
    requires forall j :: 0 <= j < |blocks| ==> HasInitialStates(blocks[j])
    ensures |InitialCondition(blocks)| == Base(StateNames(Kinds(blocks)), |blocks|)
  {
    ConcatLength(BlockStateValues(blocks));
    StateValueLengths(blocks);
  }

  /** Block i's state values sit at block i's state offsets. */
  lemma InitialConditionSlice(blocks: seq<Block>, i: nat)
    requires forall j :: 0 <= j < |blocks| ==> HasInitialStates(blocks[j])
    requires i < |blocks|
    ensures Base(StateNames(Kinds(blocks)), i) + |StatesName(blocks[i].kind)| <= |InitialCondition(blocks)|
    ensures InitialCondition(blocks)[Base(StateNames(Kinds(blocks)), i)..Base(StateNames(Kinds(blocks)), i) + |StatesName(blocks[i].kind)|]
      == StateValues(blocks[i])
  {
    var vs := BlockStateValues(blocks);
    var sns := StateNames(Kinds(blocks));
    StateValueLengths(blocks);
    assert Base(vs, i) == Base(sns, i) by {
      assert Lengths(vs)[..i] == Lengths(sns)[..i];
    }
    assert vs[i] == StateValues(blocks[i]);
    assert |vs[i]| == |StatesName(blocks[i].kind)|;
    ConcatSlice(vs, i);
  }

  /** The time at which element k starts: dt times the element count. */
  function ElementStart(dt: real, k: int): real
  {
    dt * (k as real)
  }

  /** The dict of to_dict: each name maps to the entry of v at its offset,
      a later pair overriding an earlier one with the same name; an offset
      past the end of v raises IndexError. */
  function ToDict(idx: seq<(string, nat)>, v: seq<real>): Result<map<string, real>>
  {
    if idx == [] then Ok(map[])
    else
      var front :- ToDict(idx[..|idx| - 1], v);
      var (name, offset) := idx[|idx| - 1];
      if offset < |v| then
        Ok(front[name := v[offset]])
      else Raise(IndexError)
  }

  /** to_dict succeeds exactly when every offset is inside v. */
  lemma {:induction false} ToDictOk(idx: seq<(string, nat)>, v: seq<real>)
    ensures ToDict(idx, v).Ok? <==> forall j :: 0 <= j < |idx| ==> idx[j].1 < |v|
  {
    if idx != [] {
      var front := idx[..|idx| - 1];
      ToDictOk(front, v);
      assert forall j :: 0 <= j < |front| ==> idx[j] == front[j];
    }
  }

  /** The dict's keys are exactly the names of idx. */
  lemma {:induction false} ToDictKeys(idx: seq<(string, nat)>, v: seq<real>)
    requires ToDict(idx, v).Ok?
    ensures forall j :: 0 <= j < |idx| ==> idx[j].0 in ToDict(idx, v).value
    ensures forall key :: key in ToDict(idx, v).value ==> exists j :: 0 <= j < |idx| && idx[j].0 == key
  {
    if idx != [] {
      var front := idx[..|idx| - 1];
      ToDictKeys(front, v);
      assert forall j :: 0 <= j < |front| ==> idx[j] == front[j];
    }
  }

  /** Two dicts over the same names have the same keys. */
  lemma SameKeys(idx: seq<(string, nat)>, v: seq<real>, w: seq<real>)
    requires ToDict(idx, v).Ok? && ToDict(idx, w).Ok?
    ensures ToDict(idx, v).value.Keys == ToDict(idx, w).value.Keys
  {
    ToDictKeys(idx, v);
    ToDictKeys(idx, w);
  }

  /** The names of a (name, offset) list. */
  function Names(idx: seq<(string, nat)>): set<string>
  {
    set j | 0 <= j < |idx| :: idx[j].0
  }

  /** A converted dict is keyed by exactly the names of the list. */
  lemma DictNames(idx: seq<(string, nat)>, v: seq<real>)
    requires ToDict(idx, v).Ok?
    ensures ToDict(idx, v).value.Keys == Names(idx)
  {
    ToDictKeys(idx, v);
  }

  /** A vector with one entry per offset of a layout converts without error. */
  lemma LayoutDictOk(ns: seq<seq<string>>, v: seq<real>)
    requires |v| == |Layout(ns)|
    ensures ToDict(Layout(ns), v).Ok?
  {
    LayoutOffsets(ns);
    ToDictOk(Layout(ns), v);
  }

  /** With distinct names, each name maps to the entry at its own offset. */
  lemma {:induction false} ToDictAt(idx: seq<(string, nat)>, v: seq<real>, j: nat)
    requires j < |idx| && ToDict(idx, v).Ok?
    requires forall a, b :: 0 <= a < b < |idx| ==> idx[a].0 != idx[b].0
    ensures idx[j].1 < |v| && idx[j].0 in ToDict(idx, v).value && ToDict(idx, v).value[idx[j].0] == v[idx[j].1]
  {
    if j < |idx| - 1 {
      ToDictAt(idx[..|idx| - 1], v, j);
    }
  }

  /** The layout's dict over a vector with one entry per offset: name i of
      the layout maps to entry i. */
  lemma LayoutDict(ns: seq<seq<string>>, v: seq<real>, j: nat)
    requires |v| == |Layout(ns)| && j < |v|
    requires Distinct(Concat(ns))
    ensures ToDict(Layout(ns), v).Ok? && j < |Concat(ns)| && Layout(ns)[j] == (Concat(ns)[j], j)
    ensures Layout(ns)[j].0 in ToDict(Layout(ns), v).value && ToDict(Layout(ns), v).value[Layout(ns)[j].0] == v[j]
  {
    LayoutDictOk(ns, v);
    LayoutOffsets(ns);
    ToDictAt(Layout(ns), v, j);
  }

  class Flowsheet {
    const blocks: seq<Block>
    /** The square root the release blocks use. */
    const sqrt: real -> real
    /** The initial-condition vector collected at construction. */
    const ic: seq<real>
    const numStates: nat
    const numOutputs: nat
    /** The global (name, offset) lists of states and outputs. */
    const stateIdx: seq<(string, nat)>
    const outputIdx: seq<(string, nat)>

    /** Whether initialize has set the node count, step, counter and time. */
    var initialized: bool
    var nNodes: int
    var dt: real
    var k: int
    var time: real
    /** The running state vector; None until reset_states. */
    var states: Option<seq<real>>

    ghost predicate Valid()
      reads this`states, (set b | b in blocks)`stateIdx, (set b | b in blocks)`outputIdx
    {
      Wired() && (states.Some? ==> |states.value| == numStates)
    }

    /** The numbering fixed at construction: the global lists and every
        block's own slice of them. */
    ghost predicate Wired()
      reads (set b | b in blocks)`stateIdx, (set b | b in blocks)`outputIdx
    {
      Distinct(blocks) &&
      numStates == |stateIdx| == Base(StateNames(Kinds(blocks)), |blocks|) &&
      numOutputs == |outputIdx| == Base(OutputNames(Kinds(blocks)), |blocks|) && |ic| == numStates &&
      Laid(blocks)
    }

    /** Numbers the outputs and then the states of each block with two
        running counters, gives each block its own slice of the numbering,
        and collects the initial conditions. */
    constructor (blocks: seq<Block>, sqrt: real -> real)
      requires Distinct(blocks)
      requires forall i :: 0 <= i < |blocks| ==> HasInitialStates(blocks[i])
      modifies (set b | b in blocks)`stateIdx, (set b | b in blocks)`outputIdx
      ensures Valid()
      ensures stateIdx == Layout(StateNames(Kinds(blocks))) && outputIdx == Layout(OutputNames(Kinds(blocks)))
      ensures this.blocks == blocks && this.sqrt == sqrt
      ensures ic == old(InitialCondition(blocks))
      ensures !initialized && states == None
    {
      var initial, globalStates, globalOutputs := Wire(blocks);
      this.blocks := blocks;
      this.sqrt := sqrt;
      ic := initial;
      numStates := |globalStates|;
      numOutputs := |globalOutputs|;
      stateIdx := globalStates;
      outputIdx := globalOutputs;
      initialized := false;
      nNodes := 0;
      dt := 0.0;
      k := 0;
      time := 0.0;
      states := None;
      new;
      // The numbering Wire left in the blocks survives this object's allocation.
      assert this.blocks == blocks;
      assert Laid(blocks);
      assert Valid();
    }

    /** Evaluates every block at the given node values: set_values on
        every block, then change_inputs on every block, then resid on every
        block, the tables joined column-wise in block order. Each phase
        finishes on all blocks before the next starts, so every block's
        inputs are gathered from attributes that all blocks have already set,
        and every residual sees all inputs gathered. */
    method Step(xdot: Table, x: Table, y: Table, t: Value, xw: nat, yw: nat) returns (r: Result<Table>)
      requires Distinct(blocks) && Shapes(xdot, x, y, xw, yw)
      modifies (set b | b in blocks)`nNodes, (set b | b in blocks)`t, (set b | b in blocks)`attrs
      modifies (set b | b in blocks)`h, (set b | b in blocks)`qIn, (set b | b in blocks)`qOut
      ensures r.Ok? ==> forall i :: 0 <= i < |blocks| ==> ValuesSet(blocks[i], old(blocks[i].attrs), xdot, x, y, t, xw, yw)
      ensures r.Ok? ==> forall i :: 0 <= i < |blocks| ==> InputsGathered(blocks[i])
      ensures forall i :: 0 <= i < |blocks| && !blocks[i].kind.FlowRelease? ==> blocks[i].h == old(blocks[i].h)
      ensures forall i :: 0 <= i < |blocks| && !blocks[i].kind.Reservoir? ==>
        blocks[i].qIn == old(blocks[i].qIn) && blocks[i].qOut == old(blocks[i].qOut)
      ensures r.Ok? ==> Resids(blocks, sqrt).Ok? && r == ConcatColumns(Resids(blocks, sqrt).value)
    {
      var o := SetAll(blocks, xdot, x, y, t, xw, yw);
      if o.Fail? {
        return Raise(o.error);
      }
      o := GatherAll(blocks);
      if o.Fail? {
        return Raise(o.error);
      }
      var tables :- Resids(blocks, sqrt);
      r := ConcatColumns(tables);
    }

    /** The residual function handed to fsolve for one finite element: the
        element is prepared from z, the blocks are evaluated at its node
        times, and the block residuals come first, then the collocation
        equations, both flattened row by row. */
    method CollocationResiduals(z: seq<real>) returns (r: Result<seq<real>>)
      requires Valid()
      modifies (set b | b in blocks)`nNodes, (set b | b in blocks)`t, (set b | b in blocks)`attrs
      modifies (set b | b in blocks)`h, (set b | b in blocks)`qIn, (set b | b in blocks)`qOut
      ensures Valid()
      ensures PrepareElement(initialized, states, nNodes, dt, k, z, numStates, numOutputs, sqrt).Raise? ==>
        r == Raise(PrepareElement(initialized, states, nNodes, dt, k, z, numStates, numOutputs, sqrt).error)
      ensures r.Ok? ==> PrepareElement(initialized, states, nNodes, dt, k, z, numStates, numOutputs, sqrt).Ok? && |r.value| == |z|
      ensures r.Ok? ==> states.Some? && |states.value| == numStates
      ensures r.Ok? ==> Resids(blocks, sqrt).Ok? && ConcatColumns(Resids(blocks, sqrt).value).Ok?
      ensures r.Ok? ==>
        var e := PrepareElement(initialized, states, nNodes, dt, k, z, numStates, numOutputs, sqrt).value;
        r.value == Flatten(ConcatColumns(Resids(blocks, sqrt).value).value) +
                   Flatten(CollocationEquations(e.nc, dt, e.x, e.xdot, states.value, numStates))
      ensures r.Ok? ==>
        var e := PrepareElement(initialized, states, nNodes, dt, k, z, numStates, numOutputs, sqrt).value;
        forall i :: 0 <= i < |blocks| ==> ValuesSet(blocks[i], old(blocks[i].attrs), e.xdot, e.x, e.y, e.times, numStates, numOutputs)
    {
      var e :- PrepareElement(initialized, states, nNodes, dt, k, z, numStates, numOutputs, sqrt);
      r := EvaluateElement(e, nNodes - 1, |z|);
    }

    /** collocation_residuals once the element is prepared: the blocks are
        evaluated at the element's node times, and the collocation
        equations follow their residuals. */
    method EvaluateElement(e: Element, rows: nat, ghost size: nat) returns (r: Result<seq<real>>)
      requires Valid() && states.Some?
      requires |e.nc| == |e.x| == |e.xdot| == |e.y| == rows && IsTable(e.nc, rows)
      requires Shapes(e.xdot, e.x, e.y, numStates, numOutputs)
      requires size == ZSize(rows, numStates, numOutputs)
      modifies (set b | b in blocks)`nNodes, (set b | b in blocks)`t, (set b | b in blocks)`attrs
      modifies (set b | b in blocks)`h, (set b | b in blocks)`qIn, (set b | b in blocks)`qOut
      ensures Valid() && states.Some? && |states.value| == numStates
      ensures r.Ok? ==> Resids(blocks, sqrt).Ok? && ConcatColumns(Resids(blocks, sqrt).value).Ok?
      ensures r.Ok? ==> |r.value| == size
      ensures r.Ok? ==>
        r.value == Flatten(ConcatColumns(Resids(blocks, sqrt).value).value) +
                   Flatten(CollocationEquations(e.nc, dt, e.x, e.xdot, states.value, numStates))
      ensures r.Ok? ==> forall i :: 0 <= i < |blocks| ==>
        ValuesSet(blocks[i], old(blocks[i].attrs), e.xdot, e.x, e.y, e.times, numStates, numOutputs)
    {
      var f1 :- Step(e.xdot, e.x, e.y, e.times, numStates, numOutputs);
      var f2 := CollocationEquations(e.nc, dt, e.x, e.xdot, states.value, numStates);
      StepWidth(blocks, sqrt, rows);
      ElementSize(f1, f2, rows, numStates, numOutputs, size);
      r := Ok(Flatten(f1) + Flatten(f2));
    }

    /** fsolve's first call of collocation_residuals, whose value the solver
        goes on from and whose exception, if any, it passes on. */
    method FirstEvaluation(z: seq<real>) returns (o: Outcome)
      requires Valid()
      modifies (set b | b in blocks)`nNodes, (set b | b in blocks)`t, (set b | b in blocks)`attrs
      modifies (set b | b in blocks)`h, (set b | b in blocks)`qIn, (set b | b in blocks)`qOut
      ensures Valid()
      ensures o.Pass? ==> initialized && states.Some? && 2 <= nNodes <= 6
      ensures o.Pass? ==> PrepareElement(initialized, states, nNodes, dt, k, z, numStates, numOutputs, sqrt).Ok?
      ensures PrepareElement(initialized, states, nNodes, dt, k, z, numStates, numOutputs, sqrt).Raise? ==>
        o == Fail(PrepareElement(initialized, states, nNodes, dt, k, z, numStates, numOutputs, sqrt).error)
    {
      var r := CollocationResiduals(z);
      o := if r.Ok? then Pass else Fail(r.error);
    }

    /** The residual function fsolve is given when solving for outputs
        consistent with the initial states, as written: the blocks are
        evaluated at one node holding the initial conditions, zero
        derivatives, the guessed outputs y and time 0, and the last
        numOutputs columns of the residual are returned (all of them when
        there are no outputs). */
    method InitialOutputResiduals(y: seq<real>) returns (r: Result<seq<real>>)
      requires Valid() && |y| == numOutputs
      modifies (set b | b in blocks)`nNodes, (set b | b in blocks)`t, (set b | b in blocks)`attrs
      modifies (set b | b in blocks)`h, (set b | b in blocks)`qIn, (set b | b in blocks)`qOut
      ensures Valid()
      ensures r.Ok? ==> Resids(blocks, sqrt).Ok? && ConcatColumns(Resids(blocks, sqrt).value).Ok?
      ensures r.Ok? ==>
        var resid := ConcatColumns(Resids(blocks, sqrt).value).value;
        var cols := LastColumns(numStates + numOutputs, numOutputs);
        |resid| == 1 && IsTable(resid, numStates + numOutputs) &&
        r.value == Flatten(SelectColumns(resid, numStates + numOutputs, cols)) && |r.value| == |cols|
      ensures Shapes(Zeros(1, numStates), [ic], [y], numStates, numOutputs)
      ensures r.Ok? ==> forall i :: 0 <= i < |blocks| ==>
        ValuesSet(blocks[i], old(blocks[i].attrs), Zeros(1, numStates), [ic], [y], Scalar(0.0), numStates, numOutputs)
    {
      var resid :- Step(Zeros(1, numStates), [ic], [y], Scalar(0.0), numStates, numOutputs);
      OutputSelection(blocks, sqrt);
      var cols := LastColumns(numStates + numOutputs, numOutputs);
      var selected := SelectColumns(resid, numStates + numOutputs, cols);
      FlattenLength(selected, |cols|);
      r := Ok(Flatten(selected));
    }

    /** The residual function as evidently intended: the same evaluation,
        returning the output equations of the residual, one per output,
        wherever the blocks put them. */
    method OutputEquationResiduals(y: seq<real>) returns (r: Result<seq<real>>)
      requires Valid() && |y| == numOutputs
      modifies (set b | b in blocks)`nNodes, (set b | b in blocks)`t, (set b | b in blocks)`attrs
      modifies (set b | b in blocks)`h, (set b | b in blocks)`qIn, (set b | b in blocks)`qOut
      ensures Valid()
      ensures r.Ok? ==> Resids(blocks, sqrt).Ok? && ConcatColumns(Resids(blocks, sqrt).value).Ok?
      ensures r.Ok? ==>
        var resid := ConcatColumns(Resids(blocks, sqrt).value).value;
        var cols := OutputEquationColumns(EquationFlags(Kinds(blocks)));
        |resid| == 1 && IsTable(resid, numStates + numOutputs) &&
        (forall j :: 0 <= j < |cols| ==> cols[j] < numStates + numOutputs) &&
        r.value == Flatten(SelectColumns(resid, numStates + numOutputs, cols)) && |r.value| == numOutputs
      ensures Shapes(Zeros(1, numStates), [ic], [y], numStates, numOutputs)
      ensures r.Ok? ==> forall i :: 0 <= i < |blocks| ==>
        ValuesSet(blocks[i], old(blocks[i].attrs), Zeros(1, numStates), [ic], [y], Scalar(0.0), numStates, numOutputs)
    {
      var resid :- Step(Zeros(1, numStates), [ic], [y], Scalar(0.0), numStates, numOutputs);
      OutputSelection(blocks, sqrt);
      var cols := OutputEquationColumns(EquationFlags(Kinds(blocks)));
      var selected := SelectColumns(resid, numStates + numOutputs, cols);
      FlattenLength(selected, |cols|);
      r := Ok(Flatten(selected));
    }

    /** find_initial_outputs: fsolve starts from all-ones outputs, so its
        first evaluation of the residual function decides whether the solve
        raises, and fsolve raises TypeError when that residual's length is
        neither the guess's nor 1 while the guess's is not 1; y0 stands for
        the outputs the solver returns. The result is the initial states and
        those outputs, one row each. */
    method FindInitialOutputs(y0: seq<real>) returns (r: Result<(Table, Table)>)
      requires Valid() && |y0| == numOutputs
      modifies (set b | b in blocks)`nNodes, (set b | b in blocks)`t, (set b | b in blocks)`attrs
      modifies (set b | b in blocks)`h, (set b | b in blocks)`qIn, (set b | b in blocks)`qOut
      ensures Valid() && unchanged(this)
      ensures r.Ok? ==> r.value == ([ic], [y0])
      ensures r.Ok? ==> numOutputs > 0 || numStates == 0
    {
      var first := InitialOutputResiduals(Repeat(1.0, numOutputs));
      if first.Raise? {
        return Raise(first.error);
      }
      if |first.value| != numOutputs && numOutputs != 1 {
        return Raise(TypeError);
      }
      r := Ok(([ic], [y0]));
    }

    /** The time-related values initialize sets: the node count, the step,
        the element counter and the start time. */
    method SetTime(n: int, dt: real, time: real)
      requires Valid()
      modifies this`initialized, this`nNodes, this`dt, this`k, this`time
      ensures Valid()
      ensures initialized && nNodes == n && this.dt == dt && k == 0 && this.time == time
    {
      nNodes := n;
      this.dt := dt;
      k := 0;
      this.time := time;
      initialized := true;
    }

    /** to_dict: the state row and the output row as dicts keyed by the
        global names. */
    function ToDicts(x: seq<real>, y: seq<real>): (r: Result<(map<string, real>, map<string, real>)>)
      ensures r.Ok? ==> r.value.0.Keys == Names(stateIdx) && r.value.1.Keys == Names(outputIdx)
    {
      var stateDict :- ToDict(stateIdx, x);
      var outputDict :- ToDict(outputIdx, y);
      DictNames(stateIdx, x);
      DictNames(outputIdx, y);
      Ok((stateDict, outputDict))
    }

    /** Sets the node count, step, counter and time, resets the running
        states to the initial conditions, and solves for consistent initial
        outputs, y0 standing for the solver's answer. Returns the time and
        the state and output dicts. The node count is not checked here. */
    method Initialize(n: int, dt: real, time: real, y0: seq<real>) returns (r: Result<(real, map<string, real>, map<string, real>)>)
      requires Valid() && |y0| == numOutputs
      modifies this`initialized, this`nNodes, this`dt, this`k, this`time, this`states
      modifies (set b | b in blocks)`nNodes, (set b | b in blocks)`t, (set b | b in blocks)`attrs
      modifies (set b | b in blocks)`h, (set b | b in blocks)`qIn, (set b | b in blocks)`qOut
      ensures Valid()
      ensures initialized && nNodes == n && this.dt == dt && k == 0 && this.time == time && states == Some(ic)
      ensures r.Ok? ==> ToDicts(ic, y0).Ok? && r.value == (time, ToDicts(ic, y0).value.0, ToDicts(ic, y0).value.1)
    {
      SetTime(n, dt, time);
      ResetStates();
      var found :- FindInitialOutputs(y0);
      var dicts :- ToDicts(ic, y0);
      r := Ok((this.time, dicts.0, dicts.1));
    }

    /** The solving part of update: fsolve starts from all ones, so its
        first evaluation of collocation_residuals decides whether the step
        raises; z stands for the solution it returns. The running states
        become the states at the element's last node, whose outputs are
        returned. A negative guess size raises ValueError before the solve. */
    method Advance(z: seq<real>) returns (r: Result<seq<real>>)
      requires Valid()
      requires initialized && nNodes >= 1 ==> |z| == ZSize(nNodes - 1, numStates, numOutputs)
      modifies this`states
      modifies (set b | b in blocks)`nNodes, (set b | b in blocks)`t, (set b | b in blocks)`attrs
      modifies (set b | b in blocks)`h, (set b | b in blocks)`qIn, (set b | b in blocks)`qOut
      ensures Valid()
      ensures !initialized ==> r == Raise(AttributeError)
      ensures initialized && nNodes < 1 && 2 * numStates + numOutputs > 0 ==> r == Raise(ValueError)
      ensures r.Raise? ==> states == old(states)
      ensures r.Ok? ==> initialized && 2 <= nNodes <= 6 && states.Some?
      ensures r.Ok? ==> LastNode(z, nNodes, numStates, numOutputs) == Ok((states.value, r.value))
    {
      if !initialized {
        return Raise(AttributeError);
      }
      if nNodes < 1 && 2 * numStates + numOutputs > 0 {
        return Raise(ValueError);
      }
      var size: nat := if nNodes >= 1 then ZSize(nNodes - 1, numStates, numOutputs) else 0;
      var first := FirstEvaluation(Repeat(1.0, size));
      if first.Fail? {
        return Raise(first.error);
      }
      var last := LastNode(z, nNodes, numStates, numOutputs).value;
      states := Some(last.0);
      r := Ok(last.1);
    }

    /** The end of update: the element counter advances and the time
        becomes dt times the counter, whatever time the simulation started
        from. */
    method NextElement()
      requires Valid()
      modifies this`k, this`time
      ensures Valid()
      ensures k == old(k) + 1 && time == ElementStart(dt, k)
    {
      k := k + 1;
      time := ElementStart(dt, k);
    }

    /** The state and output dicts of the last node of an element of n
        nodes whose solution is z. */
    function LastDicts(z: seq<real>, n: int): Result<(map<string, real>, map<string, real>)>
      requires 2 <= n
    {
      var last :- LastNode(z, n, numStates, numOutputs);
      ToDicts(last.0, last.1)
    }

    /** The dicts the first |sds| updates report, update i solving zs[i]
        on elements of n nodes. */
    ghost predicate Solved(zs: seq<seq<real>>, n: int, sds: seq<map<string, real>>, ods: seq<map<string, real>>)
      decreases |sds|
    {
      |sds| == |ods| <= |zs| &&
      (sds != [] ==>
        2 <= n && Solved(zs, n, sds[..|sds| - 1], ods[..|ods| - 1]) &&
        LastDicts(zs[|sds| - 1], n) == Ok((sds[|sds| - 1], ods[|ods| - 1])))
    }

    /** Update i reported the dicts of the last node of zs[i]. */
    lemma {:induction false} SolvedAt(zs: seq<seq<real>>, n: int, sds: seq<map<string, real>>, ods: seq<map<string, real>>)
      requires Solved(zs, n, sds, ods)
      ensures |sds| == |ods| <= |zs|
      ensures forall i :: 0 <= i < |sds| ==> 2 <= n && LastDicts(zs[i], n) == Ok((sds[i], ods[i]))
      decreases |sds|
    {
      if sds != [] {
        SolvedAt(zs, n, sds[..|sds| - 1], ods[..|ods| - 1]);
      }
    }

    /** One more update keeps the reported dicts those of the solutions. */
    lemma SolvedSnoc(zs: seq<seq<real>>, n: int, sds: seq<map<string, real>>, ods: seq<map<string, real>>,
                     d: (map<string, real>, map<string, real>))
      requires Solved(zs, n, sds, ods) && |sds| < |zs| && 2 <= n && LastDicts(zs[|sds|], n) == Ok(d)
      ensures Solved(zs, n, sds + [d.0], ods + [d.1])
    {
      assert (sds + [d.0])[..|sds|] == sds && (ods + [d.1])[..|ods|] == ods;
    }

    /** update: advances one element, then reports the time and the state
        and output dicts of the element's last node. */
    method Update(z: seq<real>) returns (r: Result<(real, map<string, real>, map<string, real>)>)
      requires Valid()
      requires initialized && nNodes >= 1 ==> |z| == ZSize(nNodes - 1, numStates, numOutputs)
      modifies this`states, this`k, this`time
      modifies (set b | b in blocks)`nNodes, (set b | b in blocks)`t, (set b | b in blocks)`attrs
      modifies (set b | b in blocks)`h, (set b | b in blocks)`qIn, (set b | b in blocks)`qOut
      ensures Valid()
      ensures !initialized ==> r == Raise(AttributeError)
      ensures r.Raise? ==> k == old(k) && time == old(time)
      ensures r.Ok? ==> initialized && 2 <= nNodes <= 6 && states.Some?
      ensures r.Ok? ==> k == old(k) + 1 && time == ElementStart(dt, k) && r.value.0 == time
      ensures r.Ok? ==> LastNode(z, nNodes, numStates, numOutputs).Ok? && states.value == LastNode(z, nNodes, numStates, numOutputs).value.0
      ensures r.Ok? ==> LastDicts(z, nNodes) == Ok((r.value.1, r.value.2))
      ensures r.Ok? ==> r.value.1.Keys == Names(stateIdx) && r.value.2.Keys == Names(outputIdx)
    {
      var outputs :- Advance(z);
      var dicts :- ToDicts(states.value, outputs);
      NextElement();
      r := Ok((time, dicts.0, dicts.1));
    }

    /** update_until: the consistent initial outputs, y0 standing for the
        solver's answer, then int((tf - time) / dt) updates, zs[i]
        standing for the solution of update i. The times and, name by name,
        the state and output values are collected, the first entries being
        the initial conditions and outputs. */
    method UpdateUntil(tf: real, y0: seq<real>, zs: seq<seq<real>>)
      returns (r: Result<History>, ghost sds: seq<map<string, real>>, ghost ods: seq<map<string, real>>)
      requires Valid() && |y0| == numOutputs
      requires initialized && dt != 0.0 ==> UpdateCount(tf, time, dt) <= |zs|
      requires initialized && nNodes >= 1 ==> forall i :: 0 <= i < |zs| ==> |zs[i]| == ZSize(nNodes - 1, numStates, numOutputs)
      modifies this`states, this`k, this`time
      modifies (set b | b in blocks)`nNodes, (set b | b in blocks)`t, (set b | b in blocks)`attrs
      modifies (set b | b in blocks)`h, (set b | b in blocks)`qIn, (set b | b in blocks)`qOut
      ensures Valid()
      ensures !initialized || dt == 0.0 ==> r.Raise?
      ensures r.Ok? ==> dt != 0.0 && ToDicts(ic, y0).Ok?
      ensures r.Ok? ==> k == old(k) + Steps(tf, old(time), dt) && |sds| == Steps(tf, old(time), dt)
      ensures r.Ok? ==> Solved(zs, nNodes, sds, ods)
      ensures r.Ok? ==> Tracks(r.value, ToDicts(ic, y0).value, old(time), dt, old(k), sds, ods)
    {
      sds, ods := [], [];
      var found :- FindInitialOutputs(y0);
      var dicts :- ToDicts(ic, y0);
      r, sds, ods := Simulate(tf, dicts, zs);
    }

    /** The rest of update_until once the initial dicts are known: the
        number of updates from the time and the step, then the updates. */
    method Simulate(tf: real, dicts: (map<string, real>, map<string, real>), zs: seq<seq<real>>)
      returns (r: Result<History>, ghost sds: seq<map<string, real>>, ghost ods: seq<map<string, real>>)
      requires Valid() && dicts.0.Keys == Names(stateIdx) && dicts.1.Keys == Names(outputIdx)
      requires initialized && dt != 0.0 ==> UpdateCount(tf, time, dt) <= |zs|
      requires initialized && nNodes >= 1 ==> forall i :: 0 <= i < |zs| ==> |zs[i]| == ZSize(nNodes - 1, numStates, numOutputs)
      modifies this`states, this`k, this`time
      modifies (set b | b in blocks)`nNodes, (set b | b in blocks)`t, (set b | b in blocks)`attrs
      modifies (set b | b in blocks)`h, (set b | b in blocks)`qIn, (set b | b in blocks)`qOut
      ensures Valid()
      ensures !initialized || dt == 0.0 ==> r.Raise?
      ensures r.Ok? ==> dt != 0.0 && k == old(k) + Steps(tf, old(time), dt) && |sds| == Steps(tf, old(time), dt)
      ensures r.Ok? ==> Solved(zs, nNodes, sds, ods) && Tracks(r.value, dicts, old(time), dt, old(k), sds, ods)
    {
      sds, ods := [], [];
      if !initialized {
        r := Raise(AttributeError);
        return;
      }
      if dt == 0.0 {
        r := Raise(ZeroDivisionError);
        return;
      }
      var history := Begin(time, dicts);
      var n := UpdateCount(tf, time, dt);
      r, sds, ods := RunUpdates(n, zs, history, dicts, time);
    }

    /** update_until's loop: n updates, zs[i] standing for the solution
        of update i, each recorded in the histories. */
    method RunUpdates(n: int, zs: seq<seq<real>>, h: History, ghost first: (map<string, real>, map<string, real>),
                      ghost t0: real) returns (r: Result<History>, ghost sds: seq<map<string, real>>, ghost ods: seq<map<string, real>>)
      requires Valid() && initialized && Tracks(h, first, t0, dt, k, [], [])
      requires n <= |zs| && (nNodes >= 1 ==> forall i :: 0 <= i < |zs| ==> |zs[i]| == ZSize(nNodes - 1, numStates, numOutputs))
      modifies this`states, this`k, this`time
      modifies (set b | b in blocks)`nNodes, (set b | b in blocks)`t, (set b | b in blocks)`attrs
      modifies (set b | b in blocks)`h, (set b | b in blocks)`qIn, (set b | b in blocks)`qOut
      ensures Valid()
      ensures nNodes == old(nNodes)
      ensures r.Ok? ==> k == old(k) + (if n < 0 then 0 else n) && |sds| == (if n < 0 then 0 else n)
      ensures r.Ok? ==> Solved(zs, nNodes, sds, ods) && Tracks(r.value, first, t0, dt, old(k), sds, ods)
    {
      ghost var k0 := k;
      var history := h;
      var i := 0;
      sds, ods := [], [];
      while i < n
        invariant Valid() && initialized && k == k0 + i && nNodes == old(nNodes)
        invariant 0 <= i && (n < 0 ==> i == 0) && (0 <= n ==> i <= n) && |sds| == i
        invariant Solved(zs, nNodes, sds, ods) && Tracks(history, first, t0, dt, k0, sds, ods)
      {
        history, sds, ods :- UpdateAndRecord(zs, i, history, first, t0, k0, sds, ods);
        i := i + 1;
      }
      r := Ok(history);
    }

    /** The histories update_until has after the updates from element k0
        and time t0 that reported the dicts sds and ods: the times, and per
        name the values, starting with first's. */
    ghost predicate Tracks(h: History, first: (map<string, real>, map<string, real>), t0: real, dt: real, k0: int,
                           sds: seq<map<string, real>>, ods: seq<map<string, real>>)
    {
      |sds| == |ods| && h.times == [t0] + ElementTimes(dt, k0, |sds|) &&
      first.0.Keys == Names(stateIdx) && SameNames(first.0, sds) && h.states == Trajectory(first.0, sds) &&
      first.1.Keys == Names(outputIdx) && SameNames(first.1, ods) && h.outputs == Trajectory(first.1, ods)
    }

    /** In histories that track updates solving zs, entry 0 of a name is
        its initial value and entry i + 1 its value at the last node of
        zs[i]. */
    lemma HistoryEntries(h: History, first: (map<string, real>, map<string, real>), t0: real, dt: real, k0: int,
                         sds: seq<map<string, real>>, ods: seq<map<string, real>>, zs: seq<seq<real>>, n: int)
      requires Solved(zs, n, sds, ods) && Tracks(h, first, t0, dt, k0, sds, ods)
      ensures |h.times| == |sds| + 1 && |sds| <= |zs| && (sds != [] ==> 2 <= n)
      ensures forall key :: key in h.states ==> |h.states[key]| == |sds| + 1 && h.states[key][0] == first.0[key]
      ensures forall key :: key in h.outputs ==> |h.outputs[key]| == |sds| + 1 && h.outputs[key][0] == first.1[key]
      ensures forall i, key :: 0 <= i < |sds| && key in h.states ==>
        LastDicts(zs[i], n).Ok? && key in LastDicts(zs[i], n).value.0 && h.states[key][i + 1] == LastDicts(zs[i], n).value.0[key]
      ensures forall i, key :: 0 <= i < |sds| && key in h.outputs ==>
        LastDicts(zs[i], n).Ok? && key in LastDicts(zs[i], n).value.1 && h.outputs[key][i + 1] == LastDicts(zs[i], n).value.1[key]
    {
      SolvedAt(zs, n, sds, ods);
      forall key | key in h.states
        ensures |h.states[key]| == |sds| + 1 && h.states[key][0] == first.0[key]
        ensures forall j :: 0 <= j < |sds| ==> h.states[key][j + 1] == sds[j][key]
      {
        TrajectoryAt(first.0, sds, key);
      }
      forall key | key in h.outputs
        ensures |h.outputs[key]| == |sds| + 1 && h.outputs[key][0] == first.1[key]
        ensures forall j :: 0 <= j < |ods| ==> h.outputs[key][j + 1] == ods[j][key]
      {
        TrajectoryAt(first.1, ods, key);
      }
    }

    /** One pass of update_until's loop: update i, solving zs[i], then the
        time and both dicts appended to the histories. */
    method UpdateAndRecord(zs: seq<seq<real>>, i: nat, h: History, ghost first: (map<string, real>, map<string, real>),
                           ghost t0: real, ghost k0: int, ghost sds: seq<map<string, real>>, ghost ods: seq<map<string, real>>)
      returns (r: Result<History>, ghost sds': seq<map<string, real>>, ghost ods': seq<map<string, real>>)
      requires Valid() && initialized && k == k0 + i && i == |sds| < |zs|
      requires Solved(zs, nNodes, sds, ods) && Tracks(h, first, t0, dt, k0, sds, ods)
      requires nNodes >= 1 ==> |zs[i]| == ZSize(nNodes - 1, numStates, numOutputs)
      modifies this`states, this`k, this`time
      modifies (set b | b in blocks)`nNodes, (set b | b in blocks)`t, (set b | b in blocks)`attrs
      modifies (set b | b in blocks)`h, (set b | b in blocks)`qIn, (set b | b in blocks)`qOut
      ensures Valid() && initialized && nNodes == old(nNodes)
      ensures r.Ok? ==> k == k0 + i + 1 && |sds'| == i + 1
      ensures r.Ok? ==> Solved(zs, nNodes, sds', ods') && Tracks(r.value, first, t0, dt, k0, sds', ods')
    {
      sds', ods' := sds, ods;
      var u :- Update(zs[i]);
      RecordStep(zs, nNodes, h, first, t0, dt, k0, sds, ods, k, u);
      sds', ods' := sds + [u.1], ods + [u.2];
      r := Ok(History(h.times + [u.0], Record(h.states, u.1), Record(h.outputs, u.2)));
    }

    /** Recording the report of update |sds| + 1 keeps the histories those
        of the solutions. */
    lemma RecordStep(zs: seq<seq<real>>, n: int, h: History, first: (map<string, real>, map<string, real>),
                     t0: real, dt: real, k0: int, sds: seq<map<string, real>>, ods: seq<map<string, real>>,
                     k: int, u: (real, map<string, real>, map<string, real>))
      requires Solved(zs, n, sds, ods) && Tracks(h, first, t0, dt, k0, sds, ods) && |sds| < |zs| && 2 <= n
      requires LastDicts(zs[|sds|], n) == Ok((u.1, u.2)) && k == k0 + |sds| + 1 && u.0 == ElementStart(dt, k)
      requires u.1.Keys == Names(stateIdx) && u.2.Keys == Names(outputIdx)
      ensures Solved(zs, n, sds + [u.1], ods + [u.2])
      ensures h.states.Keys == u.1.Keys && h.outputs.Keys == u.2.Keys
      ensures Tracks(History(h.times + [u.0], Record(h.states, u.1), Record(h.outputs, u.2)), first, t0, dt, k0, sds + [u.1], ods + [u.2])
    {
      SolvedSnoc(zs, n, sds, ods, (u.1, u.2));
      TimesNext(h.times, t0, dt, k0, |sds|, u.0);
      TrajectorySnoc(first.0, sds, u.1);
      TrajectorySnoc(first.1, ods, u.2);
    }

    /** The running states become a copy of the initial conditions. */
    method ResetStates()
      modifies this`states
      ensures states == Some(ic)
    {
      states := Some(ic);
    }

    /** Appends b2 to b1's outlets and b1 to b2's inlets; nothing else changes. */
    method Connect(b1: Block, b2: Block)
      modifies b1`outlet, b2`inlet
      ensures b1.outlet == old(b1.outlet) + [b2]
      ensures b2.inlet == old(b2.inlet) + [b1]
    {
      b1.outlet := b1.outlet + [b2];
      b2.inlet := b2.inlet + [b1];
    }
  }

  /** The number of updates update_until performs: range(N) is empty for
      a negative N. */
  function Steps(tf: real, time: real, dt: real): nat
    requires dt != 0.0
  {
    var n := Trunc((tf - time) / dt);
    if n < 0 then 0 else n
  }

  /** int((tf - time) / dt), the argument of update_until's range. */
  function UpdateCount(tf: real, time: real, dt: real): (n: int)
    requires dt != 0.0
    ensures Steps(tf, time, dt) == if n < 0 then 0 else n
  {
    Trunc((tf - time) / dt)
  }

  /** What update_until returns: the times, and per state and per output
      name the list of its values. */
  datatype History = History(times: seq<real>, states: map<string, seq<real>>, outputs: map<string, seq<real>>)

  /** The times reported by n updates that start at element k0. */
  function ElementTimes(dt: real, k0: int, n: nat): (ts: seq<real>)
    ensures |ts| == n
  {
    if n == 0 then [] else ElementTimes(dt, k0, n - 1) + [ElementStart(dt, k0 + n)]
  }

  /** The time reported by update n + 1 goes at the end of the times. */
  lemma TimesNext(times: seq<real>, t0: real, dt: real, k0: int, n: nat, time: real)
    requires times == [t0] + ElementTimes(dt, k0, n) && time == ElementStart(dt, k0 + n + 1)
    ensures times + [time] == [t0] + ElementTimes(dt, k0, n + 1)
  {
    assert ElementTimes(dt, k0, n + 1) == ElementTimes(dt, k0, n) + [time];
  }

  /** A history per name, each holding the one value of a dict. */
  function Histories(d: map<string, real>): (h: map<string, seq<real>>)
    ensures h.Keys == d.Keys && forall key :: key in h ==> h[key] == [d[key]]
  {
    map key | key in d :: [d[key]]
  }

  /** The histories before the first update: the start time, and per
      name the value in the dicts. */
  function Begin(t0: real, dicts: (map<string, real>, map<string, real>)): (h: History)
    ensures h.times == [t0]
    ensures h.states == Trajectory(dicts.0, []) && h.outputs == Trajectory(dicts.1, [])
  {
    History([t0], Histories(dicts.0), Histories(dicts.1))
  }

  /** Every dict of ds has first's names. */
  ghost predicate SameNames(first: map<string, real>, ds: seq<map<string, real>>)
  {
    forall j :: 0 <= j < |ds| ==> ds[j].Keys == first.Keys
  }

  /** Per name, the history of first's value followed by the value in
      each dict of ds, as update_until appends them. */
  function Trajectory(first: map<string, real>, ds: seq<map<string, real>>): (h: map<string, seq<real>>)
    requires SameNames(first, ds)
    ensures h.Keys == first.Keys
    decreases |ds|
  {
    if ds == [] then Histories(first)
    else Record(Trajectory(first, ds[..|ds| - 1]), ds[|ds| - 1])
  }

  /** One more dict with the same names is one more value per name. */
  lemma TrajectorySnoc(first: map<string, real>, ds: seq<map<string, real>>, d: map<string, real>)
    requires SameNames(first, ds) && d.Keys == first.Keys
    ensures SameNames(first, ds + [d])
    ensures Trajectory(first, ds + [d]) == Record(Trajectory(first, ds), d)
  {
    assert (ds + [d])[..|ds|] == ds;
  }

  /** Entry 0 of a name's history is first's value and entry j + 1 the
      value in dict j. */
  lemma {:induction false} TrajectoryAt(first: map<string, real>, ds: seq<map<string, real>>, key: string)
    requires SameNames(first, ds) && key in first
    ensures |Trajectory(first, ds)[key]| == |ds| + 1 && Trajectory(first, ds)[key][0] == first[key]
    ensures forall j :: 0 <= j < |ds| ==> Trajectory(first, ds)[key][j + 1] == ds[j][key]
    decreases |ds|
  {
    if ds != [] {
      var prior := ds[..|ds| - 1];
      TrajectoryAt(first, prior, key);
      assert Trajectory(first, ds)[key] == Trajectory(first, prior)[key] + [ds[|ds| - 1][key]];
    }
  }

  /** Every history grows by the dict's value under its name. */
  function Record(h: map<string, seq<real>>, d: map<string, real>): (h': map<string, seq<real>>)
    requires h.Keys == d.Keys
    ensures h'.Keys == h.Keys && forall key :: key in h' ==> h'[key] == h[key] + [d[key]]
  {
    map key | key in h :: h[key] + [d[key]]
  }

  /** The states and outputs at the last node of an element of n nodes:
      the last rows of x and y once z is split. */
  function LastNode(z: seq<real>, n: int, s: nat, o: nat): (r: Result<(seq<real>, seq<real>)>)
    requires 2 <= n
    ensures r.Ok? <==> |z| == ZSize(n - 1, s, o)
    ensures r.Ok? ==> |r.value.0| == s && |r.value.1| == o
    ensures r.Ok? ==> r.value.0 == Split(z, n - 1, s, o).value.0[n - 2] && r.value.1 == Split(z, n - 1, s, o).value.2[n - 2]
  {
    var parts :- Split(z, n - 1, s, o);
    Ok((parts.0[n - 2], parts.2[n - 2]))
  }

  /** One finite element's inputs: the collocation matrix, z cut into x,
      xdot and y, and the node times. */
  datatype Element = Element(nc: Table, x: Table, xdot: Table, y: Table, times: Value)

  /** The part of collocation_residuals before the blocks are evaluated.
      Reading n_nodes or the running states before they exist raises
      AttributeError, a node count outside 2..6 raises when the collocation
      matrix is looked up, and a z of the wrong size fails to reshape. */
  function PrepareElement(initialized: bool, states: Option<seq<real>>, n: int, dt: real, k: int,
                          z: seq<real>, s: nat, o: nat, sqrt: real -> real): (r: Result<Element>)
    ensures !initialized || states.None? ==> r == Raise(AttributeError)
    ensures initialized && states.Some? && !(2 <= n <= 6) ==> r == Raise(UnboundLocalError)
    ensures initialized && states.Some? && 2 <= n <= 6 ==>
      ((r.Ok? <==> |z| == ZSize(n - 1, s, o)) && (r.Raise? ==> r.error == ValueError))
    ensures r.Ok? ==> (2 <= n <= 6 && |r.value.nc| == n - 1 && IsTable(r.value.nc, n - 1) &&
                       Split(z, n - 1, s, o) == Ok((r.value.x, r.value.xdot, r.value.y)) &&
                       r.value.times == Column(NodeTimes(Collocation.Tc(n, sqrt).value, dt, k)))
  {
    if !initialized || states.None? then Raise(AttributeError)
    else
      var nc :- Collocation.Colloc(n);
      var tc := Collocation.Tc(n, sqrt);
      var (x, xdot, y) :- Split(z, n - 1, s, o);
      Ok(Element(nc, x, xdot, y, Column(NodeTimes(tc.value, dt, k))))
  }

  /** The residual sizes of an element add up to the size of z. */
  lemma ElementSize(f1: Table, f2: Table, rows: nat, s: nat, o: nat, size: nat)
    requires |f1| == |f2| == rows && IsTable(f1, s + o) && IsTable(f2, s)
    requires size == ZSize(rows, s, o)
    ensures |Flatten(f1) + Flatten(f2)| == size
  {
    ZSizeParts(rows, s, o);
    FlattenLength(f1, s + o);
    FlattenLength(f2, s);
  }

  lemma {:induction false} ZSizeParts(rows: nat, s: nat, o: nat)
    ensures ZSize(rows, s, o) == rows * (s + o) + rows * s
  {
    if rows > 0 {
      ZSizeParts(rows - 1, s, o);
      assert rows * (s + o) == (rows - 1) * (s + o) + (s + o);
      assert rows * s == (rows - 1) * s + s;
    }
  }

  /** Once every block has evaluated n rows, the joined residual has n rows
      and one column per state and output of the flowsheet. */
  lemma StepWidth(blocks: seq<Block>, sqrt: real -> real, rows: nat)
    requires Laid(blocks) && forall i :: 0 <= i < |blocks| ==> blocks[i].nNodes == Some(rows)
    requires Resids(blocks, sqrt).Ok? && ConcatColumns(Resids(blocks, sqrt).value).Ok?
    ensures var t := ConcatColumns(Resids(blocks, sqrt).value).value;
      |t| == rows && IsTable(t, Base(StateNames(Kinds(blocks)), |blocks|) + Base(OutputNames(Kinds(blocks)), |blocks|))
  {
    var kinds := Kinds(blocks);
    var ts := Resids(blocks, sqrt).value;
    var ws := Widths(kinds);
    forall i | 0 <= i < |ts|
      ensures |ts[i]| == rows && IsTable(ts[i], ws[i])
    {
      assert blocks[i].Resid(sqrt) == Ok(ts[i]);
      assert blocks[i].ResidWidth() == ws[i];
    }
    SideBySideWidth(ts, rows, ws);
    SumWidths(kinds);
  }

  /** After a one-node evaluation, the corrected selection picks one
      in-range column per output. */
  lemma OutputSelection(blocks: seq<Block>, sqrt: real -> real)
    requires Laid(blocks) && forall i :: 0 <= i < |blocks| ==> blocks[i].nNodes == Some(1)
    requires Resids(blocks, sqrt).Ok? && ConcatColumns(Resids(blocks, sqrt).value).Ok?
    ensures var kinds := Kinds(blocks);
      var width := Base(StateNames(kinds), |kinds|) + Base(OutputNames(kinds), |kinds|);
      var resid := ConcatColumns(Resids(blocks, sqrt).value).value;
      var cols := OutputEquationColumns(EquationFlags(kinds));
      |resid| == 1 && IsTable(resid, width) && |cols| == Base(OutputNames(kinds), |kinds|) &&
      forall j :: 0 <= j < |cols| ==> cols[j] < width
  {
    var kinds := Kinds(blocks);
    LayoutOffsets(StateNames(kinds));
    LayoutOffsets(OutputNames(kinds));
    StepWidth(blocks, sqrt, 1);
    SumWidths(kinds);
    OutputEquationColumnsExact(EquationFlags(kinds));
    OutputEquationCount(kinds);
  }

  lemma LayoutNext(ns: seq<seq<string>>, i: nat)
    requires i < |ns|
    ensures Layout(ns[..i + 1]) == Layout(ns[..i]) + Enumerate(ns[i], Base(ns, i))
    ensures Base(ns, i + 1) == Base(ns, i) + |ns[i]|
  {
    BaseNext(ns, i);
    var p := ns[..i + 1];
    assert p[..|p| - 1] == ns[..i];
    BaseFront(ns[..i + 1], i);
    assert Lengths(p)[..i] == Lengths(ns)[..i];
  }

  /** What set_values leaves in a block whose attributes were attrs. */
  ghost predicate ValuesSet(b: Block, attrs: map<string, Value>, xdot: Table, x: Table, y: Table, t: Value, xw: nat, yw: nat)
    reads b`nNodes, b`t, b`attrs, b`stateIdx, b`outputIdx
    requires Shapes(xdot, x, y, xw, yw)
  {
    b.nNodes == Some(|y|) && b.t == Some(t) &&
    Apply(attrs, StateWrites(b.stateIdx) + OutputWrites(b.outputIdx), xdot, x, y, xw, yw) == (b.attrs, Pass)
  }

  /** What change_inputs leaves in a block when it succeeds: a release holds
      its upstream height, a reservoir its inflow and outflow totals. */
  ghost predicate InputsGathered(b: Block)
    reads b`h, b`qIn, b`qOut, b`inlet, b`outlet, b`nNodes, (set e | e in b.inlet)`attrs, (set e | e in b.outlet)`attrs
  {
    match b.kind
    case FlowRelease(_, _) => b.UpstreamHeight().Ok? && b.h == b.UpstreamHeight().value
    case Reservoir(_, _, _, _) =>
      b.nNodes.Some? && FlowTotal(b.nNodes.value, b.inlet).Ok? && FlowTotal(b.nNodes.value, b.outlet).Ok? &&
      b.qIn == Column(FlowTotal(b.nNodes.value, b.inlet).value) &&
      b.qOut == Column(FlowTotal(b.nNodes.value, b.outlet).value)
    case _ => true
  }

  /** The residual tables of the blocks in block order, each evaluated in
      the current state; the first failure is the result. */
  function Resids(bs: seq<Block>, sqrt: real -> real): (r: Result<seq<Table>>)
    reads set b | b in bs
    ensures r.Ok? ==> |r.value| == |bs| && forall i :: 0 <= i < |bs| ==> bs[i].Resid(sqrt) == Ok(r.value[i])
  {
    if bs == [] then Ok([])
    else
      var front :- Resids(bs[..|bs| - 1], sqrt);
      var last :- bs[|bs| - 1].Resid(sqrt);
      Ok(front + [last])
  }

  /** Every block holds its own slice of the numbering. */
  ghost predicate Laid(blocks: seq<Block>)
    reads (set b | b in blocks)`stateIdx, (set b | b in blocks)`outputIdx
  {
    forall i :: 0 <= i < |blocks| ==> HasLayout(blocks[i], Kinds(blocks), i)
  }

  /** Block i of a flowsheet over kinds holds its own slice of the numbering. */
  ghost predicate HasLayout(b: Block, kinds: seq<Kind>, i: nat)
    reads b`stateIdx, b`outputIdx
    requires i < |kinds|
  {
    b.stateIdx == Enumerate(StatesName(b.kind), Base(StateNames(kinds), i)) &&
    b.outputIdx == Enumerate(OutputsName(b.kind), Base(OutputNames(kinds), i))
  }

  /** The work of the flowsheet's construction: the initial conditions
      and the numbering. The initial conditions are read first: the
      numbering writes no attribute, so they are the values the source
      reads after it. */
  method Wire(blocks: seq<Block>) returns (initial: seq<real>, globalStates: seq<(string, nat)>, globalOutputs: seq<(string, nat)>)
    requires Distinct(blocks)
    requires forall i :: 0 <= i < |blocks| ==> HasInitialStates(blocks[i])
    modifies (set b | b in blocks)`stateIdx, (set b | b in blocks)`outputIdx
    ensures initial == old(InitialCondition(blocks))
    ensures |initial| == |globalStates| == Base(StateNames(Kinds(blocks)), |blocks|)
    ensures |globalOutputs| == Base(OutputNames(Kinds(blocks)), |blocks|)
    ensures globalStates == Layout(StateNames(Kinds(blocks)))
    ensures globalOutputs == Layout(OutputNames(Kinds(blocks)))
    ensures Laid(blocks)
  {
    initial := CollectInitialConditions(blocks);
    globalStates, globalOutputs := AssignLayout(blocks);
    LayoutOffsets(StateNames(Kinds(blocks)));
    LayoutOffsets(OutputNames(Kinds(blocks)));
  }

  /** The numbering loop of the flowsheet's construction: the outputs and
      then the states of each block take the next values of two running
      counters; each block receives fresh lists holding its own entries. */
  method AssignLayout(blocks: seq<Block>) returns (globalStates: seq<(string, nat)>, globalOutputs: seq<(string, nat)>)
    requires Distinct(blocks)
    modifies (set b | b in blocks)`stateIdx, (set b | b in blocks)`outputIdx
    ensures globalStates == Layout(StateNames(Kinds(blocks)))
    ensures globalOutputs == Layout(OutputNames(Kinds(blocks)))
    ensures Laid(blocks)
  {
    var kinds := Kinds(blocks);
    var sns := StateNames(kinds);
    var ons := OutputNames(kinds);
    globalStates := [];
    globalOutputs := [];
    var outIdx := 0;
    var xIdx := 0;
    var i := 0;
    while i < |blocks|
      invariant 0 <= i <= |blocks|
      invariant globalOutputs == Layout(ons[..i]) && outIdx == Base(ons, i)
      invariant globalStates == Layout(sns[..i]) && xIdx == Base(sns, i)
      invariant forall j :: 0 <= j < i ==> HasLayout(blocks[j], kinds, j)
    {
      var blockStates, blockOutputs := NumberBlock(blocks[i], xIdx, outIdx);
      globalOutputs := globalOutputs + blockOutputs;
      outIdx := outIdx + |blockOutputs|;
      globalStates := globalStates + blockStates;
      xIdx := xIdx + |blockStates|;
      LayoutNext(ons, i);
      LayoutNext(sns, i);
      i := i + 1;
    }
    assert ons[..i] == ons && sns[..i] == sns;
  }

  /** One block's turn in the numbering loop: its outputs and states paired
      with the two counters, and the block given those lists. */
  method NumberBlock(b: Block, xIdx: nat, outIdx: nat) returns (blockStates: seq<(string, nat)>, blockOutputs: seq<(string, nat)>)
    modifies b`stateIdx, b`outputIdx
    ensures blockOutputs == Enumerate(OutputsName(b.kind), outIdx)
    ensures blockStates == Enumerate(StatesName(b.kind), xIdx)
    ensures b.stateIdx == blockStates && b.outputIdx == blockOutputs
  {
    blockOutputs := EnumerateFrom(OutputsName(b.kind), outIdx);
    blockStates := EnumerateFrom(StatesName(b.kind), xIdx);
    b.stateIdx := blockStates;
    b.outputIdx := blockOutputs;
  }

  /** One block's inner loop: each name paired with the counter, which
      then advances. */
  method EnumerateFrom(names: seq<string>, counter: nat) returns (entries: seq<(string, nat)>)
    ensures entries == Enumerate(names, counter)
  {
    entries := [];
    var next := counter;
    var m := 0;
    while m < |names|
      invariant 0 <= m <= |names|
      invariant entries == Enumerate(names[..m], counter) && next == counter + m
    {
      entries := entries + [(names[m], next)];
      next := next + 1;
      m := m + 1;
    }
    assert names[..m] == names;
  }

  /** The loop collecting the initial conditions, block by block. */
  method CollectInitialConditions(blocks: seq<Block>) returns (initial: seq<real>)
    requires forall i :: 0 <= i < |blocks| ==> HasInitialStates(blocks[i])
    ensures initial == InitialCondition(blocks)
    ensures |initial| == Base(StateNames(Kinds(blocks)), |blocks|)
  {
    ghost var vs := BlockStateValues(blocks);
    initial := [];
    var i := 0;
    while i < |blocks|
      invariant 0 <= i <= |blocks|
      invariant initial == Concat(vs[..i])
    {
      ConcatNext(vs, i);
      initial := initial + StateValues(blocks[i]);
      i := i + 1;
    }
    assert vs[..i] == vs;
    InitialConditionLength(blocks);
  }

  /** The first phase of a step: set_values on every block in order. */
  method SetAll(blocks: seq<Block>, xdot: Table, x: Table, y: Table, t: Value, xw: nat, yw: nat) returns (o: Outcome)
    requires Distinct(blocks) && Shapes(xdot, x, y, xw, yw)
    modifies (set b | b in blocks)`nNodes, (set b | b in blocks)`t, (set b | b in blocks)`attrs
    ensures o.Pass? ==> forall i :: 0 <= i < |blocks| ==> ValuesSet(blocks[i], old(blocks[i].attrs), xdot, x, y, t, xw, yw)
  {
    var i := 0;
    while i < |blocks|
      invariant 0 <= i <= |blocks|
      invariant forall j :: 0 <= j < i ==> ValuesSet(blocks[j], old(blocks[j].attrs), xdot, x, y, t, xw, yw)
      invariant forall j :: i <= j < |blocks| ==> blocks[j].attrs == old(blocks[j].attrs)
    {
      o := blocks[i].SetValues(xdot, x, y, t, xw, yw);
      if o.Fail? {
        return;
      }
      i := i + 1;
    }
    o := Pass;
  }

  /** The second phase of a step: change_inputs on every block in order. */
  method GatherAll(blocks: seq<Block>) returns (o: Outcome)
    requires Distinct(blocks)
    modifies (set b | b in blocks)`h, (set b | b in blocks)`qIn, (set b | b in blocks)`qOut
    ensures o.Pass? ==> forall i :: 0 <= i < |blocks| ==> InputsGathered(blocks[i])
    ensures forall i :: 0 <= i < |blocks| && !blocks[i].kind.FlowRelease? ==> blocks[i].h == old(blocks[i].h)
    ensures forall i :: 0 <= i < |blocks| && !blocks[i].kind.Reservoir? ==>
      blocks[i].qIn == old(blocks[i].qIn) && blocks[i].qOut == old(blocks[i].qOut)
  {
    var i := 0;
    while i < |blocks|
      invariant 0 <= i <= |blocks|
      invariant forall j :: 0 <= j < i ==> InputsGathered(blocks[j])
      invariant forall j :: 0 <= j < |blocks| && !blocks[j].kind.FlowRelease? ==> blocks[j].h == old(blocks[j].h)
      invariant forall j :: 0 <= j < |blocks| && !blocks[j].kind.Reservoir? ==>
        blocks[j].qIn == old(blocks[j].qIn) && blocks[j].qOut == old(blocks[j].qOut)
    {
      o := blocks[i].ChangeInputs();
      if o.Fail? {
        return;
      }
      i := i + 1;
    }
    o := Pass;
  }

  /** The residual width of each kind: one column per state and output. */
  function Widths(kinds: seq<Kind>): (ws: seq<nat>)
    ensures |ws| == |kinds| && forall i :: 0 <= i < |kinds| ==> ws[i] == |StatesName(kinds[i])| + |OutputsName(kinds[i])|
  {
    seq(|kinds|, i requires 0 <= i < |kinds| => |StatesName(kinds[i])| + |OutputsName(kinds[i])|)
  }

  /** The residual widths add up to the number of states plus outputs. */
  lemma SumWidths(kinds: seq<Kind>)
    ensures SumNat(Widths(kinds)) == Base(StateNames(kinds), |kinds|) + Base(OutputNames(kinds), |kinds|)
  {
    var sns := StateNames(kinds);
    var ons := OutputNames(kinds);
    assert Lengths(sns)[..|kinds|] == Lengths(sns);
    assert Lengths(ons)[..|kinds|] == Lengths(ons);
    SumNatAdd(Lengths(sns), Lengths(ons), Widths(kinds));
  }

  /** The length of z for an element of rows nodes, s states and o outputs. */
  function ZSize(rows: nat, s: nat, o: nat): nat
  {
    if rows == 0 then 0 else ZSize(rows - 1, s, o) + 2 * s + o
  }

  lemma {:induction false} ZSizeProduct(rows: nat, s: nat, o: nat)
    ensures ZSize(rows, s, o) == rows * (2 * s + o)
  {
    if rows > 0 {
      ZSizeProduct(rows - 1, s, o);
    }
  }

  /** z cut into x (the first s columns of each row), xdot (the next s) and
      y (the remaining o), after reshaping it to rows x (2s + o). */
  function Split(z: seq<real>, rows: nat, s: nat, o: nat): (r: Result<(Table, Table, Table)>)
    ensures r.Ok? <==> |z| == ZSize(rows, s, o)
    ensures r.Ok? ==> (|r.value.0| == |r.value.1| == |r.value.2| == rows &&
                       IsTable(r.value.0, s) && IsTable(r.value.1, s) && IsTable(r.value.2, o))
  {
    ZSizeProduct(rows, s, o);
    var zt :- Reshape(z, rows, 2 * s + o);
    Ok((Columns(zt, 0, s), Columns(zt, s, 2 * s), Columns(zt, 2 * s, 2 * s + o)))
  }

  /** The split loses nothing: joining each row's x, xdot and y back
      together and flattening gives z again. */
  lemma SplitJoin(z: seq<real>, rows: nat, s: nat, o: nat)
    requires Split(z, rows, s, o).Ok?
    ensures var (x, xdot, y) := Split(z, rows, s, o).value;
      Flatten(seq(rows, r requires 0 <= r < rows => x[r] + xdot[r] + y[r])) == z
  {
    var (x, xdot, y) := Split(z, rows, s, o).value;
    var zt := ReshapeRows(z, rows, 2 * s + o);
    var joined := seq(rows, r requires 0 <= r < rows => x[r] + xdot[r] + y[r]);
    forall r | 0 <= r < rows
      ensures joined[r] == zt[r]
    {
      assert zt[r] == zt[r][0..s] + zt[r][s..2 * s] + zt[r][2 * s..2 * s + o];
    }
    assert joined == zt;
    FlattenReshape(z, rows, 2 * s + o);
  }

  /** The collocation equations dt * (NC . xdot) - x + x0 of one element,
      x0 holding the element's starting states in every row. */
  function CollocationEquations(nc: Table, dt: real, x: Table, xdot: Table, start: seq<real>, s: nat): (f: Table)
    requires |nc| == |x| == |xdot| && IsTable(nc, |xdot|) && IsTable(x, s) && IsTable(xdot, s) && |start| == s
    ensures |f| == |x| && IsTable(f, s)
  {
    Combine(dt, MatMul(nc, xdot, s), Repeat(start, |x|), x, s)
  }

  /** A collocation equation vanishes exactly when the state at that node
      is the starting state plus dt times the collocation-weighted derivatives. */
  lemma CollocationEquationZero(nc: Table, dt: real, x: Table, xdot: Table, start: seq<real>, s: nat, r: nat, j: nat)
    requires |nc| == |x| == |xdot| && IsTable(nc, |xdot|) && IsTable(x, s) && IsTable(xdot, s) && |start| == s
    requires r < |x| && j < s
    ensures CollocationEquations(nc, dt, x, xdot, start, s)[r][j] == 0.0 <==>
      x[r][j] == start[j] + dt * Dot(nc[r], Tables.Column(xdot, j))
  {
  }

  /** The node times of element k: the collocation points after the first,
      scaled by dt and shifted by k * dt. */
  function NodeTimes(tc: seq<real>, dt: real, k: int): (ts: seq<real>)
    requires |tc| >= 1
    ensures |ts| == |tc| - 1
  {
    seq(|tc| - 1, i requires 0 <= i < |tc| - 1 => tc[i + 1] * dt + (k as real) * dt)
  }

  /** For each residual column, whether it is a state equation (true) or an
      output equation: each block writes its state equations first. */
  function EquationFlags(kinds: seq<Kind>): (flags: seq<bool>)
    ensures |flags| == SumNat(Widths(kinds))
  {
    if kinds == [] then []
    else
      var last := kinds[|kinds| - 1];
      assert Widths(kinds)[..|kinds| - 1] == Widths(kinds[..|kinds| - 1]);
      EquationFlags(kinds[..|kinds| - 1]) + Repeat(true, |StatesName(last)|) + Repeat(false, |OutputsName(last)|)
  }

  /** The output-equation columns in increasing order. */
  function OutputEquationColumns(flags: seq<bool>): seq<nat>
  {
    if flags == [] then []
    else
      var front := OutputEquationColumns(flags[..|flags| - 1]);
      if flags[|flags| - 1] then front else front + [|flags| - 1]
  }

  /** The selection holds exactly the output-equation columns, in increasing order. */
  lemma {:induction false} OutputEquationColumnsExact(flags: seq<bool>)
    ensures var cols := OutputEquationColumns(flags);
      (forall j :: 0 <= j < |cols| ==> cols[j] < |flags| && !flags[cols[j]]) &&
      (forall c :: 0 <= c < |flags| && !flags[c] ==> c in cols) &&
      (forall i, j :: 0 <= i < j < |cols| ==> cols[i] < cols[j])
  {
    if flags != [] {
      var front := flags[..|flags| - 1];
      OutputEquationColumnsExact(front);
      assert forall c :: 0 <= c < |front| ==> front[c] == flags[c];
    }
  }

  /** The columns fsolve is given when solving for the initial outputs, as
      written: the last count columns, or all of them when count is 0 (a
      slice from -0 starts at the first column). */
  function LastColumns(width: nat, count: nat): (cols: seq<nat>)
    ensures forall j :: 0 <= j < |cols| ==> cols[j] < width
    ensures count <= width && count > 0 ==> |cols| == count
    ensures count == 0 || count > width ==> |cols| == width
  {
    var start := if count == 0 || count > width then 0 else width - count;
    seq(width - start, j requires 0 <= j < width - start => start + j)
  }

  /** The selected columns of a table, in the given order. */
  function SelectColumns(t: Table, width: nat, cols: seq<nat>): (r: Table)
    requires IsTable(t, width) && forall j :: 0 <= j < |cols| ==> cols[j] < width
    ensures |r| == |t| && IsTable(r, |cols|)
    ensures forall i, j :: 0 <= i < |t| && 0 <= j < |cols| ==> r[i][j] == t[i][cols[j]]
  {
    seq(|t|, i requires 0 <= i < |t| => seq(|cols|, j requires 0 <= j < |cols| => t[i][cols[j]]))
  }

  /** The two-reservoir cascade: an inflow feeding a tank, its release
      feeding a second tank, and that tank's release. */
  function Cascade(rule: real -> real, a1: real, a2: real, v1: real, v2: real, cv1: real, cv2: real): (kinds: seq<Kind>)
    ensures |kinds| == 5
  {
    [FlowSource(rule, "Qin"), Reservoir(a1, v1, "V1", "h1"), FlowRelease(cv1, "Q1"),
     Reservoir(a2, v2, "V2", "h2"), FlowRelease(cv2, "Q2")]
  }

  /** The cascade's residual has 7 columns and it has 5 outputs. The last
      5 columns include the second tank's volume balance (column 4) and
      leave out the inflow's equation (column 0), while the output
      equations are columns 0, 2, 3, 5 and 6. */
  lemma LastColumnsMissOutputEquation(rule: real -> real, a1: real, a2: real, v1: real, v2: real, cv1: real, cv2: real)
    ensures var kinds := Cascade(rule, a1, a2, v1, v2, cv1, cv2);
      var flags := EquationFlags(kinds);
      |flags| == 7 && Base(OutputNames(kinds), 5) == 5 &&
      LastColumns(7, 5) == [2, 3, 4, 5, 6] && flags[4] && 0 !in LastColumns(7, 5) &&
      OutputEquationColumns(flags) == [0, 2, 3, 5, 6]
  {
    var kinds := Cascade(rule, a1, a2, v1, v2, cv1, cv2);
    CascadeFlags(kinds);
    CascadeOutputs(kinds);
    assert LastColumns(7, 5) == [2, 3, 4, 5, 6];
    ExampleOutputColumns(EquationFlags(kinds));
  }

  lemma CascadeFlags(kinds: seq<Kind>)
    requires |kinds| == 5 && kinds[0].FlowSource? && kinds[1].Reservoir? && kinds[2].FlowRelease? &&
             kinds[3].Reservoir? && kinds[4].FlowRelease?
    ensures EquationFlags(kinds) == [false, true, false, false, true, false, false]
  {
    assert kinds[..1][..0] == [];
    assert Repeat(true, 1) == [true] && Repeat(false, 1) == [false];
    assert EquationFlags(kinds[..1]) == [false];
    assert kinds[..2][..1] == kinds[..1];
    assert EquationFlags(kinds[..2]) == [false, true, false];
    assert kinds[..3][..2] == kinds[..2];
    assert EquationFlags(kinds[..3]) == [false, true, false, false];
    assert kinds[..4][..3] == kinds[..3];
    assert EquationFlags(kinds[..4]) == [false, true, false, false, true, false];
    assert kinds[..4] == kinds[..|kinds| - 1];
  }

  lemma CascadeOutputs(kinds: seq<Kind>)
    requires |kinds| == 5
    ensures Base(OutputNames(kinds), 5) == 5
  {
    var ls := Lengths(OutputNames(kinds))[..5];
    assert ls == [1, 1, 1, 1, 1];
    assert ls[..4][..3][..2][..1][..0] == [];
    assert SumNat(ls[..1]) == 1;
    assert ls[..2][..1] == ls[..1];
    assert SumNat(ls[..2]) == 2;
    assert ls[..3][..2] == ls[..2];
    assert SumNat(ls[..3]) == 3;
    assert ls[..4][..3] == ls[..3];
    assert SumNat(ls[..4]) == 4;
    assert ls[..4] == ls[..|ls| - 1];
  }

  lemma ExampleOutputColumns(flags: seq<bool>)
    requires flags == [false, true, false, false, true, false, false]
    ensures OutputEquationColumns(flags) == [0, 2, 3, 5, 6]
  {
    ExampleOutputColumnsPrefix();
    OutputColumnsSnoc([false, true, false, false], true);
    assert [false, true, false, false] + [true] == [false, true, false, false, true];
    assert OutputEquationColumns([false, true, false, false, true]) == [0, 2, 3];
    OutputColumnsSnoc([false, true, false, false, true], false);
    assert [false, true, false, false, true] + [false] == [false, true, false, false, true, false];
    assert OutputEquationColumns([false, true, false, false, true, false]) == [0, 2, 3, 5];
    OutputColumnsSnoc([false, true, false, false, true, false], false);
    assert [false, true, false, false, true, false] + [false] == flags;
  }

  /** The first four flags of the example: a release's output equation sits
      at column 1, so columns 0, 2 and 3 are picked. */
  lemma ExampleOutputColumnsPrefix()
    ensures OutputEquationColumns([false, true, false, false]) == [0, 2, 3]
  {
    OutputColumnsSnoc([], false);
    assert [] + [false] == [false];
    assert OutputEquationColumns([false]) == [0];
    OutputColumnsSnoc([false], true);
    assert [false] + [true] == [false, true];
    assert OutputEquationColumns([false, true]) == [0];
    OutputColumnsSnoc([false, true], false);
    assert [false, true] + [false] == [false, true, false];
    assert OutputEquationColumns([false, true, false]) == [0, 2];
    OutputColumnsSnoc([false, true, false], false);
    assert [false, true, false] + [false] == [false, true, false, false];
  }

  lemma OutputColumnsSnoc(f: seq<bool>, b: bool)
    ensures OutputEquationColumns(f + [b]) == if b then OutputEquationColumns(f) else OutputEquationColumns(f) + [|f|]
  {
    assert (f + [b])[..|f|] == f;
  }

  /** The corrected selection picks one column per output equation. */
  lemma {:induction false} OutputColumnsCount(flags: seq<bool>)
    ensures |OutputEquationColumns(flags)| == Count(flags, false)
  {
    if flags != [] {
      OutputColumnsCount(flags[..|flags| - 1]);
    }
  }


  /** The corrected selection: exactly one column per output of the flowsheet. */
  lemma {:induction false} OutputEquationCount(kinds: seq<Kind>)
    ensures |OutputEquationColumns(EquationFlags(kinds))| == Base(OutputNames(kinds), |kinds|)
  {
    OutputColumnsCount(EquationFlags(kinds));
    OutputFlagsCount(kinds);
  }

  lemma {:induction false} OutputFlagsCount(kinds: seq<Kind>)
    ensures Count(EquationFlags(kinds), false) == Base(OutputNames(kinds), |kinds|)
  {
    if kinds != [] {
      var front := kinds[..|kinds| - 1];
      var last := kinds[|kinds| - 1];
      OutputFlagsCount(front);
      NamesBaseSnoc(kinds);
      var ff := EquationFlags(front);
      var ts := Repeat(true, |StatesName(last)|);
      var fs := Repeat(false, |OutputsName(last)|);
      assert EquationFlags(kinds) == ff + ts + fs;
      CountAppend(ff, ts, false);
      CountAppend(ff + ts, fs, false);
      CountRepeat(true, |StatesName(last)|, false);
      CountRepeat(false, |OutputsName(last)|, false);
    }
  }

  /** Adding a block adds its names to the state and output counts. */
  lemma NamesBaseSnoc(kinds: seq<Kind>)
    requires kinds != []
    ensures var front := kinds[..|kinds| - 1];
      Base(StateNames(kinds), |kinds|) == Base(StateNames(front), |front|) + |StatesName(kinds[|kinds| - 1])| &&
      Base(OutputNames(kinds), |kinds|) == Base(OutputNames(front), |front|) + |OutputsName(kinds[|kinds| - 1])|
  {
    var front := kinds[..|kinds| - 1];
    var sns := StateNames(kinds);
    var ons := OutputNames(kinds);
    assert StateNames(front) == sns[..|sns| - 1];
    assert OutputNames(front) == ons[..|ons| - 1];
    BaseFront(sns, |sns| - 1);
    BaseNext(sns, |sns| - 1);
    BaseFront(ons, |ons| - 1);
    BaseNext(ons, |ons| - 1);
  }
}
