/** The hydraulic elements: flow paths (a release through a valve, a constant
    flow, a time-varying source) and reservoirs. Each kind fixes the states and
    outputs it declares, the attributes its constructor sets, and the residual
    formula it writes, column by column, into a zero table. */
module Hydraulics {
  import opened Wrappers
  import opened Tables
  import opened Values
  import Collocation

  datatype Kind =
    | FlowRelease(cv: real, flowrate: string)
    | FlowConstant(value: real, flowrate: string)
    | FlowSource(rule: real -> real, flowrate: string)
    | Reservoir(area: real, ic: real, volume: string, height: string)

  /** The state names the kind declares: a reservoir's volume, nothing for a flow. */
  function StatesName(k: Kind): seq<string>
  {
    if k.Reservoir? then [k.volume] else []
  }

  /** The output names the kind declares: a reservoir's height, a flow's rate. */
  function OutputsName(k: Kind): seq<string>
  {
    if k.Reservoir? then [k.height] else [k.flowrate]
  }

  /** Whether an element of this kind has a flowrate attribute that a
      neighbouring reservoir sums. */
  predicate ProvidesFlow(k: Kind)
  {
    !k.Reservoir?
  }

  function DerName(name: string): string
  {
    "der_" + name
  }

  /** The named attributes the constructor sets, in its order. */
  function InitialAttrs(k: Kind): (m: map<string, Value>)
    ensures forall s :: s in StatesName(k) ==> s in m
    ensures forall s :: s in OutputsName(k) ==> s in m
    ensures k.Reservoir? ==> m[k.height] == Scalar(0.0)
    ensures k.Reservoir? && k.volume != k.height ==> m[k.volume] == Scalar(k.ic)
  {
    match k
    case Reservoir(_, ic, volume, height) =>
      map[volume := Scalar(ic)][DerName(volume) := Scalar(0.0)][height := Scalar(0.0)]
    case _ => map[k.flowrate := Scalar(0.0)]
  }

  function Lookup(attrs: map<string, Value>, name: string): (r: Result<Value>)
    ensures r.Ok? <==> name in attrs
    ensures r.Ok? ==> r.value == attrs[name]
  {
    if name in attrs then Ok(attrs[name]) else Raise(AttributeError)
  }

  /** The inflow (or outflow) total a reservoir computes: zeros of length n,
      to which each neighbour's flow is added in place. */
  function SumFlows(n: nat, flows: seq<Value>): (r: Result<seq<real>>)
    ensures r.Ok? <==> forall k :: 0 <= k < |flows| ==> Fit(flows[k], n).Ok?
    ensures r.Ok? ==> |r.value| == n
  {
    if flows == [] then Ok(Repeat(0.0, n))
    else
      var acc :- SumFlows(n, flows[..|flows| - 1]);
      AddInto(acc, flows[|flows| - 1])
  }

  /** Entry i of the flows added up one by one. */
  function EntrySum(flows: seq<Value>, n: nat, i: nat): real
    requires i < n && forall k :: 0 <= k < |flows| ==> Fit(flows[k], n).Ok?
  {
    if flows == [] then 0.0
    else EntrySum(flows[..|flows| - 1], n, i) + Fit(flows[|flows| - 1], n).value[i]
  }

  /** The total is, entry by entry, the sum of the flows; with no flows at
      all it is zero. */
  lemma {:induction false} SumFlowsAt(n: nat, flows: seq<Value>, i: nat)
    requires i < n && forall k :: 0 <= k < |flows| ==> Fit(flows[k], n).Ok?
    ensures SumFlows(n, flows).Ok?
    ensures SumFlows(n, flows).value[i] == EntrySum(flows, n, i)
    ensures flows == [] ==> SumFlows(n, flows).value[i] == 0.0
  {
    if flows != [] {
      SumFlowsAt(n, flows[..|flows| - 1], i);
    }
  }

  /** The residual of a block of kind k with the given working values,
      written into zero, the n x width table of zeros. */
  function Residual(k: Kind, attrs: map<string, Value>, h: Value, qIn: Value, qOut: Value, t: Value,
                    zero: Table, width: nat, sqrt: real -> real): (r: Result<Table>)
    requires IsTable(zero, width)
    ensures r.Ok? ==> |r.value| == |zero| && IsTable(r.value, width)
  {
    match k
    case FlowRelease(cv, flowrate) =>
      var q :- Lookup(attrs, flowrate);
      var released := Map(h, x => cv * sqrt(if x < 0.0 then 0.0 else x));
      var col :- Minus(q, released);
      SetColumn(zero, width, 0, col)
    case FlowConstant(value, flowrate) =>
      var q :- Lookup(attrs, flowrate);
      SetColumn(zero, width, 0, Map(q, x => x - value))
    case FlowSource(rule, flowrate) =>
      var q :- Lookup(attrs, flowrate);
      var col :- Minus(q, Map(t, rule));
      SetColumn(zero, width, 0, col)
    case Reservoir(area, _, volume, height) =>
      var v :- Lookup(attrs, volume);
      var dv :- Lookup(attrs, DerName(volume));
      var level :- Lookup(attrs, height);
      var net :- Minus(qIn, qOut);
      var balance :- Minus(dv, net);
      var r0 :- SetColumn(zero, width, 0, balance);
      if area == 0.0 then Raise(ZeroDivisionError)
      else
        var geometry :- Minus(level, Map(v, x => x / area));
        SetColumn(r0, width, 1, geometry)
  }

  /** Working values as a flowsheet step leaves them: every named attribute
      the kind reads, and every input, a column with one entry per node. */
  ghost predicate NodeColumns(k: Kind, attrs: map<string, Value>, h: Value, qIn: Value, qOut: Value, t: Value, n: nat)
  {
    var names := if k.Reservoir? then [k.volume, DerName(k.volume), k.height] else [k.flowrate];
    (forall s :: s in names ==> s in attrs && attrs[s].Column? && |attrs[s].c| == n) &&
    t.Column? && |t.c| == n &&
    (k.FlowRelease? ==> h.Column? && |h.c| == n) &&
    (k.Reservoir? ==> qIn.Column? && |qIn.c| == n && qOut.Column? && |qOut.c| == n)
  }

  /** A constant flow's residual is flow minus the constant at every node, so
      it vanishes exactly where the flow equals the constant. */
  lemma FlowConstantResidual(value: real, flowrate: string, attrs: map<string, Value>, h: Value, qIn: Value, qOut: Value,
                             t: Value, n: nat, width: nat, sqrt: real -> real)
    requires NodeColumns(FlowConstant(value, flowrate), attrs, h, qIn, qOut, t, n) && width >= 1
    ensures var r := Residual(FlowConstant(value, flowrate), attrs, h, qIn, qOut, t, Zeros(n, width), width, sqrt);
      r.Ok? && forall i :: 0 <= i < n ==>
        r.value[i][0] == attrs[flowrate].c[i] - value &&
        (r.value[i][0] == 0.0 <==> attrs[flowrate].c[i] == value)
  {
  }

  /** A release's residual is Q - Cv * sqrt(h) with the upstream height
      clipped at zero: where the height is negative the flow term is Cv * sqrt(0). */
  lemma FlowReleaseResidual(cv: real, flowrate: string, attrs: map<string, Value>, h: Value, qIn: Value, qOut: Value,
                            t: Value, n: nat, width: nat, sqrt: real -> real)
    requires NodeColumns(FlowRelease(cv, flowrate), attrs, h, qIn, qOut, t, n) && width >= 1
    ensures var r := Residual(FlowRelease(cv, flowrate), attrs, h, qIn, qOut, t, Zeros(n, width), width, sqrt);
      r.Ok? && forall i :: 0 <= i < n ==>
        r.value[i][0] == attrs[flowrate].c[i] - cv * sqrt(if h.c[i] < 0.0 then 0.0 else h.c[i]) &&
        (h.c[i] <= 0.0 ==> r.value[i][0] == attrs[flowrate].c[i] - cv * sqrt(0.0))
  {
  }

  /** With a true square root, a release passes no flow where the
      upstream height is at or below zero: its residual there is the flow
      itself, which vanishes only for zero flow. */
  lemma FlowReleaseNoHead(cv: real, flowrate: string, attrs: map<string, Value>, h: Value, qIn: Value, qOut: Value,
                          t: Value, n: nat, width: nat, sqrt: real -> real)
    requires NodeColumns(FlowRelease(cv, flowrate), attrs, h, qIn, qOut, t, n) && width >= 1
    requires Collocation.IsSqrt(sqrt)
    ensures var r := Residual(FlowRelease(cv, flowrate), attrs, h, qIn, qOut, t, Zeros(n, width), width, sqrt);
      r.Ok? && forall i :: 0 <= i < n && h.c[i] <= 0.0 ==> r.value[i][0] == attrs[flowrate].c[i]
  {
    FlowReleaseResidual(cv, flowrate, attrs, h, qIn, qOut, t, n, width, sqrt);
    var root := sqrt(0.0);
    assert 0.0 <= root && root * root == 0.0;
    if root != 0.0 {
      assert root * root > 0.0 * root;
    }
  }

  /** A source's residual is Q - rule(t) at each node time. */
  lemma FlowSourceResidual(rule: real -> real, flowrate: string, attrs: map<string, Value>, h: Value, qIn: Value, qOut: Value,
                           t: Value, n: nat, width: nat, sqrt: real -> real)
    requires NodeColumns(FlowSource(rule, flowrate), attrs, h, qIn, qOut, t, n) && width >= 1
    ensures var r := Residual(FlowSource(rule, flowrate), attrs, h, qIn, qOut, t, Zeros(n, width), width, sqrt);
      r.Ok? && forall i :: 0 <= i < n ==> r.value[i][0] == attrs[flowrate].c[i] - rule(t.c[i])
  {
  }

  /** A reservoir's residual: column 0 is the volume balance dV - (Qin - Qout),
      column 1 the geometry h - V / Area. */
  lemma ReservoirResidual(area: real, ic: real, volume: string, height: string, attrs: map<string, Value>,
                          h: Value, qIn: Value, qOut: Value, t: Value, n: nat, width: nat, sqrt: real -> real)
    requires NodeColumns(Reservoir(area, ic, volume, height), attrs, h, qIn, qOut, t, n)
    requires width >= 2 && area != 0.0
    ensures var r := Residual(Reservoir(area, ic, volume, height), attrs, h, qIn, qOut, t, Zeros(n, width), width, sqrt);
      r.Ok? && forall i :: 0 <= i < n ==>
        r.value[i][0] == attrs[DerName(volume)].c[i] - (qIn.c[i] - qOut.c[i]) &&
        r.value[i][1] == attrs[height].c[i] - attrs[volume].c[i] / area
  {
    var k := Reservoir(area, ic, volume, height);
    var zero := Zeros(n, width);
    var net := Minus(qIn, qOut).value;
    var balance := Minus(attrs[DerName(volume)], net).value;
    var r0 := SetColumn(zero, width, 0, balance).value;
    var geometry := Minus(attrs[height], Map(attrs[volume], x => x / area)).value;
    assert Residual(k, attrs, h, qIn, qOut, t, zero, width, sqrt) == SetColumn(r0, width, 1, geometry);
  }

  /** The residual has one column per declared state and output, and with the
      declared width every formula's columns exist. */
  lemma ResidualCoversLayout(k: Kind, attrs: map<string, Value>, h: Value, qIn: Value, qOut: Value,
                             t: Value, n: nat, sqrt: real -> real)
    requires NodeColumns(k, attrs, h, qIn, qOut, t, n)
    requires k.Reservoir? ==> k.area != 0.0
    ensures var width := |StatesName(k)| + |OutputsName(k)|;
      Residual(k, attrs, h, qIn, qOut, t, Zeros(n, width), width, sqrt).Ok?
  {
    var width := |StatesName(k)| + |OutputsName(k)|;
    match k
    case FlowRelease(cv, f) => FlowReleaseResidual(cv, f, attrs, h, qIn, qOut, t, n, width, sqrt);
    case FlowConstant(v, f) => FlowConstantResidual(v, f, attrs, h, qIn, qOut, t, n, width, sqrt);
    case FlowSource(rule, f) => FlowSourceResidual(rule, f, attrs, h, qIn, qOut, t, n, width, sqrt);
    case Reservoir(a, ic, vol, ht) => ReservoirResidual(a, ic, vol, ht, attrs, h, qIn, qOut, t, n, width, sqrt);
  }
}
