/** The optimisation-path building blocks: decision variables with per-index
    bounds, constraints in residual form, blocks that collect them, and the
    composite that flattens its blocks' variables into the one vector a
    solver works on and slices such a vector back into the variables. */
module Components {
  import opened Wrappers

  /** A bound tuple (lower, upper); None is "no bound". */
  datatype Bound = Bound(lower: Option<real>, upper: Option<real>)

  /** What may be assigned to v[k]: a number, a (lower, upper) tuple, or
      anything else. */
  datatype Item = Number(x: real) | Pair(b: Bound) | Other

  /** The values a bound lets through. */
  predicate Admits(b: Bound, x: real)
  {
    (b.lower.None? || b.lower.value <= x) && (b.upper.None? || x <= b.upper.value)
  }

  /** Python list indexing: a key in [-len, len) names an entry, counting
      from the end when negative; any other key raises IndexError. */
  function PyIndex(key: int, len: nat): (r: Option<nat>)
    ensures r.Some? <==> -(len as int) <= key < len
    ensures r.Some? ==> r.value < len && r.value == if key < 0 then len + key else key
  {
    if 0 <= key < len then Some(key)
    else if -(len as int) <= key < 0 then Some(len + key)
    else None
  }

  /** The bound an item stands for: a number pins both ends to itself. */
  function NewBound(item: Item): (r: Result<Bound>)
    ensures r.Raise? <==> item.Other?
    ensures r.Raise? ==> r.error == ValueError
  {
    match item
    case Number(x) => Ok(Bound(Some(x), Some(x)))
    case Pair(b) => Ok(b)
    case Other => Raise(ValueError)
  }

  /** A number assigned as a bound admits that number and nothing else. */
  lemma PinnedAdmitsOnly(x: real, y: real)
    ensures Admits(NewBound(Number(x)).value, y) <==> y == x
  {
  }

  /** v[key] = item on the bounds list: the type of the item is checked
      first, then the key. */
  function SetBound(bounds: seq<Bound>, key: int, item: Item): (r: Result<seq<Bound>>)
    ensures item.Other? ==> r == Raise(ValueError)
    ensures !item.Other? ==> (r.Ok? <==> -|bounds| <= key < |bounds|)
    ensures !item.Other? && r.Raise? ==> r.error == IndexError
    ensures r.Ok? ==> (|r.value| == |bounds| &&
      forall i :: 0 <= i < |bounds| ==>
        r.value[i] == if i == PyIndex(key, |bounds|).value then NewBound(item).value else bounds[i])
  {
    var b :- NewBound(item);
    match PyIndex(key, |bounds|)
    case None => Raise(IndexError)
    case Some(i) => Ok(bounds[i := b])
  }

  /** A negative key sets the entry counted from the end, and leaves the
      entry with the same non-negative number alone. */
  lemma SetBoundFromEnd(bounds: seq<Bound>, x: real)
    requires |bounds| >= 2
    ensures SetBound(bounds, -1, Number(x)).Ok?
    ensures SetBound(bounds, -1, Number(x)).value[|bounds| - 1] == Bound(Some(x), Some(x))
    ensures SetBound(bounds, -1, Number(x)).value[1 % |bounds|] == if |bounds| == 2 then Bound(Some(x), Some(x)) else bounds[1]
  {
  }

  /** A decision variable: one value and one bound per index. */
  class Variable {
    var value: seq<real>
    var bounds: seq<Bound>

    /** Variable(index_var, bounds), where n is len(index_var): every
        value starts at 100 and every index gets the same bound. */
    constructor(n: nat, b: Bound)
      ensures value == Repeat(100.0, n) && bounds == Repeat(b, n)
    {
      value := Repeat(100.0, n);
      bounds := Repeat(b, n);
    }

    /** v[key] = item: on success bounds becomes SetBound's list; on an
        exception it is left as it was. */
    method SetItem(key: int, item: Item) returns (o: Outcome)
      modifies this`bounds
      ensures SetBound(old(bounds), key, item).Ok? <==> o.Pass?
      ensures o.Pass? ==> bounds == SetBound(old(bounds), key, item).value
      ensures o.Fail? ==> bounds == old(bounds) && o.error == SetBound(old(bounds), key, item).error
    {
      var nb := NewBound(item);
      if nb.Raise? {
        return Fail(nb.error);
      }
      var i := PyIndex(key, |bounds|);
      if i.None? {
        return Fail(IndexError);
      }
      bounds := bounds[i.value := nb.value];
      o := Pass;
    }

    method SetValue(x: seq<real>)
      modifies this`value
      ensures value == x
    {
      value := x;
    }
  }

  /** A constraint rule, evaluated on the current values of the variables
      of the block that owns it, in the block's order. */
  type Rule = seq<seq<real>> -> seq<real>

  /** A constraint in residual form, rule(block) = 0, with its bounds. */
  datatype Constraint = Constraint(rule: Rule, lb: real, ub: real)

  /** Constraint(rule, lb, ub) as written: the two bounds are stored
      crosswise. */
  function NewConstraintAsWritten(rule: Rule, lb: real, ub: real): (c: Constraint)
    ensures c.rule == rule && c.lb == ub && c.ub == lb
  {
    Constraint(rule, ub, lb)
  }

  /** Any constraint whose lower bound is below its upper bound comes out
      with an empty interval, its stored lb above its stored ub, where the
      documented construction keeps lb below ub; Constraint(r, 0, 1), for
      one, has lb 1 and ub 0. */
  lemma ConstraintBoundsExchanged(rule: Rule, lb: real, ub: real)
    requires lb < ub
    ensures NewConstraintAsWritten(rule, lb, ub).lb > NewConstraintAsWritten(rule, lb, ub).ub
    ensures NewConstraint(rule, lb, ub).lb < NewConstraint(rule, lb, ub).ub
    ensures NewConstraintAsWritten(rule, 0.0, 1.0).lb == 1.0 && NewConstraintAsWritten(rule, 0.0, 1.0).ub == 0.0
  {
  }

  /** Constraint(rule, lb, ub) as documented: lb is the lower bound. */
  function NewConstraint(rule: Rule, lb: real, ub: real): (c: Constraint)
    ensures c.rule == rule && c.lb == lb && c.ub == ub
  {
    Constraint(rule, lb, ub)
  }

  /** The {'type': 'eq', 'fun': cons} entry add_cons appends: cons(x) first
      hands x to the block's change_inputs, then evaluates the rule. */
  datatype Eq = Eq(block: Block, rule: Rule)

  /** A leaf block of the optimisation problem. The hydraulic subclasses
      also declare inlet and outlet lists; a bare Block has neither
      attribute, which None stands for. */
  class Block {
    var variables: seq<Variable>
    var constraints: seq<Eq>
    var parent: Composite?
    var time: Option<seq<real>>
    var named: map<string, Variable>
    var inlet: Option<seq<Block>>
    var outlet: Option<seq<Block>>

    constructor(hasPorts: bool)
      ensures variables == [] && constraints == [] && parent == null && time == None && named == map[]
      ensures inlet == outlet == if hasPorts then Some([]) else None
    {
      variables := [];
      constraints := [];
      parent := null;
      time := None;
      named := map[];
      inlet := if hasPorts then Some([]) else None;
      outlet := if hasPorts then Some([]) else None;
    }

    /** block.name = Variable: the attribute is bound and the variable
        appended to the block's variables. */
    method SetVariable(name: string, v: Variable)
      modifies this`variables, this`named
      ensures variables == old(variables) + [v] && named == old(named)[name := v]
    {
      named := named[name := v];
      variables := variables + [v];
    }

    /** block.name = Constraint: add_cons appends an 'eq' entry; the
        attribute itself is not bound. */
    method SetConstraint(name: string, c: Constraint)
      modifies this`constraints
      ensures constraints == old(constraints) + [Eq(this, c.rule)]
    {
      AddCons(c, c.lb, c.ub);
    }

    /** add_cons: the bounds it is given do not reach the entry. */
    method AddCons(c: Constraint, lb: real, ub: real)
      modifies this`constraints
      ensures constraints == old(constraints) + [Eq(this, c.rule)]
    {
      constraints := constraints + [Eq(this, c.rule)];
    }

    method SetParent(p: Composite?)
      modifies this`parent
      ensures parent == p
    {
      parent := p;
    }

    method UpdateTime(t: seq<real>)
      modifies this`time
      ensures time == Some(t)
    {
      time := Some(t);
    }

    /** change_inputs on a block goes to its parent; a block with no
        parent raises AttributeError. */
    method ChangeInputs(x: seq<real>, ghost dom: set<Composite>, ghost vdom: set<Variable>, depth: nat)
      returns (o: Outcome)
      requires parent != null ==> parent in dom
      requires ParentsIn(dom) && VarsIn(dom, vdom)
      modifies vdom`value
      ensures parent == null ==> o == Fail(AttributeError) && Values(vdom) == old(Values(vdom))
      ensures parent != null ==> ChangedBy(parent, x, dom, vdom, depth, o, old(Values(vdom)))
    {
      if parent == null {
        return Fail(AttributeError);
      }
      o := parent.ChangeInputs(x, dom, vdom, depth);
    }
  }

  /** The parent of every composite in dom is in dom. */
  ghost predicate ParentsIn(dom: set<Composite>)
    reads dom`parent
  {
    forall c :: c in dom && c.parent != null ==> c.parent in dom
  }

  /** The variables of every composite in dom are in vdom. */
  ghost predicate VarsIn(dom: set<Composite>, vdom: set<Variable>)
    reads dom`variables
  {
    forall c, i :: c in dom && 0 <= i < |c.variables| ==> c.variables[i] in vdom
  }

  /** The current values of the variables in vdom. */
  ghost function Values(vdom: set<Variable>): (m: map<Variable, seq<real>>)
    reads vdom`value
    ensures m.Keys == vdom
  {
    map v | v in vdom :: v.value
  }

  /** The current bounds of the variables in vdom. */
  ghost function BoundsOf(vdom: set<Variable>): (m: map<Variable, seq<Bound>>)
    reads vdom`bounds
    ensures m.Keys == vdom
  {
    map v | v in vdom :: v.bounds
  }

  /** The composite at the top of c's parent chain, or RecursionError when
      the chain is longer than the depth Python allows. */
  ghost function RootOf(c: Composite, dom: set<Composite>, depth: nat): (r: Result<Composite>)
    requires c in dom && ParentsIn(dom)
    reads dom`parent
    ensures r.Ok? ==> r.value in dom && r.value.parent == null
    ensures r.Raise? ==> r.error == RecursionError
    decreases depth
  {
    if c.parent == null then Ok(c)
    else if depth == 0 then Raise(RecursionError)
    else RootOf(c.parent, dom, depth - 1)
  }

  /** What change_inputs(x) on composite c does to the variables: the
      root's slicing, or nothing when the chain is too long. */
  ghost predicate ChangedBy(c: Composite, x: seq<real>, dom: set<Composite>, vdom: set<Variable>, depth: nat,
                            o: Outcome, before: map<Variable, seq<real>>)
    requires c in dom && ParentsIn(dom) && VarsIn(dom, vdom) && before.Keys == vdom
    reads dom`parent, dom`variables, vdom`value
  {
    match RootOf(c, dom, depth)
    case Raise(e) => o == Fail(e) && Values(vdom) == before
    case Ok(root) => o == Pass && Values(vdom) == Scatter(root.variables, |root.variables|, x, before).values
  }

  /** The list m holds for v; every variable a composite lists is in the
      maps the model builds, so the empty default is never read there. */
  function Val<T>(m: map<Variable, seq<T>>, v: Variable): seq<T>
  {
    if v in m then m[v] else []
  }

  /** The lists of the first n variables, concatenated in order: the initial
      guess when m holds their values, get_bounds when it holds their
      bounds. */
  function Gather<T>(vars: seq<Variable>, n: nat, m: map<Variable, seq<T>>): seq<T>
    requires n <= |vars|
  {
    if n == 0 then [] else Gather(vars, n - 1, m) + Val(m, vars[n - 1])
  }

  /** Python's x[lo:hi] for 0 <= lo <= hi: both ends are cut back to |x|. */
  function Slice(x: seq<real>, lo: nat, hi: nat): (r: seq<real>)
    requires lo <= hi
    ensures |r| <= hi - lo
    ensures hi <= |x| ==> r == x[lo..hi]
  {
    var a := if lo <= |x| then lo else |x|;
    var b := if hi <= |x| then hi else |x|;
    x[a..b]
  }

  /** Where the root's change_inputs loop stands: the variables' values and
      the position in x. */
  datatype Scattered = Scattered(values: map<Variable, seq<real>>, pos: nat)

  /** The root's change_inputs loop after its first n passes: each variable
      in turn takes the next slice of x as long as its current value, and
      the position moves on by the length of the slice it took. A variable
      listed twice sees the value its first occurrence set. */
  function Scatter(vars: seq<Variable>, n: nat, x: seq<real>, m: map<Variable, seq<real>>): Scattered
    requires n <= |vars|
  {
    if n == 0 then Scattered(m, 0)
    else
      var before := Scatter(vars, n - 1, x, m);
      var v := vars[n - 1];
      var s := Slice(x, before.pos, before.pos + |Val(before.values, v)|);
      Scattered(before.values[v := s], before.pos + |s|)
  }

  /** The guess does not depend on variables it does not list. */
  lemma {:induction false} GatherOutside<T>(vars: seq<Variable>, n: nat, m: map<Variable, seq<T>>, v: Variable, s: seq<T>)
    requires n <= |vars| && forall j :: 0 <= j < n ==> vars[j] != v
    ensures Gather(vars, n, m[v := s]) == Gather(vars, n, m)
  {
    if n > 0 {
      GatherOutside(vars, n - 1, m, v, s);
    }
  }

  /** Scattering leaves the variables it does not reach alone. */
  lemma {:induction false} ScatterOutside(vars: seq<Variable>, n: nat, x: seq<real>, m: map<Variable, seq<real>>, v: Variable)
    requires n <= |vars| && forall j :: 0 <= j < n ==> vars[j] != v
    ensures Val(Scatter(vars, n, x, m).values, v) == Val(m, v)
  {
    if n > 0 {
      ScatterOutside(vars, n - 1, x, m, v);
    }
  }

  /** The last of n passes when x is long enough for its slice: the
      variable takes exactly the next |value| entries of x. */
  lemma ScatterLastSlice(vars: seq<Variable>, n: nat, x: seq<real>, m: map<Variable, seq<real>>)
    requires 0 < n <= |vars|
    requires Scatter(vars, n - 1, x, m).pos + |Val(Scatter(vars, n - 1, x, m).values, vars[n - 1])| <= |x|
    ensures var before := Scatter(vars, n - 1, x, m);
            var hi := before.pos + |Val(before.values, vars[n - 1])|;
            Scatter(vars, n, x, m) == Scattered(before.values[vars[n - 1] := x[before.pos..hi]], hi)
  {
  }

  /** When x starts with the guess of the first n variables, their passes
      give every variable back the value it had and stop at the end of that
      guess. */
  lemma {:induction false} ScatterGatherPrefix(vars: seq<Variable>, n: nat, x: seq<real>, m: map<Variable, seq<real>>)
    requires n <= |vars| && forall j :: 0 <= j < |vars| ==> vars[j] in m
    requires |Gather(vars, n, m)| <= |x| && x[..|Gather(vars, n, m)|] == Gather(vars, n, m)
    ensures Scatter(vars, n, x, m) == Scattered(m, |Gather(vars, n, m)|)
  {
    if n > 0 {
      var g := Gather(vars, n - 1, m);
      var val := m[vars[n - 1]];
      assert Gather(vars, n, m) == g + val;
      TakeSplit(x, g, val);
      ScatterGatherPrefix(vars, n - 1, x, m);
      ScatterGatherStep(vars, n, x, m);
    }
  }

  /** One pass of ScatterGatherPrefix: the variable takes back its own
      value. */
  lemma ScatterGatherStep(vars: seq<Variable>, n: nat, x: seq<real>, m: map<Variable, seq<real>>)
    requires 0 < n <= |vars| && vars[n - 1] in m
    requires Scatter(vars, n - 1, x, m) == Scattered(m, |Gather(vars, n - 1, m)|)
    requires |Gather(vars, n, m)| <= |x| && x[|Gather(vars, n - 1, m)|..|Gather(vars, n, m)|] == m[vars[n - 1]]
    ensures Scatter(vars, n, x, m) == Scattered(m, |Gather(vars, n, m)|)
  {
    var v := vars[n - 1];
    assert m[v := m[v]] == m;
  }

  /** change_inputs(get_initial_guess()) on the root changes no value. */
  lemma ScatterGather(vars: seq<Variable>, m: map<Variable, seq<real>>)
    requires forall j :: 0 <= j < |vars| ==> vars[j] in m
    ensures Scatter(vars, |vars|, Gather(vars, |vars|, m), m).values == m
  {
    var g := Gather(vars, |vars|, m);
    assert g[..|g|] == g;
    ScatterGatherPrefix(vars, |vars|, g, m);
  }

  /** When no variable is listed twice and x is at least as long as the
      guess of the first n variables, their passes take exactly that much
      of x, and the guess they leave is that part of x. */
  lemma {:induction false} GatherScatterPrefix(vars: seq<Variable>, n: nat, x: seq<real>, m: map<Variable, seq<real>>)
    requires n <= |vars| && Distinct(vars) && |Gather(vars, n, m)| <= |x|
    ensures Scatter(vars, n, x, m).pos == |Gather(vars, n, m)|
    ensures Gather(vars, n, Scatter(vars, n, x, m).values) == x[..|Gather(vars, n, m)|]
  {
    if n > 0 {
      var v := vars[n - 1];
      var g := Gather(vars, n - 1, m);
      var val := Val(m, v);
      assert Gather(vars, n, m) == g + val;
      GatherScatterPrefix(vars, n - 1, x, m);
      var before := Scatter(vars, n - 1, x, m);
      DistinctLast(vars, n);
      ScatterOutside(vars, n - 1, x, m, v);
      ScatterLastSlice(vars, n, x, m);
      var s := x[|g|..|g| + |val|];
      GatherOutside(vars, n - 1, before.values, v, s);
      TakeExtend(x, |g|, |g| + |val|);
    }
  }

  /** When x starts with g + h, it starts with g, and h comes next. */
  lemma TakeSplit(x: seq<real>, g: seq<real>, h: seq<real>)
    requires |g| + |h| <= |x| && x[..|g| + |h|] == g + h
    ensures x[..|g|] == g && x[|g|..|g| + |h|] == h
  {
    assert x[..|g|] == (g + h)[..|g|];
    assert x[|g|..|g| + |h|] == (g + h)[|g|..];
  }

  /** Without repeats, the n-th variable is not among the ones before it. */
  lemma DistinctLast(vars: seq<Variable>, n: nat)
    requires 0 < n <= |vars| && Distinct(vars)
    ensures forall j :: 0 <= j < n - 1 ==> vars[j] != vars[n - 1]
  {
  }

  /** The first b entries of x are its first a entries and then the next
      b - a. */
  lemma TakeExtend(x: seq<real>, a: nat, b: nat)
    requires a <= b <= |x|
    ensures x[..a] + x[a..b] == x[..b]
  {
  }

  /** get_initial_guess(change_inputs(x)) == x on the root, for an x of the
      guess's length, when no variable is listed twice. */
  lemma GatherScatter(vars: seq<Variable>, x: seq<real>, m: map<Variable, seq<real>>)
    requires Distinct(vars) && |x| == |Gather(vars, |vars|, m)|
    ensures Gather(vars, |vars|, Scatter(vars, |vars|, x, m).values) == x
  {
    GatherScatterPrefix(vars, |vars|, x, m);
    assert x[..|x|] == x;
  }

  /** With a variable listed twice, x = [1, 2] comes back as [2, 2]: the
      second occurrence overwrites the first. */
  lemma AliasedVariableOverwritten(v: Variable, m: map<Variable, seq<real>>)
    requires v in m && m[v] == [100.0]
    ensures Gather([v, v], 2, Scatter([v, v], 2, [1.0, 2.0], m).values) == [2.0, 2.0]
  {
    var x := [1.0, 2.0];
    assert Slice(x, 0, 1) == [1.0];
    assert Scatter([v, v], 1, x, m) == Scattered(m[v := [1.0]], 1);
    assert Slice(x, 1, 2) == [2.0];
    assert Scatter([v, v], 2, x, m).values == m[v := [2.0]];
    var m2 := m[v := [2.0]];
    assert Gather([v, v], 1, m2) == [2.0];
  }

  /** The values of vars in order, as a block's rule sees them. */
  function ValueLists(vars: seq<Variable>, m: map<Variable, seq<real>>): (r: seq<seq<real>>)
    requires forall i :: 0 <= i < |vars| ==> vars[i] in m
    ensures |r| == |vars| && forall i :: 0 <= i < |vars| ==> r[i] == m[vars[i]]
  {
    seq(|vars|, i requires 0 <= i < |vars| => m[vars[i]])
  }

  /** A higher-level block: the variables and constraints of the blocks
      assigned to it, in assignment order. */
  class Composite {
    var variables: seq<Variable>
    var constraints: seq<Eq>
    var blocks: seq<Block>
    var time: seq<real>
    var parent: Composite?
    var members: map<string, Block>

    constructor()
      ensures variables == [] && constraints == [] && blocks == [] && time == [0.0] && parent == null && members == map[]
    {
      variables := [];
      constraints := [];
      blocks := [];
      time := [0.0];
      parent := null;
      members := map[];
    }

    /** composite.name = block: the block's current variables and
        constraints are appended, it gets this composite as parent and
        this composite's time, and joins the blocks. */
    method SetBlock(name: string, b: Block)
      modifies this`variables, this`constraints, this`blocks, this`members, b`parent, b`time
      ensures variables == old(variables) + b.variables && constraints == old(constraints) + b.constraints
      ensures b.parent == this && b.time == Some(time)
      ensures blocks == old(blocks) + [b] && members == old(members)[name := b]
    {
      var i := 0;
      while i < |b.variables|
        invariant 0 <= i <= |b.variables|
        invariant variables == old(variables) + b.variables[..i]
        modifies this`variables
      {
        variables := variables + [b.variables[i]];
        i := i + 1;
      }
      var j := 0;
      while j < |b.constraints|
        invariant 0 <= j <= |b.constraints|
        invariant constraints == old(constraints) + b.constraints[..j]
        modifies this`constraints
      {
        constraints := constraints + [b.constraints[j]];
        j := j + 1;
      }
      b.SetParent(this);
      b.UpdateTime(time);
      blocks := blocks + [b];
      members := members[name := b];
    }

    /** A plain assignment to the parent attribute. */
    method SetParent(p: Composite?)
      modifies this`parent
      ensures parent == p
    {
      parent := p;
    }

    /** update_time: this composite and every block of it get the time
        vector. */
    method UpdateTime(t: seq<real>)
      modifies this`time, blocks`time
      ensures time == t && forall i :: 0 <= i < |blocks| ==> blocks[i].time == Some(t)
    {
      time := t;
      var i := 0;
      while i < |blocks|
        invariant 0 <= i <= |blocks|
        invariant forall k :: 0 <= k < i ==> blocks[k].time == Some(t)
        modifies blocks`time
      {
        blocks[i].UpdateTime(t);
        i := i + 1;
      }
    }

    /** change_inputs: a composite with a parent hands x up the chain; the
        root slices x into its variables. */
    method ChangeInputs(x: seq<real>, ghost dom: set<Composite>, ghost vdom: set<Variable>, depth: nat)
      returns (o: Outcome)
      requires this in dom && ParentsIn(dom) && VarsIn(dom, vdom)
      modifies vdom`value
      ensures ChangedBy(this, x, dom, vdom, depth, o, old(Values(vdom)))
      decreases depth
    {
      if parent != null {
        if depth == 0 {
          return Fail(RecursionError);
        }
        o := parent.ChangeInputs(x, dom, vdom, depth - 1);
      } else {
        ChangeInputsRoot(x, vdom);
        o := Pass;
      }
    }

    /** The root's loop of change_inputs. */
    method ChangeInputsRoot(x: seq<real>, ghost vdom: set<Variable>)
      requires forall i :: 0 <= i < |variables| ==> variables[i] in vdom
      modifies vdom`value
      ensures Values(vdom) == Scatter(variables, |variables|, x, old(Values(vdom))).values
    {
      ghost var start := Values(vdom);
      var vars := variables;
      var cur: nat := 0;
      var i := 0;
      while i < |vars|
        invariant 0 <= i <= |vars|
        invariant Scatter(vars, i, x, start) == Scattered(Values(vdom), cur)
      {
        cur := ScatterStep(vars, i, x, cur, start, vdom);
        i := i + 1;
      }
    }

    /** One pass of the root's loop: variable i takes the slice of x from
        cur as long as its value, and the position moves past it. */
    static method ScatterStep(vars: seq<Variable>, i: nat, x: seq<real>, cur: nat,
                              ghost start: map<Variable, seq<real>>, ghost vdom: set<Variable>)
      returns (next: nat)
      requires i < |vars| && forall k :: 0 <= k < |vars| ==> vars[k] in vdom
      requires Scatter(vars, i, x, start) == Scattered(Values(vdom), cur)
      modifies vdom`value
      ensures Scatter(vars, i + 1, x, start) == Scattered(Values(vdom), next)
    {
      var v := vars[i];
      var s := Slice(x, cur, cur + |v.value|);
      SetSlice(v, s, vdom);
      next := cur + |s|;
    }

    /** set_value on one variable of vdom. */
    static method SetSlice(v: Variable, s: seq<real>, ghost vdom: set<Variable>)
      requires v in vdom
      modifies vdom`value
      ensures Values(vdom) == old(Values(vdom))[v := s]
    {
      ghost var m := Values(vdom);
      v.SetValue(s);
      assert Values(vdom) == m[v := s];
    }

    /** get_initial_guess: the root concatenates its variables' values; a
        composite with a parent asks it and then fails, because its own
        xGuess was never bound. */
    method GetInitialGuess(ghost dom: set<Composite>, ghost vdom: set<Variable>, depth: nat)
      returns (r: Result<seq<real>>)
      requires this in dom && ParentsIn(dom) && VarsIn(dom, vdom)
      ensures parent == null ==> r == Ok(Gather(variables, |variables|, Values(vdom)))
      ensures parent != null ==> r == Raise(if RootOf(this, dom, depth).Raise? then RecursionError else UnboundLocalError)
      decreases depth
    {
      if parent != null {
        if depth == 0 {
          return Raise(RecursionError);
        }
        var up := parent.GetInitialGuess(dom, vdom, depth - 1);
        if up.Raise? {
          return up;
        }
        return Raise(UnboundLocalError);
      }
      var guess := [];
      var i := 0;
      while i < |variables|
        invariant 0 <= i <= |variables|
        invariant guess == Gather(variables, i, Values(vdom))
      {
        guess := guess + variables[i].value;
        i := i + 1;
      }
      r := Ok(guess);
    }

    /** get_bounds: the bounds of the variables, concatenated in order. */
    method GetBounds(ghost vdom: set<Variable>) returns (bs: seq<Bound>)
      requires forall i :: 0 <= i < |variables| ==> variables[i] in vdom
      ensures bs == Gather(variables, |variables|, BoundsOf(vdom))
    {
      bs := [];
      var i := 0;
      while i < |variables|
        invariant 0 <= i <= |variables|
        invariant bs == Gather(variables, i, BoundsOf(vdom))
      {
        bs := bs + variables[i].bounds;
        i := i + 1;
      }
    }

    /** connect(b1, b2): b2 joins b1's outlets, then b1 joins b2's inlets;
        a block without the list raises AttributeError, after the first
        append when only b2 lacks it. */
    method Connect(b1: Block, b2: Block) returns (o: Outcome)
      modifies b1`outlet, b2`inlet
      ensures o.Pass? <==> old(b1.outlet).Some? && old(b2.inlet).Some?
      ensures o.Fail? ==> o.error == AttributeError
      ensures old(b1.outlet).Some? ==> b1.outlet == Some(old(b1.outlet).value + [b2])
      ensures old(b1.outlet).None? ==> b1.outlet == None
      ensures b2.inlet == if old(b1.outlet).Some? && old(b2.inlet).Some? then Some(old(b2.inlet).value + [b1]) else old(b2.inlet)
    {
      if b1.outlet.None? {
        return Fail(AttributeError);
      }
      b1.outlet := Some(b1.outlet.value + [b2]);
      if b2.inlet.None? {
        return Fail(AttributeError);
      }
      b2.inlet := Some(b2.inlet.value + [b1]);
      o := Pass;
    }
  }

  /** cons(x) of an 'eq' entry: change_inputs(x) on its block, then the
      rule on the block's variables as they now are. */
  method EvalEq(e: Eq, x: seq<real>, ghost dom: set<Composite>, ghost vdom: set<Variable>, depth: nat)
    returns (r: Result<seq<real>>)
    requires e.block.parent != null ==> e.block.parent in dom
    requires ParentsIn(dom) && VarsIn(dom, vdom)
    requires forall i :: 0 <= i < |e.block.variables| ==> e.block.variables[i] in vdom
    modifies vdom`value
    ensures e.block.parent == null ==> r == Raise(AttributeError)
    ensures e.block.parent != null ==>
      ChangedBy(e.block.parent, x, dom, vdom, depth, if r.Ok? then Pass else Fail(r.error), old(Values(vdom)))
    ensures r.Ok? ==> r.value == e.rule(ValueLists(e.block.variables, Values(vdom)))
  {
    var o := e.block.ChangeInputs(x, dom, vdom, depth);
    if o.Fail? {
      return Raise(o.error);
    }
    var args := [];
    var i := 0;
    while i < |e.block.variables|
      invariant 0 <= i <= |e.block.variables| && |args| == i
      invariant forall k :: 0 <= k < i ==> args[k] == e.block.variables[k].value
    {
      args := args + [e.block.variables[i].value];
      i := i + 1;
    }
    assert args == ValueLists(e.block.variables, Values(vdom));
    r := Ok(e.rule(args));
  }
}
