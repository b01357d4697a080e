/** The time-stepping path: a component wraps a model object and maps its
    attribute names to the names under which values are exchanged between
    components; a concrete model runs its components over a grid of sample
    times and records the exported values. The model object is its
    dictionary of numeric attributes; the ODE integrator and the timeseries
    interpolation are parameters. */
module Models {
  import opened Wrappers

  /** An entry of the data exchange: a timeseries, read at any time through
      its interpolant f, or a dictionary from sample times to values, as
      update_outputs builds it. */
  datatype Series = Curve(f: real -> real) | Points(m: map<real, real>)

  /** A name dictionary, in insertion order: (attribute name, exchange
      name) pairs. */
  type Names = seq<(string, string)>

  /** odeint(deriv, x, [t0, t1])[-1]: the state reached at t1 from x at t0. */
  type Integrator = (seq<real>, real, real) -> seq<real>

  /** odeint returns one value per state. */
  ghost predicate KeepsLength(ode: Integrator)
  {
    forall x, t0, t1 :: |ode(x, t0, t1)| == |x|
  }

  /** The state the integrator reaches, one entry per state. */
  function Integrate(ode: Integrator, x: seq<real>, t0: real, t1: real): (r: seq<real>)
    requires KeepsLength(ode)
    ensures |r| == |x|
  {
    ode(x, t0, t1)
  }

  /** A loop that stops at the first exception, with what it had built by
      then (the source mutates in place, so the partial work stays). */
  datatype Partial<T> = Partial(value: T, outcome: Outcome)

  /** Dictionary keys are unique: no attribute name repeats. */
  predicate Keyed(ps: Names)
  {
    forall i, j :: 0 <= i < j < |ps| ==> ps[i].0 != ps[j].0
  }

  /** No exchange name repeats. */
  predicate Unshared(ps: Names)
  {
    forall i, j :: 0 <= i < j < |ps| ==> ps[i].1 != ps[j].1
  }

  /** No key of a dictionary given as (key, value) pairs repeats. */
  predicate UniqueKeys<T>(ps: seq<(string, T)>)
  {
    forall i, j :: 0 <= i < j < |ps| ==> ps[i].0 != ps[j].0
  }

  /** An attribute, when the model has it. */
  function Attr(attrs: map<string, real>, a: string): Option<real>
  {
    if a in attrs then Some(attrs[a]) else None
  }

  /** list(d.values()).index(name), or None when name is not among the
      values: the first position whose exchange name is name. */
  function FirstIndex(ps: Names, name: string): (r: Option<nat>)
    ensures r.Some? ==> r.value < |ps| && ps[r.value].1 == name
    ensures r.Some? ==> forall j :: 0 <= j < r.value ==> ps[j].1 != name
    ensures r.None? <==> forall j :: 0 <= j < |ps| ==> ps[j].1 != name
  {
    if ps == [] then None
    else if ps[0].1 == name then Some(0)
    else match FirstIndex(ps[1..], name)
      case None => None
      case Some(p) => Some(p + 1)
  }

  // ---------------------------------------------------------------- reset_states

  /** reset_states over the first n entries of initial_states: an entry
      whose key is an exchange name of a state sets the state attribute at
      the first such position; any other entry is skipped. */
  function Reset(attrs: map<string, real>, states: Names, initial: seq<(string, real)>, n: nat): map<string, real>
    requires n <= |initial|
  {
    if n == 0 then attrs
    else
      var before := Reset(attrs, states, initial, n - 1);
      match FirstIndex(states, initial[n - 1].0)
      case None => before
      case Some(p) => before[states[p].0 := initial[n - 1].1]
  }

  /** The attributes the first n entries of initial_states assign. */
  function Assigned(states: Names, initial: seq<(string, real)>, n: nat): map<string, real>
    requires n <= |initial|
  {
    if n == 0 then map[]
    else
      var before := Assigned(states, initial, n - 1);
      match FirstIndex(states, initial[n - 1].0)
      case None => before
      case Some(p) => before[states[p].0 := initial[n - 1].1]
  }

  /** An entry whose key is a state's exchange name sets that state to its
      value, when initial_states is a dictionary (no repeated key). */
  lemma {:induction false} ResetSetsKnown(attrs: map<string, real>, states: Names, initial: seq<(string, real)>, n: nat, i: nat)
    requires n <= |initial| && i < n && Keyed(states) && UniqueKeys(initial)
    requires FirstIndex(states, initial[i].0).Some?
    ensures Attr(Reset(attrs, states, initial, n), states[FirstIndex(states, initial[i].0).value].0) == Some(initial[i].1)
  {
    var p := FirstIndex(states, initial[i].0).value;
    if i < n - 1 {
      ResetSetsKnown(attrs, states, initial, n - 1, i);
      var q := FirstIndex(states, initial[n - 1].0);
      if q.Some? {
        assert initial[n - 1].0 != initial[i].0;
        assert q.value != p;
      }
    }
  }

  /** Attributes that are not states are never touched. */
  lemma {:induction false} ResetLeavesOthers(attrs: map<string, real>, states: Names, initial: seq<(string, real)>, n: nat, a: string)
    requires n <= |initial| && forall j :: 0 <= j < |states| ==> states[j].0 != a
    ensures Attr(Reset(attrs, states, initial, n), a) == Attr(attrs, a)
  {
    if n > 0 {
      ResetLeavesOthers(attrs, states, initial, n - 1, a);
    }
  }

  /** When no key is an exchange name of a state, nothing changes. */
  lemma {:induction false} ResetIgnoresUnknown(attrs: map<string, real>, states: Names, initial: seq<(string, real)>, n: nat)
    requires n <= |initial| && forall i :: 0 <= i < n ==> FirstIndex(states, initial[i].0).None?
    ensures Reset(attrs, states, initial, n) == attrs
  {
    if n > 0 {
      ResetIgnoresUnknown(attrs, states, initial, n - 1);
    }
  }

  /** reset_states overwrites the assigned attributes whatever they held
      before. */
  lemma {:induction false} ResetIsOverride(attrs: map<string, real>, states: Names, initial: seq<(string, real)>, n: nat)
    requires n <= |initial|
    ensures Reset(attrs, states, initial, n) == attrs + Assigned(states, initial, n)
  {
    if n > 0 {
      ResetIsOverride(attrs, states, initial, n - 1);
      var a := Assigned(states, initial, n - 1);
      match FirstIndex(states, initial[n - 1].0)
      case None =>
      case Some(p) =>
        var k := states[p].0;
        var v := initial[n - 1].1;
        assert (attrs + a)[k := v] == attrs + a[k := v];
    }
  }

  /** Resetting twice with the same initial states is resetting once. */
  lemma ResetIdempotent(attrs: map<string, real>, states: Names, initial: seq<(string, real)>)
    ensures Reset(Reset(attrs, states, initial, |initial|), states, initial, |initial|) == Reset(attrs, states, initial, |initial|)
  {
    var a := Assigned(states, initial, |initial|);
    ResetIsOverride(attrs, states, initial, |initial|);
    ResetIsOverride(attrs + a, states, initial, |initial|);
    assert (attrs + a) + a == attrs + a;
  }

  // ---------------------------------------------------------------- update_inputs

  /** inputs[name][t]: ValueError when the name is missing, the interpolant
      at t for a timeseries, KeyError for a dictionary without t. */
  function Read(data: map<string, Series>, name: string, t: real): Result<real>
  {
    if name !in data then Raise(ValueError)
    else match data[name]
      case Curve(f) => Ok(f(t))
      case Points(m) => if t in m then Ok(m[t]) else Raise(KeyError)
  }

  /** update_inputs over the first n input names: each sets its attribute
      to the value read at t; the first read that raises stops the loop,
      keeping the attributes set before it. */
  function ReadInputs(attrs: map<string, real>, inputs: Names, data: map<string, Series>, t: real, n: nat): Partial<map<string, real>>
    requires n <= |inputs|
  {
    if n == 0 then Partial(attrs, Pass)
    else
      var before := ReadInputs(attrs, inputs, data, t, n - 1);
      if before.outcome.Fail? then before
      else match Read(data, inputs[n - 1].1, t)
        case Raise(e) => Partial(before.value, Fail(e))
        case Ok(x) => Partial(before.value[inputs[n - 1].0 := x], Pass)
  }

  /** Once an input read has raised, later names change nothing. */
  lemma {:induction false} ReadInputsStopped(attrs: map<string, real>, inputs: Names, data: map<string, Series>, t: real, m: nat, n: nat)
    requires m <= n <= |inputs| && ReadInputs(attrs, inputs, data, t, m).outcome.Fail?
    ensures ReadInputs(attrs, inputs, data, t, n) == ReadInputs(attrs, inputs, data, t, m)
    decreases n - m
  {
    if m < n {
      ReadInputsStopped(attrs, inputs, data, t, m, n - 1);
    }
  }

  /** update_inputs completes exactly when every input name can be read at
      t: a missing name raises ValueError, a dictionary without t KeyError. */
  lemma {:induction false} ReadInputsPassIff(attrs: map<string, real>, inputs: Names, data: map<string, Series>, t: real, n: nat)
    requires n <= |inputs|
    ensures ReadInputs(attrs, inputs, data, t, n).outcome.Pass? <==> forall j :: 0 <= j < n ==> Read(data, inputs[j].1, t).Ok?
  {
    if n > 0 {
      ReadInputsPassIff(attrs, inputs, data, t, n - 1);
    }
  }

  /** The exception raised is the one of the first name that cannot be
      read. */
  lemma {:induction false} ReadInputsFirstError(attrs: map<string, real>, inputs: Names, data: map<string, Series>, t: real, n: nat, i: nat)
    requires i < n <= |inputs| && Read(data, inputs[i].1, t).Raise?
    requires forall j :: 0 <= j < i ==> Read(data, inputs[j].1, t).Ok?
    ensures ReadInputs(attrs, inputs, data, t, n).outcome == Fail(Read(data, inputs[i].1, t).error)
  {
    ReadInputsPassIff(attrs, inputs, data, t, i);
    ReadInputsStopped(attrs, inputs, data, t, i + 1, n);
  }

  /** When update_inputs completes, every input attribute holds the value
      read for its exchange name at t. */
  lemma {:induction false} ReadInputsSets(attrs: map<string, real>, inputs: Names, data: map<string, Series>, t: real, n: nat, i: nat)
    requires i < n <= |inputs| && Keyed(inputs) && ReadInputs(attrs, inputs, data, t, n).outcome.Pass?
    ensures Read(data, inputs[i].1, t).Ok?
    ensures Attr(ReadInputs(attrs, inputs, data, t, n).value, inputs[i].0) == Some(Read(data, inputs[i].1, t).value)
  {
    if i < n - 1 {
      ReadInputsSets(attrs, inputs, data, t, n - 1, i);
      assert inputs[n - 1].0 != inputs[i].0;
    }
  }

  /** Attributes that are not inputs are never touched. */
  lemma {:induction false} ReadInputsLeavesOthers(attrs: map<string, real>, inputs: Names, data: map<string, Series>, t: real, n: nat, a: string)
    requires n <= |inputs| && forall j :: 0 <= j < |inputs| ==> inputs[j].0 != a
    ensures Attr(ReadInputs(attrs, inputs, data, t, n).value, a) == Attr(attrs, a)
  {
    if n > 0 {
      ReadInputsLeavesOthers(attrs, inputs, data, t, n - 1, a);
    }
  }

  // ---------------------------------------------------------------- update_states

  /** The state vector x of update_states: the first n state attributes in
      order, or None when the model lacks one (getattr raises). */
  function StateVector(attrs: map<string, real>, states: Names, n: nat): (r: Option<seq<real>>)
    requires n <= |states|
    ensures r.Some? <==> forall j :: 0 <= j < n ==> states[j].0 in attrs
    ensures r.Some? ==> |r.value| == n && forall j :: 0 <= j < n ==> r.value[j] == attrs[states[j].0]
  {
    if n == 0 then Some([])
    else match StateVector(attrs, states, n - 1)
      case None => None
      case Some(x) =>
        if states[n - 1].0 in attrs then Some(x + [attrs[states[n - 1].0]]) else None
  }

  /** The two-branch clamp of update_states: below lo gives lo, else above
      hi gives hi. */
  function Clamp(x: real, lo: real, hi: real): (r: real)
    ensures lo <= hi ==> lo <= r <= hi
    ensures lo <= x <= hi ==> r == x
    ensures r == x || r == lo || r == hi
  {
    if x < lo then lo else if x > hi then hi else x
  }

  /** A new state value after the bounds check: clamped when the model has
      bounds__<name>, as integrated otherwise. */
  function Bounded(bounds: map<string, (real, real)>, name: string, x: real): real
  {
    if name in bounds then Clamp(x, bounds[name].0, bounds[name].1) else x
  }

  /** The evidently intended write-back of update_states over the first n
      states: state j takes the bounded entry j of the integrated vector. */
  function Settle(attrs: map<string, real>, states: Names, bounds: map<string, (real, real)>, xnew: seq<real>, n: nat): map<string, real>
    requires n <= |states| && n <= |xnew|
  {
    if n == 0 then attrs
    else Settle(attrs, states, bounds, xnew, n - 1)[states[n - 1].0 := Bounded(bounds, states[n - 1].0, xnew[n - 1])]
  }

  /** Each state takes its own integrated entry, bounded. */
  lemma {:induction false} SettleSets(attrs: map<string, real>, states: Names, bounds: map<string, (real, real)>, xnew: seq<real>, n: nat, j: nat)
    requires j < n <= |states| && n <= |xnew| && Keyed(states)
    ensures Attr(Settle(attrs, states, bounds, xnew, n), states[j].0) == Some(Bounded(bounds, states[j].0, xnew[j]))
  {
    if j < n - 1 {
      SettleSets(attrs, states, bounds, xnew, n - 1, j);
      assert states[n - 1].0 != states[j].0;
    }
  }

  /** Attributes that are not states are never touched. */
  lemma {:induction false} SettleLeavesOthers(attrs: map<string, real>, states: Names, bounds: map<string, (real, real)>, xnew: seq<real>, n: nat, a: string)
    requires n <= |states| && n <= |xnew| && forall j :: 0 <= j < |states| ==> states[j].0 != a
    ensures Attr(Settle(attrs, states, bounds, xnew, n), a) == Attr(attrs, a)
  {
    if n > 0 {
      SettleLeavesOthers(attrs, states, bounds, xnew, n - 1, a);
    }
  }

  /** A bounded state ends inside its bounds, and a state the integrator
      left inside them keeps its integrated value. */
  lemma StateWithinBounds(attrs: map<string, real>, states: Names, bounds: map<string, (real, real)>, xnew: seq<real>, j: nat)
    requires j < |states| <= |xnew| && Keyed(states)
    requires states[j].0 in bounds && bounds[states[j].0].0 <= bounds[states[j].0].1
    ensures Attr(Settle(attrs, states, bounds, xnew, |states|), states[j].0).Some?
    ensures var v := Attr(Settle(attrs, states, bounds, xnew, |states|), states[j].0).value;
            bounds[states[j].0].0 <= v <= bounds[states[j].0].1
            && (bounds[states[j].0].0 <= xnew[j] <= bounds[states[j].0].1 ==> v == xnew[j])
  {
    SettleSets(attrs, states, bounds, xnew, |states|, j);
  }

  /** The bounds a reservoir model is built with: bounds__storage is
      (0.0, 1000000.0). */
  const ReservoirBounds: map<string, (real, real)> := map["storage" := (0.0, 1000000.0)]

  /** A reservoir's storage state stays within [0, 1e6] after every
      update_states, whatever the integrator returns. */
  lemma ReservoirStorageBounded(attrs: map<string, real>, states: Names, xnew: seq<real>, j: nat)
    requires j < |states| <= |xnew| && Keyed(states) && states[j].0 == "storage"
    ensures Attr(Settle(attrs, states, ReservoirBounds, xnew, |states|), "storage").Some?
    ensures 0.0 <= Attr(Settle(attrs, states, ReservoirBounds, xnew, |states|), "storage").value <= 1000000.0
  {
    StateWithinBounds(attrs, states, ReservoirBounds, xnew, j);
  }

  /** The value update_states as written stores for state n - 1: xnew[0],
      passed through the bounds of every state so far, because the index
      is never advanced and each clamp writes back into xnew[0]. */
  function CarriedAsWritten(states: Names, bounds: map<string, (real, real)>, x0: real, n: nat): real
    requires n <= |states|
  {
    if n == 0 then x0
    else Bounded(bounds, states[n - 1].0, CarriedAsWritten(states, bounds, x0, n - 1))
  }

  /** The write-back of update_states as written, over the first n states. */
  function SettleAsWritten(attrs: map<string, real>, states: Names, bounds: map<string, (real, real)>, xnew: seq<real>, n: nat): map<string, real>
    requires n <= |states| && (n > 0 ==> |xnew| > 0)
  {
    if n == 0 then attrs
    else SettleAsWritten(attrs, states, bounds, xnew, n - 1)[states[n - 1].0 := CarriedAsWritten(states, bounds, xnew[0], n)]
  }

  /** As written, when no state has bounds every state receives xnew[0]. */
  lemma {:induction false} UnboundedStatesAllTakeFirst(attrs: map<string, real>, states: Names, xnew: seq<real>, n: nat, j: nat)
    requires j < n <= |states| && |xnew| > 0 && Keyed(states)
    ensures Attr(SettleAsWritten(attrs, states, map[], xnew, n), states[j].0) == Some(xnew[0])
  {
    if j < n - 1 {
      UnboundedStatesAllTakeFirst(attrs, states, xnew, n - 1, j);
      assert states[n - 1].0 != states[j].0;
    } else {
      CarriedUnbounded(states, xnew[0], n);
    }
  }

  /** Without bounds the carried value stays xnew[0]. */
  lemma {:induction false} CarriedUnbounded(states: Names, x0: real, n: nat)
    requires n <= |states|
    ensures CarriedAsWritten(states, map[], x0, n) == x0
  {
    if n > 0 {
      CarriedUnbounded(states, x0, n - 1);
    }
  }

  /** Two unbounded states integrated to [1, 2]: as written the second
      state is stored as 1, where its integrated value is 2. */
  lemma SecondStateTakesFirstValue(attrs: map<string, real>)
    ensures SettleAsWritten(attrs, [("a", "A"), ("b", "B")], map[], [1.0, 2.0], 2)["b"] == 1.0
    ensures Settle(attrs, [("a", "A"), ("b", "B")], map[], [1.0, 2.0], 2)["b"] == 2.0
  {
    var states := [("a", "A"), ("b", "B")];
    CarriedUnbounded(states, 1.0, 2);
  }

  // ---------------------------------------------------------------- update_outputs

  /** update_outputs over the first n output names: an absent exchange name
      gets the dictionary {t: value}, a dictionary gets entry t set, a
      timeseries refuses item assignment (TypeError), and a missing
      attribute raises AttributeError before anything is written. */
  function Publish(data: map<string, Series>, attrs: map<string, real>, outputs: Names, t: real, n: nat): Partial<map<string, Series>>
    requires n <= |outputs|
  {
    if n == 0 then Partial(data, Pass)
    else
      var before := Publish(data, attrs, outputs, t, n - 1);
      var a := outputs[n - 1].0;
      var name := outputs[n - 1].1;
      if before.outcome.Fail? then before
      else if a !in attrs then Partial(before.value, Fail(AttributeError))
      else if name !in before.value then Partial(before.value[name := Points(map[t := attrs[a]])], Pass)
      else match before.value[name]
        case Curve(_) => Partial(before.value, Fail(TypeError))
        case Points(m) => Partial(before.value[name := Points(m[t := attrs[a]])], Pass)
  }

  /** The value recorded under name at time s, when there is one. */
  function At(data: map<string, Series>, name: string, s: real): Option<real>
  {
    if name in data && data[name].Points? && s in data[name].m then Some(data[name].m[s]) else None
  }

  /** Once an output write has raised, later names change nothing. */
  lemma {:induction false} PublishStopped(data: map<string, Series>, attrs: map<string, real>, outputs: Names, t: real, m: nat, n: nat)
    requires m <= n <= |outputs| && Publish(data, attrs, outputs, t, m).outcome.Fail?
    ensures Publish(data, attrs, outputs, t, n) == Publish(data, attrs, outputs, t, m)
    decreases n - m
  {
    if m < n {
      PublishStopped(data, attrs, outputs, t, m, n - 1);
    }
  }

  /** After the first n writes, an exchange name they wrote is a
      dictionary. */
  lemma {:induction false} PublishMakesPoints(data: map<string, Series>, attrs: map<string, real>, outputs: Names, t: real, n: nat, j: nat)
    requires j < n <= |outputs| && Publish(data, attrs, outputs, t, n).outcome.Pass?
    ensures outputs[j].1 in Publish(data, attrs, outputs, t, n).value
    ensures Publish(data, attrs, outputs, t, n).value[outputs[j].1].Points?
  {
    if j < n - 1 {
      PublishMakesPoints(data, attrs, outputs, t, n - 1, j);
    }
  }

  /** Names the first n writes do not reach keep their entry. */
  lemma {:induction false} PublishKeeps(data: map<string, Series>, attrs: map<string, real>, outputs: Names, t: real, n: nat, name: string)
    requires n <= |outputs| && forall j :: 0 <= j < n ==> outputs[j].1 != name
    ensures name in Publish(data, attrs, outputs, t, n).value <==> name in data
    ensures name in data ==> Publish(data, attrs, outputs, t, n).value[name] == data[name]
  {
    if n > 0 {
      PublishKeeps(data, attrs, outputs, t, n - 1, name);
    }
  }

  /** update_outputs completes exactly when the model has every output
      attribute and no output name is bound to a timeseries. */
  lemma {:induction false} PublishPassIff(data: map<string, Series>, attrs: map<string, real>, outputs: Names, t: real, n: nat)
    requires n <= |outputs|
    ensures Publish(data, attrs, outputs, t, n).outcome.Pass? <==>
      forall j :: 0 <= j < n ==> outputs[j].0 in attrs && (outputs[j].1 in data ==> data[outputs[j].1].Points?)
  {
    if n > 0 {
      PublishPassIff(data, attrs, outputs, t, n - 1);
      var before := Publish(data, attrs, outputs, t, n - 1);
      var name := outputs[n - 1].1;
      if before.outcome.Pass? {
        if exists j :: 0 <= j < n - 1 && outputs[j].1 == name {
          var j :| 0 <= j < n - 1 && outputs[j].1 == name;
          PublishMakesPoints(data, attrs, outputs, t, n - 1, j);
          if name in data {
            FirstWriteMeetsData(data, attrs, outputs, t, n - 1, j);
          }
        } else {
          PublishKeeps(data, attrs, outputs, t, n - 1, name);
        }
      }
    }
  }

  /** A completed write to a name already in the exchange found a
      dictionary there. */
  lemma {:induction false} FirstWriteMeetsData(data: map<string, Series>, attrs: map<string, real>, outputs: Names, t: real, n: nat, j: nat)
    requires j < n <= |outputs| && Publish(data, attrs, outputs, t, n).outcome.Pass? && outputs[j].1 in data
    ensures data[outputs[j].1].Points?
  {
    var name := outputs[j].1;
    if j < n - 1 {
      FirstWriteMeetsData(data, attrs, outputs, t, n - 1, j);
    } else if exists k :: 0 <= k < j && outputs[k].1 == name {
      var k :| 0 <= k < j && outputs[k].1 == name;
      FirstWriteMeetsData(data, attrs, outputs, t, j, k);
    } else {
      PublishKeeps(data, attrs, outputs, t, j, name);
    }
  }

  /** When update_outputs completes and no two outputs share an exchange
      name, reading an output name at t gives the attribute's value: what
      a downstream update_inputs sees at the same t. */
  lemma {:induction false} PublishedRead(data: map<string, Series>, attrs: map<string, real>, outputs: Names, t: real, n: nat, j: nat)
    requires j < n <= |outputs| && Unshared(outputs) && Publish(data, attrs, outputs, t, n).outcome.Pass?
    ensures outputs[j].0 in attrs
    ensures Read(Publish(data, attrs, outputs, t, n).value, outputs[j].1, t) == Ok(attrs[outputs[j].0])
  {
    if j < n - 1 {
      PublishedRead(data, attrs, outputs, t, n - 1, j);
      assert outputs[n - 1].1 != outputs[j].1;
    }
  }

  /** Entries at other times are never touched. */
  lemma {:induction false} PublishKeepsOtherTimes(data: map<string, Series>, attrs: map<string, real>, outputs: Names, t: real, n: nat, name: string, s: real)
    requires n <= |outputs| && s != t
    ensures At(Publish(data, attrs, outputs, t, n).value, name, s) == At(data, name, s)
  {
    if n > 0 {
      PublishKeepsOtherTimes(data, attrs, outputs, t, n - 1, name, s);
    }
  }

  // ---------------------------------------------------------------- run_until

  /** np.linspace(a, b, n): n evenly spaced samples from a to b, the last
      one exactly b. */
  function Linspace(a: real, b: real, n: nat): (r: seq<real>)
    ensures |r| == n
  {
    var step := if n > 1 then (b - a) / ((n - 1) as real) else 0.0;
    seq(n, k requires 0 <= k < n => if n > 1 && k == n - 1 then b else a + (k as real) * step)
  }

  /** The samples start at a and, when there are at least two, end at b,
      one (b - a)/(n - 1) apart. */
  lemma LinspaceShape(a: real, b: real, n: nat)
    ensures n >= 1 ==> Linspace(a, b, n)[0] == a
    ensures n >= 2 ==> Linspace(a, b, n)[n - 1] == b
    ensures forall k :: 0 <= k < n - 1 ==> Linspace(a, b, n)[k + 1] - Linspace(a, b, n)[k] == (b - a) / ((n - 1) as real)
  {
    var r := Linspace(a, b, n);
    forall k | 0 <= k < n - 1
      ensures r[k + 1] - r[k] == (b - a) / ((n - 1) as real)
    {
      var d := (b - a) / ((n - 1) as real);
      assert r[k] == a + (k as real) * d;
      assert ((k + 1) as real) * d == (k as real) * d + d;
      if k + 1 == n - 1 {
        assert ((n - 1) as real) * d == b - a;
      }
    }
  }

  /** run_until's int((end - start)/dt + 1). */
  function SampleCount(start: real, end: real, dt: real): int
    requires dt != 0.0
  {
    Trunc((end - start) / dt + 1.0)
  }

  /** Forward in time the grid spans [start, end]: n - 1 steps of dt fit
      and n do not, so there is at least one sample and the samples are at
      least dt apart, more when dt does not divide end - start. */
  lemma SampleCountForward(start: real, end: real, dt: real)
    requires 0.0 < dt && start <= end
    ensures var n := SampleCount(start, end, dt);
            n >= 1 && (n - 1) as real * dt <= end - start < n as real * dt
    ensures var n := SampleCount(start, end, dt);
            n >= 2 ==> (end - start) / ((n - 1) as real) >= dt
  {
    var q := (end - start) / dt;
    var n := SampleCount(start, end, dt);
    assert q * dt == end - start;
    assert (n - 1) as real <= q < n as real;
    assert end - start < n as real * dt by {
      assert (n as real - q) * dt > 0.0;
    }
    assert (n - 1) as real * dt <= end - start by {
      assert (q - (n - 1) as real) * dt >= 0.0;
    }
    if n >= 2 {
      DivAtLeast(end - start, (n - 1) as real, dt);
    }
  }

  /** Backward in time nothing is sampled: less than two steps back the
      loop is empty, two or more raise ValueError (a negative count). */
  lemma SampleCountBackward(start: real, end: real, dt: real)
    requires 0.0 < dt && end < start
    ensures SampleCount(start, end, dt) <= 0
    ensures SampleCount(start, end, dt) < 0 <==> end - start <= -2.0 * dt
  {
    var q := (end - start) / dt;
    assert q * dt == end - start;
    assert q < 0.0;
    assert q <= -2.0 <==> end - start <= -2.0 * dt by {
      assert (q + 2.0) * dt == end - start + 2.0 * dt;
      if q <= -2.0 {
        assert (q + 2.0) * dt <= 0.0;
      } else {
        assert (q + 2.0) * dt > 0.0;
      }
    }
  }

  /** a / m is at least d when a is at least m times d, for positive m. */
  lemma DivAtLeast(a: real, m: real, d: real)
    requires 0.0 < m && m * d <= a
    ensures a / m >= d
  {
    var r := a / m;
    assert r * m == a;
    if r < d {
      assert (d - r) * m > 0.0;
    }
  }

  /** The entries the 't' export gains from samples. */
  function Stamps(samples: seq<real>): (r: seq<Option<real>>)
    ensures |r| == |samples| && forall k :: 0 <= k < |samples| ==> r[k] == Some(samples[k])
  {
    seq(|samples|, k requires 0 <= k < |samples| => Some(samples[k]))
  }

  // ---------------------------------------------------------------- a sample of run_until

  /** get_value(name): the attribute of the first output whose exchange
      name is name (AttributeError when the model lacks it), None when no
      output has that name. */
  function Lookup(outputs: Names, attrs: map<string, real>, name: string): (r: Result<Option<real>>)
    ensures r == Ok(None) <==> forall j :: 0 <= j < |outputs| ==> outputs[j].1 != name
    ensures forall j :: 0 <= j < |outputs| && outputs[j].1 == name && (forall i :: 0 <= i < j ==> outputs[i].1 != name) ==>
      r == if outputs[j].0 in attrs then Ok(Some(attrs[outputs[j].0])) else Raise(AttributeError)
  {
    match FirstIndex(outputs, name)
    case None => Ok(None)
    case Some(p) => if outputs[p].0 in attrs then Ok(Some(attrs[outputs[p].0])) else Raise(AttributeError)
  }

  /** The entry an export column gains from get_value(name); a raising
      get_value stops the sample, so its entry is never recorded. */
  function Reported(outputs: Names, attrs: map<string, real>, name: string): Option<real>
  {
    match Lookup(outputs, attrs, name)
    case Ok(v) => v
    case Raise(_) => None
  }

  /** What one component's update leaves: its attributes, its clock, and
      the exchange with how the update ended. */
  datatype Stage = Stage(attrs: map<string, real>, time: real, exchange: Partial<map<string, Series>>)

  /** Component.update(t, data) from the given attributes and clock:
      update_inputs, then update_states as written, then update_outputs;
      the first exception stops it and hands back the exchange as it is. */
  function Updated(c: Component, attrs: map<string, real>, time: real, t: real, data: map<string, Series>, ode: Integrator): Stage
    requires KeepsLength(ode)
  {
    var ins := ReadInputs(attrs, c.inputs, data, t, |c.inputs|);
    if ins.outcome.Fail? then Stage(ins.value, time, Partial(data, ins.outcome))
    else
      var x := StateVector(ins.value, c.states, |c.states|);
      if x.None? then Stage(ins.value, time, Partial(data, Fail(AttributeError)))
      else
        var settled := SettleAsWritten(ins.value, c.states, c.bounds, Integrate(ode, x.value, time, t), |c.states|);
        Stage(settled, t, Publish(data, settled, c.outputs, t, |c.outputs|))
  }

  /** The last position before n that holds component c. */
  function Latest(cs: seq<Component>, c: Component, n: nat): (r: Option<nat>)
    requires n <= |cs|
    ensures r.Some? ==> r.value < n && cs[r.value] == c && forall j :: r.value < j < n ==> cs[j] != c
    ensures r.None? <==> forall j :: 0 <= j < n ==> cs[j] != c
  {
    if n == 0 then None
    else if cs[n - 1] == c then Some(n - 1)
    else Latest(cs, c, n - 1)
  }

  /** Each component's attributes and clock. */
  type Snapshot = map<Component, (map<string, real>, real)>

  /** What each component holds after the first |stages| updates of a
      sample that began from start: a component listed twice continues
      from its own latest update. */
  function Current(cs: seq<Component>, start: Snapshot, stages: seq<Stage>): (r: Snapshot)
    requires |stages| <= |cs|
    ensures r.Keys == start.Keys
  {
    map c | c in start :: match Latest(cs, c, |stages|)
      case Some(j) => (stages[j].attrs, stages[j].time)
      case None => start[c]
  }

  /** What component i updates from. */
  function Before(cs: seq<Component>, start: Snapshot, stages: seq<Stage>, i: nat): (map<string, real>, real)
    requires i <= |stages| && i < |cs| && cs[i] in start
  {
    match Latest(cs, cs[i], i)
    case Some(j) => (stages[j].attrs, stages[j].time)
    case None => start[cs[i]]
  }

  /** The exchange component i is given: the one the sample began with,
      then the one the previous update returned. */
  function Incoming(ex: Option<map<string, Series>>, stages: seq<Stage>, i: nat): map<string, Series>
    requires i <= |stages| && (i == 0 ==> ex.Some?)
  {
    if i == 0 then ex.value else stages[i - 1].exchange.value
  }

  /** The exchange after the first |stages| updates. */
  function Handed(ex: Option<map<string, Series>>, stages: seq<Stage>): Option<map<string, Series>>
  {
    if stages == [] then ex else Some(stages[|stages| - 1].exchange.value)
  }

  /** The first |stages| updates of a sample at time t, begun from start
      with exchange ex: each component updates from what it holds and
      passes the exchange on, and none raises. */
  ghost predicate Swept(cs: seq<Component>, start: Snapshot, ex: Option<map<string, Series>>, t: real, ode: Integrator, stages: seq<Stage>)
    requires KeepsLength(ode)
    decreases 2 * |stages|
  {
    |stages| <= |cs| && (forall c :: c in cs ==> c in start) &&
    if stages == [] then true
    else
      var prev := stages[..|stages| - 1];
      ex.Some? && Follows(cs, start, ex, t, ode, prev, stages[|prev|])
  }

  /** The updates in prev are a sweep, and st is the update of the
      component after them. */
  ghost predicate Follows(cs: seq<Component>, start: Snapshot, ex: Option<map<string, Series>>, t: real, ode: Integrator, prev: seq<Stage>, st: Stage)
    requires KeepsLength(ode) && |prev| < |cs| && cs[|prev|] in start && ex.Some?
    decreases 2 * |prev| + 1
  {
    Swept(cs, start, ex, t, ode, prev) &&
    var from := Before(cs, start, prev, |prev|);
    st.exchange.outcome.Pass? && st == Updated(cs[|prev|], from.0, from.1, t, Incoming(ex, prev, |prev|), ode)
  }

  /** The entries export column k gains from the updates in stages: per
      component, get_value(k) once for every time k is an export name. */
  function SampleRow(cs: seq<Component>, stages: seq<Stage>, exports: seq<string>, k: string): (r: seq<Option<real>>)
    requires |stages| <= |cs|
  {
    if stages == [] then []
    else
      var i := |stages| - 1;
      SampleRow(cs, stages[..i], exports, k) + Repeat(Reported(cs[i].outputs, stages[i].attrs, k), Count(exports, k))
  }

  /** Each component's attributes and clock after the samples in traces. */
  function HeldAt(cs: seq<Component>, start: Snapshot, traces: seq<seq<Stage>>): (r: Snapshot)
    requires forall s :: 0 <= s < |traces| ==> |traces[s]| <= |cs|
    ensures r.Keys == start.Keys
  {
    if traces == [] then start
    else Current(cs, HeldAt(cs, start, traces[..|traces| - 1]), traces[|traces| - 1])
  }

  /** The exchange after the samples in traces. */
  function ExAt(ex: Option<map<string, Series>>, traces: seq<seq<Stage>>): Option<map<string, Series>>
  {
    if traces == [] then ex
    else Handed(ExAt(ex, traces[..|traces| - 1]), traces[|traces| - 1])
  }

  /** The samples of run_until so far, one complete sweep each, every one
      continuing from what the one before it left. */
  ghost predicate Ran(cs: seq<Component>, start: Snapshot, ex: Option<map<string, Series>>, samples: seq<real>, ode: Integrator, traces: seq<seq<Stage>>)
    requires KeepsLength(ode)
  {
    |traces| <= |samples| && (forall s :: 0 <= s < |traces| ==> |traces[s]| == |cs|) &&
    if traces == [] then true
    else
      var prev := traces[..|traces| - 1];
      Ran(cs, start, ex, samples, ode, prev)
      && Swept(cs, HeldAt(cs, start, prev), ExAt(ex, prev), samples[|prev|], ode, traces[|prev|])
  }

  /** The entries export column k gains over the samples in traces: each
      sample's get_value entries, then the sample time for 't'. */
  function Columns(cs: seq<Component>, traces: seq<seq<Stage>>, samples: seq<real>, exports: seq<string>, k: string): seq<Option<real>>
    requires |traces| <= |samples| && forall s :: 0 <= s < |traces| ==> |traces[s]| <= |cs|
  {
    if traces == [] then []
    else
      var s := |traces| - 1;
      Columns(cs, traces[..s], samples, exports, k) + SampleRow(cs, traces[s], exports, k)
        + (if k == "t" then [Some(samples[s])] else [])
  }

  /** The export record after one component's export names: every
      column k gains get_value(k) once per occurrence of k. */
  function Recorded(record: map<string, seq<Option<real>>>, outputs: Names, attrs: map<string, real>, exports: seq<string>): (r: map<string, seq<Option<real>>>)
    ensures r.Keys == record.Keys
  {
    map k | k in record :: record[k] + Repeat(Reported(outputs, attrs, k), Count(exports, k))
  }

  /** One more export name: its column gains get_value once more. */
  lemma RecordedStep(record: map<string, seq<Option<real>>>, outputs: Names, attrs: map<string, real>, exports: seq<string>, j: nat)
    requires j < |exports| && exports[j] in record
    ensures Recorded(record, outputs, attrs, exports[..j + 1])
      == Recorded(record, outputs, attrs, exports[..j])[exports[j] := Recorded(record, outputs, attrs, exports[..j])[exports[j]] + [Reported(outputs, attrs, exports[j])]]
  {
    var name := exports[j];
    var before := Recorded(record, outputs, attrs, exports[..j]);
    var after := Recorded(record, outputs, attrs, exports[..j + 1]);
    var updated := before[name := before[name] + [Reported(outputs, attrs, name)]];
    forall k | k in record
      ensures after[k] == updated[k]
    {
      var x := Reported(outputs, attrs, k);
      var n := Count(exports[..j], k);
      CountSnoc(exports, j, k);
      if k == name {
        RepeatSnoc(record[k], x, n);
      }
    }
  }

  /** Counting over one more element of s. */
  lemma CountSnoc<T>(s: seq<T>, j: nat, x: T)
    requires j < |s|
    ensures Count(s[..j + 1], x) == Count(s[..j], x) + if s[j] == x then 1 else 0
  {
    assert s[..j + 1][..j] == s[..j];
  }

  /** One more copy of x at the end of a column. */
  lemma RepeatSnoc<T>(prior: seq<T>, x: T, n: nat)
    ensures prior + Repeat(x, n + 1) == prior + Repeat(x, n) + [x]
  {
    assert Repeat(x, n + 1) == Repeat(x, n) + [x];
  }

  /** No export names leave the record as it was. */
  lemma RecordedNone(record: map<string, seq<Option<real>>>, outputs: Names, attrs: map<string, real>)
    ensures Recorded(record, outputs, attrs, []) == record
  {
    forall k | k in record
      ensures Recorded(record, outputs, attrs, [])[k] == record[k]
    {
      assert record[k] + Repeat(Reported(outputs, attrs, k), 0) == record[k];
    }
  }

  /** The export record after the components' loop of a sample. */
  function SampleRecorded(record: map<string, seq<Option<real>>>, cs: seq<Component>, stages: seq<Stage>, exports: seq<string>): (r: map<string, seq<Option<real>>>)
    requires |stages| <= |cs|
    ensures r.Keys == record.Keys
  {
    map k | k in record :: record[k] + SampleRow(cs, stages, exports, k)
  }

  /** The export record after the sample time t is appended to 't'. */
  function Stamped(record: map<string, seq<Option<real>>>, t: real): (r: map<string, seq<Option<real>>>)
    requires "t" in record
    ensures r.Keys == record.Keys
  {
    record["t" := record["t"] + [Some(t)]]
  }

  /** The export record after the samples in traces. */
  function RunRecorded(record: map<string, seq<Option<real>>>, cs: seq<Component>, traces: seq<seq<Stage>>, samples: seq<real>, exports: seq<string>): (r: map<string, seq<Option<real>>>)
    requires |traces| <= |samples| && forall s :: 0 <= s < |traces| ==> |traces[s]| <= |cs|
    ensures r.Keys == record.Keys
  {
    map k | k in record :: record[k] + Columns(cs, traces, samples, exports, k)
  }

  /** A sample adds Count(exports, k) entries per component to column k. */
  lemma {:induction false} SampleRowLength(cs: seq<Component>, stages: seq<Stage>, exports: seq<string>, k: string)
    requires |stages| <= |cs|
    ensures |SampleRow(cs, stages, exports, k)| == |stages| * Count(exports, k)
  {
    if stages != [] {
      var n := |stages| - 1;
      SampleRowLength(cs, stages[..n], exports, k);
      assert |stages| * Count(exports, k) == n * Count(exports, k) + Count(exports, k);
    }
  }

  /** Over n complete samples column k grows by n times (components x
      occurrences of k among the export names, plus one for 't'). */
  lemma {:induction false} ColumnsLength(cs: seq<Component>, traces: seq<seq<Stage>>, samples: seq<real>, exports: seq<string>, k: string)
    requires |traces| <= |samples| && forall s :: 0 <= s < |traces| ==> |traces[s]| == |cs|
    ensures |Columns(cs, traces, samples, exports, k)| == |traces| * (|cs| * Count(exports, k) + (if k == "t" then 1 else 0))
  {
    if traces != [] {
      var s := |traces| - 1;
      var prefix := traces[..s];
      ColumnsLength(cs, prefix, samples, exports, k);
      ColumnsLengthStep(cs, traces, samples, exports, k);
      MulSucc(s, |cs| * Count(exports, k) + (if k == "t" then 1 else 0));
    }
  }

  /** The length of Columns grows by one sample's worth per trace. */
  lemma ColumnsLengthStep(cs: seq<Component>, traces: seq<seq<Stage>>, samples: seq<real>, exports: seq<string>, k: string)
    requires 0 < |traces| <= |samples| && forall s :: 0 <= s < |traces| ==> |traces[s]| == |cs|
    ensures |Columns(cs, traces, samples, exports, k)|
      == |Columns(cs, traces[..|traces| - 1], samples, exports, k)| + |cs| * Count(exports, k) + (if k == "t" then 1 else 0)
  {
    var s := |traces| - 1;
    SampleRowLength(cs, traces[s], exports, k);
  }

  /** One more factor of p. */
  lemma MulSucc(n: nat, p: nat)
    ensures (n + 1) * p == n * p + p
  {
  }

  /** A name that is not an export name gains no get_value entries. */
  lemma {:induction false} SampleRowAbsent(cs: seq<Component>, stages: seq<Stage>, exports: seq<string>, k: string)
    requires |stages| <= |cs| && k !in exports
    ensures SampleRow(cs, stages, exports, k) == []
  {
    CountAbsent(exports, k);
    if stages != [] {
      SampleRowAbsent(cs, stages[..|stages| - 1], exports, k);
    }
  }

  /** Unless 't' is also an export name, column 't' holds exactly the
      sample times. */
  lemma {:induction false} ColumnsTime(cs: seq<Component>, traces: seq<seq<Stage>>, samples: seq<real>, exports: seq<string>)
    requires |traces| <= |samples| && forall s :: 0 <= s < |traces| ==> |traces[s]| <= |cs|
    requires "t" !in exports
    ensures Columns(cs, traces, samples, exports, "t") == Stamps(samples[..|traces|])
  {
    if traces != [] {
      var s := |traces| - 1;
      var prefix := traces[..s];
      ColumnsTime(cs, prefix, samples, exports);
      SampleRowAbsent(cs, traces[s], exports, "t");
      assert prefix + [traces[s]] == traces;
      ColumnsSnoc([], cs, prefix, traces[s], samples, exports, "t");
      StampsSnoc(samples, s);
    }
  }

  /** One more sample time stamps one more entry. */
  lemma StampsSnoc(samples: seq<real>, s: nat)
    requires s < |samples|
    ensures Stamps(samples[..s + 1]) == Stamps(samples[..s]) + [Some(samples[s])]
  {
  }

  /** A value that does not occur is counted zero times. */
  lemma {:induction false} CountAbsent<T>(s: seq<T>, x: T)
    requires x !in s
    ensures Count(s, x) == 0
  {
    if s != [] {
      CountAbsent(s[..|s| - 1], x);
    }
  }

  // ---------------------------------------------------------------- classes

  /** A model component: the model's attributes, its bounds__ attributes,
      its time, and the three name dictionaries. */
  class Component {
    const states: Names
    const inputs: Names
    const outputs: Names
    const bounds: map<string, (real, real)>
    var attrs: map<string, real>
    var time: real

    /** Component(id, states, inputs, outputs, model, args), given the
        attributes the model constructor sets. */
    constructor(states: Names, inputs: Names, outputs: Names, attrs: map<string, real>, bounds: map<string, (real, real)>)
      ensures this.states == states && this.inputs == inputs && this.outputs == outputs
      ensures this.attrs == attrs && this.bounds == bounds && time == 0.0
    {
      this.states := states;
      this.inputs := inputs;
      this.outputs := outputs;
      this.attrs := attrs;
      this.bounds := bounds;
      time := 0.0;
    }

    /** initialize(config): the start time, then reset_states with the
        initial states. */
    method Initialize(start: real, initial: seq<(string, real)>)
      modifies this`attrs, this`time
      ensures time == start && attrs == Reset(old(attrs), states, initial, |initial|)
    {
      time := start;
      ResetStates(initial);
    }

    /** reset_states(initial_states). */
    method ResetStates(initial: seq<(string, real)>)
      modifies this`attrs
      ensures attrs == Reset(old(attrs), states, initial, |initial|)
    {
      var i := 0;
      while i < |initial|
        invariant 0 <= i <= |initial|
        invariant attrs == Reset(old(attrs), states, initial, i)
      {
        var p := FirstIndex(states, initial[i].0);
        if p.Some? {
          attrs := attrs[states[p.value].0 := initial[i].1];
        }
        i := i + 1;
      }
    }

    /** get_value(name): the attribute of the first output whose exchange
        name is name; None when there is none. */
    method GetValue(name: string) returns (r: Result<Option<real>>)
      ensures r == Lookup(outputs, attrs, name)
    {
      var i := 0;
      while i < |outputs|
        invariant 0 <= i <= |outputs|
        invariant forall j :: 0 <= j < i ==> outputs[j].1 != name
      {
        if outputs[i].1 == name {
          var a := outputs[i].0;
          if a !in attrs {
            return Raise(AttributeError);
          }
          return Ok(Some(attrs[a]));
        }
        i := i + 1;
      }
      r := Ok(None);
    }

    /** update_inputs(t, inputs). */
    method UpdateInputs(t: real, data: map<string, Series>) returns (o: Outcome)
      modifies this`attrs
      ensures Partial(attrs, o) == ReadInputs(old(attrs), inputs, data, t, |inputs|)
    {
      var i := 0;
      while i < |inputs|
        invariant 0 <= i <= |inputs|
        invariant ReadInputs(old(attrs), inputs, data, t, i) == Partial(attrs, Pass)
      {
        var x := Read(data, inputs[i].1, t);
        if x.Raise? {
          ReadInputsStopped(old(attrs), inputs, data, t, i + 1, |inputs|);
          return Fail(x.error);
        }
        attrs := attrs[inputs[i].0 := x.value];
        i := i + 1;
      }
      o := Pass;
    }

    /** update_states(t), as written: the state vector is integrated from
        the component's time to t, then every state is written from entry
        i of the integrated vector, clamped in place by that state's
        bounds, with i never advanced from 0. A missing state attribute
        raises AttributeError before anything changes. */
    method UpdateStates(t: real, ode: Integrator) returns (o: Outcome)
      requires KeepsLength(ode)
      modifies this`attrs, this`time
      ensures StateVector(old(attrs), states, |states|).None? ==>
        o == Fail(AttributeError) && attrs == old(attrs) && time == old(time)
      ensures StateVector(old(attrs), states, |states|).Some? ==>
        o == Pass && time == t &&
        attrs == SettleAsWritten(old(attrs), states, bounds, Integrate(ode, StateVector(old(attrs), states, |states|).value, old(time), t), |states|)
    {
      var x := [];
      var i := 0;
      while i < |states|
        invariant 0 <= i <= |states| && StateVector(attrs, states, i) == Some(x)
      {
        if states[i].0 !in attrs {
          StateVectorMissing(attrs, states, i + 1, |states|);
          return Fail(AttributeError);
        }
        x := x + [attrs[states[i].0]];
        i := i + 1;
      }
      var xnew := Integrate(ode, x, time, t);
      ghost var before, integrated := attrs, xnew;
      i := 0;
      var j := 0;
      while j < |states|
        invariant 0 <= j <= |states| && |xnew| == |states| && i == 0
        invariant attrs == SettleAsWritten(before, states, bounds, integrated, j)
        invariant j < |states| ==> xnew[i] == CarriedAsWritten(states, bounds, integrated[0], j)
      {
        var name := states[j].0;
        if name in bounds {
          if xnew[i] < bounds[name].0 {
            xnew := xnew[i := bounds[name].0];
          } else if xnew[i] > bounds[name].1 {
            xnew := xnew[i := bounds[name].1];
          }
        }
        attrs := attrs[name := xnew[i]];
        j := j + 1;
      }
      time := t;
      o := Pass;
    }

    /** update_outputs(t, outputs): the exchange after the writes, and
        whether they all went through. */
    method UpdateOutputs(t: real, data: map<string, Series>) returns (r: Partial<map<string, Series>>)
      ensures r == Publish(data, attrs, outputs, t, |outputs|)
    {
      var d := data;
      var i := 0;
      while i < |outputs|
        invariant 0 <= i <= |outputs| && Publish(data, attrs, outputs, t, i) == Partial(d, Pass)
      {
        var a := outputs[i].0;
        var name := outputs[i].1;
        if a !in attrs {
          PublishStopped(data, attrs, outputs, t, i + 1, |outputs|);
          return Partial(d, Fail(AttributeError));
        }
        if name !in d {
          d := d[name := Points(map[t := attrs[a]])];
        } else if d[name].Curve? {
          PublishStopped(data, attrs, outputs, t, i + 1, |outputs|);
          return Partial(d, Fail(TypeError));
        } else {
          d := d[name := Points(d[name].m[t := attrs[a]])];
        }
        i := i + 1;
      }
      r := Partial(d, Pass);
    }

    /** update(t, data_exchange): inputs, then states, then outputs; the
        first exception stops it, leaving the exchange as it is. */
    method Update(t: real, data: map<string, Series>, ode: Integrator) returns (r: Partial<map<string, Series>>)
      requires KeepsLength(ode)
      modifies this`attrs, this`time
      ensures Stage(attrs, time, r) == Updated(this, old(attrs), old(time), t, data, ode)
    {
      var o := UpdateInputs(t, data);
      if o.Fail? {
        return Partial(data, o);
      }
      o := UpdateStates(t, ode);
      if o.Fail? {
        return Partial(data, o);
      }
      r := UpdateOutputs(t, data);
    }
  }

  /** A missing state attribute leaves no state vector. */
  lemma StateVectorMissing(attrs: map<string, real>, states: Names, m: nat, n: nat)
    requires 0 < m <= n <= |states| && states[m - 1].0 !in attrs
    ensures StateVector(attrs, states, n).None?
  {
  }

  /** The concrete model: its components, the import and export names of
      its data configuration, the timeseries, the clock, the data exchange
      and the export record (None until initialize binds them). */
  class ConcreteModel {
    const components: seq<Component>
    const imports: seq<string>
    const exports: seq<string>
    const timeseries: map<string, Series>
    var time: real
    var dt: real
    var exchange: Option<map<string, Series>>
    var exported: Option<map<string, seq<Option<real>>>>

    /** ConcreteModel(components, data_config, timeseries). */
    constructor(components: seq<Component>, imports: seq<string>, exports: seq<string>, timeseries: map<string, Series>)
      ensures this.components == components && this.imports == imports && this.exports == exports
      ensures this.timeseries == timeseries
      ensures time == 0.0 && dt == 0.1 && exchange == None && exported == None
    {
      this.components := components;
      this.imports := imports;
      this.exports := exports;
      this.timeseries := timeseries;
      time := 0.0;
      dt := 0.1;
      exchange := None;
      exported := None;
    }

    /** The components, as a frame. */
    function Parts(): set<Component>
    {
      set c | c in components
    }

    /** What each component holds. */
    function Snap(): Snapshot
      reads Parts()
    {
      map c | c in Parts() :: (c.attrs, c.time)
    }

    /** A snapshot that agrees with every component is Snap(). */
    lemma SnapIs(m: Snapshot)
      requires m.Keys == Parts() && forall c :: c in Parts() ==> (c.attrs, c.time) == m[c]
      ensures Snap() == m
    {
    }

    /** initialize(config): the clock, the imported timeseries (KeyError at
        the first one missing, keeping those before it), a fresh export
        record with 't' and every export name, then every component. */
    method Initialize(start: real, step: real, initial: seq<(string, real)>) returns (o: Outcome)
      modifies this`time, this`dt, this`exchange, this`exported, Parts()
      ensures time == start && dt == step
      ensures exchange == Some(Import(timeseries, imports, |imports|).value)
      ensures o == Import(timeseries, imports, |imports|).outcome
      ensures o.Fail? ==> exported == old(exported)
      ensures o.Pass? ==> exported.Some? && exported.value.Keys == {"t"} + (set k | k in exports)
      ensures o.Pass? ==> forall k :: k in exported.value ==> exported.value[k] == []
      ensures o.Pass? ==> forall c :: c in Parts() ==> c.time == start && c.attrs == Reset(old(c.attrs), c.states, initial, |initial|)
    {
      time := start;
      dt := step;
      var ex := map[];
      var i := 0;
      while i < |imports|
        invariant 0 <= i <= |imports| && Import(timeseries, imports, i) == Partial(ex, Pass)
      {
        if imports[i] !in timeseries {
          ImportStopped(timeseries, imports, i + 1, |imports|);
          exchange := Some(ex);
          return Fail(KeyError);
        }
        ex := ex[imports[i] := timeseries[imports[i]]];
        i := i + 1;
      }
      exchange := Some(ex);
      var e := map["t" := []];
      var j := 0;
      while j < |exports|
        invariant 0 <= j <= |exports|
        invariant e.Keys == {"t"} + (set k | k in exports[..j])
        invariant forall k :: k in e ==> e[k] == []
      {
        assert exports[..j + 1] == exports[..j] + [exports[j]];
        e := e[exports[j] := []];
        j := j + 1;
      }
      assert exports[..|exports|] == exports;
      exported := Some(e);
      InitializeComponents(start, initial);
      o := Pass;
    }

    /** The loop of initialize over the components. */
    method InitializeComponents(start: real, initial: seq<(string, real)>)
      modifies Parts()
      ensures forall c :: c in Parts() ==> c.time == start && c.attrs == Reset(old(c.attrs), c.states, initial, |initial|)
    {
      var i := 0;
      while i < |components|
        invariant 0 <= i <= |components|
        invariant forall c :: c in Parts() ==> c.time == (if c in components[..i] then start else old(c.time))
        invariant forall c :: c in Parts() ==>
          c.attrs == (if c in components[..i] then Reset(old(c.attrs), c.states, initial, |initial|) else old(c.attrs))
      {
        var c := components[i];
        ghost var a := c.attrs;
        c.Initialize(start, initial);
        if c in components[..i] {
          ResetIdempotent(old(c.attrs), c.states, initial);
        }
        assert components[..i + 1] == components[..i] + [c];
        i := i + 1;
      }
      assert components[..|components|] == components;
    }

    /** run_until(end_time): int((end - start)/dt + 1) samples from the
        current time to end_time; per sample each component updates and
        records every export name, then the sample time is recorded and
        becomes the clock. traces holds each sample's updates. */
    method RunUntil(end: real, ode: Integrator) returns (o: Outcome, ghost traces: seq<seq<Stage>>)
      requires KeepsLength(ode)
      modifies this`time, this`exchange, this`exported, Parts()
      ensures dt == 0.0 ==> o == Fail(ZeroDivisionError) && time == old(time) && exported == old(exported)
      ensures dt != 0.0 && SampleCount(old(time), end, dt) < 0 ==>
        o == Fail(ValueError) && time == old(time) && exported == old(exported)
      ensures dt != 0.0 && SampleCount(old(time), end, dt) == 0 ==>
        o == Pass && time == old(time) && exported == old(exported)
      ensures dt != 0.0 && o.Pass? && SampleCount(old(time), end, dt) > 0 ==>
        var n := SampleCount(old(time), end, dt);
        var samples := Linspace(old(time), end, n);
        |traces| == n && Ran(components, old(Snap()), old(exchange), samples, ode, traces)
        && Snap() == HeldAt(components, old(Snap()), traces)
        && exchange == ExAt(old(exchange), traces)
        && old(exported).Some? && exported == Some(RunRecorded(old(exported).value, components, traces, samples, exports))
        && time == samples[n - 1]
    {
      traces := [];
      if dt == 0.0 {
        return Fail(ZeroDivisionError), traces;
      }
      var n := SampleCount(time, end, dt);
      if n < 0 {
        return Fail(ValueError), traces;
      }
      var samples := Linspace(time, end, n);
      ghost var h0 := Snap();
      o, traces := Run(samples, ode);
      if o.Pass? {
        SnapIs(HeldAt(components, h0, traces));
      }
    }

    /** run_until's loop over the sample times. */
    method Run(samples: seq<real>, ode: Integrator) returns (o: Outcome, ghost traces: seq<seq<Stage>>)
      requires KeepsLength(ode)
      modifies this`time, this`exchange, this`exported, Parts()
      ensures samples == [] ==> o == Pass && time == old(time) && exported == old(exported)
      ensures o.Pass? ==> |traces| == |samples| && Trail(components, exports, old(Snap()), old(exchange), old(exported), samples, ode, traces, exchange, exported) == true
      ensures o.Pass? ==> forall c :: c in Parts() ==> (c.attrs, c.time) == HeldAt(components, old(Snap()), traces)[c]
      ensures o.Pass? && samples != [] ==> time == samples[|samples| - 1]
    {
      traces := [];
      var n := |samples|;
      ghost var e0, h0, x0 := exported, Snap(), exchange;
      var k := 0;
      while k < n
        invariant 0 <= k <= n && |traces| == k && h0.Keys == Parts()
        invariant Trail(components, exports, h0, x0, e0, samples, ode, traces, exchange, exported) == true
        invariant forall c :: c in Parts() ==> (c.attrs, c.time) == HeldAt(components, h0, traces)[c]
        invariant k == 0 ==> time == old(time)
        invariant k > 0 ==> time == samples[k - 1]
      {
        o, traces := Advance(k, samples, ode, h0, x0, e0, traces);
        if o.Fail? {
          return;
        }
        k := k + 1;
      }
      o := Pass;
    }

    /** The body of run_until's loop: the sample after those in traces,
        begun from what the components held (h0), the exchange x0 and the
        export record e0. Trail is stated as `Trail(...) == true`, which
        the verifier keeps whole instead of unfolding it at every use. */
    method Advance(k: nat, samples: seq<real>, ode: Integrator, ghost h0: Snapshot, ghost x0: Option<map<string, Series>>,
                   ghost e0: Option<map<string, seq<Option<real>>>>, ghost traces: seq<seq<Stage>>)
      returns (o: Outcome, ghost next: seq<seq<Stage>>)
      requires KeepsLength(ode) && k == |traces| < |samples| && h0.Keys == Parts()
      requires Trail(components, exports, h0, x0, e0, samples, ode, traces, exchange, exported) == true
      requires forall c :: c in Parts() ==> (c.attrs, c.time) == HeldAt(components, h0, traces)[c]
      modifies this`time, this`exchange, this`exported, Parts()
      ensures o.Pass? ==> time == samples[k]
      ensures o.Pass? ==> |next| == |traces| + 1 && Trail(components, exports, h0, x0, e0, samples, ode, next, exchange, exported) == true
      ensures o.Pass? ==> forall c :: c in Parts() ==> (c.attrs, c.time) == HeldAt(components, h0, next)[c]
    {
      ghost var held, ex, rec := HeldAt(components, h0, traces), exchange, exported;
      SnapIs(held);
      ghost var stages;
      o, stages := RunSample(samples[k], ode);
      next := traces + [stages];
      if o.Fail? {
        return;
      }
      time := samples[k];
      TrailStep(components, exports, h0, x0, e0, samples, ode, traces, ex, rec, stages);
    }

    /** One sample of run_until at time t: every component updates in turn
        and hands the exchange on, and after each update every export
        name's column gains get_value; then 't' gains t. */
    method RunSample(t: real, ode: Integrator) returns (o: Outcome, ghost stages: seq<Stage>)
      requires KeepsLength(ode)
      modifies this`exchange, this`exported, Parts()
      ensures o.Pass? ==> |stages| == |components| && Swept(components, old(Snap()), old(exchange), t, ode, stages) == true
      ensures o.Pass? ==> forall c :: c in Parts() ==> (c.attrs, c.time) == Current(components, old(Snap()), stages)[c]
      ensures o.Pass? ==> exchange == Handed(old(exchange), stages)
      ensures o.Pass? ==> old(exported).Some? && "t" in old(exported).value
      ensures o.Pass? ==> exported == Some(Stamped(SampleRecorded(old(exported).value, components, stages, exports), t))
    {
      o, stages := Sweep(t, ode);
      if o.Fail? {
        return;
      }
      if exported.None? {
        return Fail(AttributeError), stages;
      }
      if "t" !in exported.value {
        return Fail(KeyError), stages;
      }
      exported := Some(exported.value["t" := exported.value["t"] + [Some(t)]]);
    }

    /** The components' loop of one sample: every component updates in
        turn and hands the exchange on, and after each update every export
        name's column gains get_value. */
    method Sweep(t: real, ode: Integrator) returns (o: Outcome, ghost stages: seq<Stage>)
      requires KeepsLength(ode)
      modifies this`exchange, this`exported, Parts()
      ensures o.Pass? ==> |stages| == |components| && Swept(components, old(Snap()), old(exchange), t, ode, stages) == true
      ensures o.Pass? ==> forall c :: c in Parts() ==> (c.attrs, c.time) == Current(components, old(Snap()), stages)[c]
      ensures o.Pass? ==> exchange == Handed(old(exchange), stages)
      ensures exported.Some? <==> old(exported).Some?
      ensures exported.Some? ==> exported.value.Keys == old(exported).value.Keys
      ensures o.Pass? && exported.Some? ==> exported.value == SampleRecorded(old(exported).value, components, stages, exports)
    {
      ghost var start, ex := Snap(), exchange;
      if exported.Some? {
        SampleRecordedNone(exported.value, components, exports);
      }
      stages := [];
      var i := 0;
      while i < |components|
        invariant 0 <= i <= |components| && |stages| == i
        invariant Swept(components, start, ex, t, ode, stages) == true
        invariant forall c :: c in Parts() ==> (c.attrs, c.time) == Current(components, start, stages)[c]
        invariant exchange == Handed(ex, stages)
        invariant exported.Some? <==> old(exported).Some?
        invariant exported.Some? ==> exported.value.Keys == old(exported).value.Keys
        invariant exported.Some? ==> exported.value == SampleRecorded(old(exported).value, components, stages, exports)
      {
        if exchange.None? {
          return Fail(AttributeError), stages;
        }
        ghost var st;
        o, st := Visit(i, t, ode, start, ex, stages);
        if o.Fail? {
          return;
        }
        if exported.Some? {
          SampleRecordedStep(old(exported).value, components, stages, st, exports);
        }
        stages := stages + [st];
        i := i + 1;
      }
      o := Pass;
    }

    /** One pass of run_until's inner loop, for the component after
        those in stages: it updates and its exchange replaces the model's,
        then every export column gains its get_value. */
    method Visit(i: nat, t: real, ode: Integrator, ghost start: Snapshot, ghost ex: Option<map<string, Series>>, ghost stages: seq<Stage>)
      returns (o: Outcome, ghost st: Stage)
      requires KeepsLength(ode) && i == |stages| < |components| && Swept(components, start, ex, t, ode, stages) == true
      requires forall c :: c in Parts() ==> (c.attrs, c.time) == Current(components, start, stages)[c]
      requires exchange == Handed(ex, stages) && exchange.Some?
      modifies components[i], this`exchange, this`exported
      ensures exported.Some? <==> old(exported).Some?
      ensures exported.Some? ==> exported.value.Keys == old(exported).value.Keys
      ensures o.Pass? ==> Swept(components, start, ex, t, ode, stages + [st]) == true && exchange == Handed(ex, stages + [st])
      ensures o.Pass? ==> forall c :: c in Parts() ==> (c.attrs, c.time) == Current(components, start, stages + [st])[c]
      ensures o.Pass? && exported.Some? ==> exported.value == Recorded(old(exported).value, components[i].outputs, st.attrs, exports)
    {
      var c := components[i];
      ghost var from, input := Before(components, start, stages, i), Incoming(ex, stages, i);
      assert (c.attrs, c.time) == from && exchange.value == input;
      var r := c.Update(t, exchange.value, ode);
      exchange := Some(r.value);
      st := Stage(c.attrs, c.time, r);
      if r.outcome.Fail? {
        return r.outcome, st;
      }
      o := RecordExports(c);
      assert Follows(components, start, ex, t, ode, stages, st);
      SweptStep(components, start, ex, t, ode, stages, st);
      CurrentStep(components, start, stages, st);
    }

    /** The export names' loop for one component: each export column gains
        the component's get_value. */
    method RecordExports(c: Component) returns (o: Outcome)
      modifies this`exported
      ensures exported.Some? <==> old(exported).Some?
      ensures exported.Some? ==> exported.value.Keys == old(exported).value.Keys
      ensures o.Pass? && exported.Some? ==> exported.value == Recorded(old(exported).value, c.outputs, c.attrs, exports)
    {
      var j := 0;
      if exported.Some? {
        RecordedNone(exported.value, c.outputs, c.attrs);
      }
      while j < |exports|
        invariant 0 <= j <= |exports|
        invariant exported.Some? <==> old(exported).Some?
        invariant exported.Some? ==> exported.value.Keys == old(exported).value.Keys
        invariant exported.Some? ==> exported.value == Recorded(old(exported).value, c.outputs, c.attrs, exports[..j])
      {
        var name := exports[j];
        var v := c.GetValue(name);
        if v.Raise? {
          return Fail(v.error);
        }
        if exported.None? {
          return Fail(AttributeError);
        }
        if name !in exported.value {
          return Fail(KeyError);
        }
        RecordedStep(old(exported).value, c.outputs, c.attrs, exports, j);
        exported := Some(exported.value[name := exported.value[name] + [v.value]]);
        j := j + 1;
      }
      assert exports[..|exports|] == exports;
      o := Pass;
    }
  }

  /** The samples in traces have run from what the components held (h0),
      the exchange x0 and the export record e0, and left the exchange ex
      and the record rec: every sample a complete sweep, and before the
      first sample the record as it was, after it the columns of every
      sample so far. */
  ghost predicate Trail(cs: seq<Component>, exports: seq<string>, h0: Snapshot, x0: Option<map<string, Series>>,
                        e0: Option<map<string, seq<Option<real>>>>, samples: seq<real>, ode: Integrator, traces: seq<seq<Stage>>,
                        ex: Option<map<string, Series>>, rec: Option<map<string, seq<Option<real>>>>)
    requires KeepsLength(ode)
  {
    Ran(cs, h0, x0, samples, ode, traces) && ex == ExAt(x0, traces)
    && (traces == [] ==> rec == e0)
    && (traces != [] ==> e0.Some? && "t" in e0.value && rec == Some(RunRecorded(e0.value, cs, traces, samples, exports)))
  }

  /** One more complete sample extends the trail. */
  lemma TrailStep(cs: seq<Component>, exports: seq<string>, h0: Snapshot, x0: Option<map<string, Series>>,
                  e0: Option<map<string, seq<Option<real>>>>, samples: seq<real>, ode: Integrator, traces: seq<seq<Stage>>,
                  ex: Option<map<string, Series>>, rec: Option<map<string, seq<Option<real>>>>, stages: seq<Stage>)
    requires KeepsLength(ode) && |traces| < |samples| && Trail(cs, exports, h0, x0, e0, samples, ode, traces, ex, rec)
    requires |stages| == |cs| && Swept(cs, HeldAt(cs, h0, traces), ex, samples[|traces|], ode, stages)
    requires rec.Some? && "t" in rec.value
    ensures Trail(cs, exports, h0, x0, e0, samples, ode, traces + [stages], Handed(ex, stages),
                  Some(Stamped(SampleRecorded(rec.value, cs, stages, exports), samples[|traces|])))
    ensures HeldAt(cs, h0, traces + [stages]) == Current(cs, HeldAt(cs, h0, traces), stages)
  {
    RanStep(cs, h0, x0, samples, ode, traces, stages);
    if traces == [] {
      RunRecordedNone(rec.value, cs, samples, exports);
    }
    RunRecordedStep(e0.value, cs, traces, stages, samples, exports);
  }

  /** Extending a sweep by the next component's update. */
  lemma SweptStep(cs: seq<Component>, start: Snapshot, ex: Option<map<string, Series>>, t: real, ode: Integrator, stages: seq<Stage>, st: Stage)
    requires KeepsLength(ode) && Swept(cs, start, ex, t, ode, stages) && |stages| < |cs| && ex.Some?
    requires Follows(cs, start, ex, t, ode, stages, st)
    ensures Swept(cs, start, ex, t, ode, stages + [st])
  {
    assert (stages + [st])[..|stages|] == stages;
  }

  /** The next update changes what its own component holds, and only that. */
  lemma CurrentStep(cs: seq<Component>, start: Snapshot, stages: seq<Stage>, st: Stage)
    requires |stages| < |cs| && cs[|stages|] in start
    ensures Current(cs, start, stages)[cs[|stages|]] == Before(cs, start, stages, |stages|)
    ensures forall c :: c in start ==>
      Current(cs, start, stages + [st])[c] == if c == cs[|stages|] then (st.attrs, st.time) else Current(cs, start, stages)[c]
  {
    var next := stages + [st];
    forall c | c in start
      ensures Current(cs, start, next)[c] == if c == cs[|stages|] then (st.attrs, st.time) else Current(cs, start, stages)[c]
    {
      if c != cs[|stages|] {
        assert Latest(cs, c, |next|) == Latest(cs, c, |stages|);
      }
    }
  }

  /** The next update's get_value entries follow those before it. */
  lemma SampleRowStep(cs: seq<Component>, stages: seq<Stage>, st: Stage, exports: seq<string>)
    requires |stages| < |cs|
    ensures forall k ::
      SampleRow(cs, stages + [st], exports, k) == SampleRow(cs, stages, exports, k) + Repeat(Reported(cs[|stages|].outputs, st.attrs, k), Count(exports, k))
  {
    assert (stages + [st])[..|stages|] == stages;
  }

  /** Before any update the sample's record is the record. */
  lemma SampleRecordedNone(record: map<string, seq<Option<real>>>, cs: seq<Component>, exports: seq<string>)
    ensures SampleRecorded(record, cs, [], exports) == record
  {
    forall k | k in record
      ensures SampleRecorded(record, cs, [], exports)[k] == record[k]
    {
      assert record[k] + [] == record[k];
    }
  }

  /** Before any sample the run's record is the record. */
  lemma RunRecordedNone(record: map<string, seq<Option<real>>>, cs: seq<Component>, samples: seq<real>, exports: seq<string>)
    ensures RunRecorded(record, cs, [], samples, exports) == record
  {
    forall k | k in record
      ensures RunRecorded(record, cs, [], samples, exports)[k] == record[k]
    {
      assert record[k] + [] == record[k];
    }
  }

  /** The next component's export names extend the sample's record. */
  lemma SampleRecordedStep(record: map<string, seq<Option<real>>>, cs: seq<Component>, stages: seq<Stage>, st: Stage, exports: seq<string>)
    requires |stages| < |cs|
    ensures SampleRecorded(record, cs, stages + [st], exports)
      == Recorded(SampleRecorded(record, cs, stages, exports), cs[|stages|].outputs, st.attrs, exports)
  {
    SampleRowStep(cs, stages, st, exports);
    forall k | k in record
      ensures SampleRecorded(record, cs, stages + [st], exports)[k]
        == Recorded(SampleRecorded(record, cs, stages, exports), cs[|stages|].outputs, st.attrs, exports)[k]
    {
      var row := SampleRow(cs, stages, exports, k);
      var more := Repeat(Reported(cs[|stages|].outputs, st.attrs, k), Count(exports, k));
      assert record[k] + (row + more) == record[k] + row + more;
    }
  }

  /** A complete sample, with its time stamp, extends the run's record. */
  lemma RunRecordedStep(record: map<string, seq<Option<real>>>, cs: seq<Component>, traces: seq<seq<Stage>>, stages: seq<Stage>, samples: seq<real>, exports: seq<string>)
    requires |traces| < |samples| && (forall s :: 0 <= s < |traces| ==> |traces[s]| <= |cs|) && |stages| <= |cs| && "t" in record
    ensures RunRecorded(record, cs, traces + [stages], samples, exports)
      == Stamped(SampleRecorded(RunRecorded(record, cs, traces, samples, exports), cs, stages, exports), samples[|traces|])
  {
    var after := RunRecorded(record, cs, traces + [stages], samples, exports);
    var before := RunRecorded(record, cs, traces, samples, exports);
    var swept := SampleRecorded(before, cs, stages, exports);
    var stamped := Stamped(swept, samples[|traces|]);
    forall k | k in record
      ensures after[k] == stamped[k]
    {
      ColumnsSnoc(record[k], cs, traces, stages, samples, exports, k);
      assert swept[k] == before[k] + SampleRow(cs, stages, exports, k);
    }
    assert after.Keys == stamped.Keys;
  }

  /** Column k after one more sample: its get_value row, then the time
      stamp when k is 't'. */
  lemma ColumnsSnoc(prior: seq<Option<real>>, cs: seq<Component>, traces: seq<seq<Stage>>, stages: seq<Stage>, samples: seq<real>, exports: seq<string>, k: string)
    requires |traces| < |samples| && (forall s :: 0 <= s < |traces| ==> |traces[s]| <= |cs|) && |stages| <= |cs|
    ensures prior + Columns(cs, traces + [stages], samples, exports, k)
      == prior + Columns(cs, traces, samples, exports, k) + SampleRow(cs, stages, exports, k)
        + (if k == "t" then [Some(samples[|traces|])] else [])
  {
    var next := traces + [stages];
    assert next[..|traces|] == traces;
  }

  /** Extending a run by one complete sample. */
  lemma RanStep(cs: seq<Component>, start: Snapshot, ex: Option<map<string, Series>>, samples: seq<real>, ode: Integrator, traces: seq<seq<Stage>>, stages: seq<Stage>)
    requires KeepsLength(ode) && Ran(cs, start, ex, samples, ode, traces) && |traces| < |samples|
    requires |stages| == |cs| && Swept(cs, HeldAt(cs, start, traces), ExAt(ex, traces), samples[|traces|], ode, stages)
    ensures Ran(cs, start, ex, samples, ode, traces + [stages])
    ensures HeldAt(cs, start, traces + [stages]) == Current(cs, HeldAt(cs, start, traces), stages)
    ensures ExAt(ex, traces + [stages]) == Handed(ExAt(ex, traces), stages)
  {
    assert (traces + [stages])[..|traces|] == traces;
  }

  /** The exchange initialize builds from the first n import names, or
      KeyError at the first name the timeseries lack. */
  function Import(timeseries: map<string, Series>, imports: seq<string>, n: nat): Partial<map<string, Series>>
    requires n <= |imports|
  {
    if n == 0 then Partial(map[], Pass)
    else
      var before := Import(timeseries, imports, n - 1);
      if before.outcome.Fail? then before
      else if imports[n - 1] !in timeseries then Partial(before.value, Fail(KeyError))
      else Partial(before.value[imports[n - 1] := timeseries[imports[n - 1]]], Pass)
  }

  /** Once an import has failed, later names change nothing. */
  lemma {:induction false} ImportStopped(timeseries: map<string, Series>, imports: seq<string>, m: nat, n: nat)
    requires m <= n <= |imports| && Import(timeseries, imports, m).outcome.Fail?
    ensures Import(timeseries, imports, n) == Import(timeseries, imports, m)
    decreases n - m
  {
    if m < n {
      ImportStopped(timeseries, imports, m, n - 1);
    }
  }

  /** initialize imports exactly when every import name is a timeseries,
      and then the exchange is those timeseries under their names. */
  lemma {:induction false} ImportIff(timeseries: map<string, Series>, imports: seq<string>, n: nat)
    requires n <= |imports|
    ensures Import(timeseries, imports, n).outcome.Pass? <==> forall j :: 0 <= j < n ==> imports[j] in timeseries
    ensures Import(timeseries, imports, n).outcome.Pass? ==>
      Import(timeseries, imports, n).value.Keys == (set j | 0 <= j < n :: imports[j]) &&
      forall k :: k in Import(timeseries, imports, n).value ==> Import(timeseries, imports, n).value[k] == timeseries[k]
  {
    if n > 0 {
      ImportIff(timeseries, imports, n - 1);
      assert (set j | 0 <= j < n :: imports[j]) == (set j | 0 <= j < n - 1 :: imports[j]) + {imports[n - 1]};
    }
  }
}
