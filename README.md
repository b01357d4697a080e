# cacao: collocation flowsheets, expression graphs and optimisation blocks

cacao is a small process-simulation library. This project models its core
and proves properties of the model.

- **Flowsheet.** A flowsheet strings hydraulic blocks together: flow
  sources, constant flows, valve releases and reservoirs. It advances them
  in time by orthogonal collocation. The constructor numbers every block's
  states and outputs in one global layout and collects the initial
  condition. A step sets every block's values, gathers their inputs and
  joins their residuals column-wise. The collocation residual cuts the
  solver's flat vector into states, derivatives and outputs. `update` and
  `update_until` advance the element counter and collect the trajectory.
- **Collocation tables.** These are the literal collocation matrices and
  Lobatto nodes for 2 to 6 nodes.
- **Expression graph.** Building operations wires up consumer lists in a
  singleton graph. A post-order traversal gives each evaluation order. An
  environment compiles one traversal per state and output. A run clears
  operation outputs, then evaluates only nodes whose output is empty.
- **Optimisation components.** Variables carry per-index bounds. Blocks
  collect variables and equality constraints. A composite flattens its
  children's variables into one vector and slices a vector back into them.
- **Time-stepping models.** A component maps model attributes to exchange
  names. It reads its inputs, integrates and clamps its states, and
  publishes its outputs. A concrete model runs its components over a grid
  of sample times and records the exported values.

Modules, one per file:

| module | file | what it holds |
|---|---|---|
| `Wrappers` | wrappers.dfy | `Result`, `Outcome`, `Option` and Python's error kinds; `Trunc` for `int()` |
| `Tables` | tables.dfy | 2-D numpy arrays as rows of reals: reshape, flatten, slicing, concatenation |
| `Values` | values.dfy | a block attribute as a float or a numpy column, with numpy broadcasting |
| `Collocation` | collocation.dfy | `colloc(n)` and `tc(n)` |
| `Hydraulics` | hydraulics.dfy | the four hydraulic block kinds: their layouts and their residual formulas |
| `Blocks` | blocks.dfy | the block base class and `change_inputs`, as a class whose fields the methods update |
| `FlowsheetLayout` | layout.dfy | the running-counter numbering of states and outputs |
| `Flowsheets` | flowsheet.dfy | the `Flowsheet` class |
| `ComputationGraph` | graph.dfy | graph nodes, the graph, the singleton wrapper, traversal and `Environment` |
| `Components` | components.dfy | `Variable`, `Constraint`, `Block` and `Composite` of the optimisation path |
| `Models` | models.dfy | `Component` and `ConcreteModel` |

Some numerics come from foreign code: `fsolve`, `odeint`, `np.sqrt`,
`np.interp` and the graph's arithmetic. They are parameters of the
operations that use them. The model states what those operations do with
whatever the foreign code returns.

## Model

| member | source | states |
|---|---|---|
| Wrappers.Trunc | cacao/flowsheet.py:253 | Python's `int()` of a float is the integer part truncated toward zero: within 1 of x, on the side of 0 |
| Tables.Reshape | cacao/flowsheet.py:185 | reshaping a flat vector to rows x cols succeeds exactly when the length is rows*cols, and gives that shape |
| Tables.FlattenReshape | cacao/flowsheet.py:185 | flattening a reshaped vector gives the vector back |
| Tables.ReshapeFlatten | cacao/flowsheet.py:202-203 | reshaping a flattened table gives the table back |
| Tables.FlattenAt | cacao/flowsheet.py:202-203 | entry (r, c) of a table is entry r*w + c of its flattening |
| Tables.Columns | cacao/flowsheet.py:186-188 | `z[:, lo:hi]` keeps every row and exactly columns lo..hi-1 |
| Tables.Column | cacao/generics.py:35-38 | `t[:, j]` is entry j of every row |
| Tables.Zeros | cacao/generics.py:28 | `np.zeros((n, m))` has n rows of m entries, all 0 |
| Tables.ConcatColumns | cacao/flowsheet.py:159 | `np.concatenate(resids, 1)` fails on an empty list or on tables with different row counts; otherwise it keeps the row count |
| Tables.SideBySideAt | cacao/flowsheet.py:159 | in the column-wise join, column c of table k sits at offset (widths of the tables before k) + c |
| Tables.Combine | cacao/flowsheet.py:200 | the collocation equation table: entry (r, j) is c*a + b - d at (r, j) |
| Values.Map | cacao/hydraulics.py:24-26 | an element-wise numpy function keeps a float a float and a column's length, applying f to each entry |
| Values.Zip | cacao/hydraulics.py:117 | a binary numpy operation succeeds exactly when the shapes broadcast, and then works entry by entry |
| Values.Fit | cacao/hydraulics.py:100 | a value broadcasts to n rows exactly when it is a float, a column of n or a column of 1 |
| Values.SetColumn | cacao/hydraulics.py:26 | `resid[:, j] = v` changes exactly column j, to v broadcast to the row count, and fails when j is out of range or v does not broadcast |
| Values.AddInto | cacao/hydraulics.py:100 | `acc += v` adds v, broadcast, to every entry |
| Collocation.Colloc | cacao/collocation.py:3-24 | `colloc(n)` is an (n-1)x(n-1) table for n in 2..6 and raises for every other n |
| Collocation.Tc | cacao/collocation.py:27-47 | `tc(n)` has n nodes from 0.0 to 1.0 for n in 2..6 and raises for every other n |
| Collocation.TcSymmetric | cacao/collocation.py:27-47 | the nodes are symmetric: t[i] + t[n-1-i] == 1 |
| Collocation.TcIncreasing | cacao/collocation.py:27-47 | for a true square root, the nodes are strictly increasing |
| Collocation.ExactRowSums | cacao/collocation.py:4-8 | for n = 2 and 3, each row of `colloc(n)` sums to the next node of `tc(n)` |
| Collocation.LastRowSums | cacao/collocation.py:4-23 | the last row sums to 1.0, except for n = 6, where the 3-digit rounding gives 1.001 |
| Hydraulics.InitialAttrs | cacao/hydraulics.py:7-17 | a new block has every declared state and output attribute; a reservoir starts at height 0 and volume IC |
| Hydraulics.Lookup | cacao/hydraulics.py:23 | `getattr` succeeds exactly for a present attribute and returns it |
| Hydraulics.SumFlows | cacao/hydraulics.py:96-106 | the flow sum exists exactly when every flow broadcasts to the node count, and it has one entry per node |
| Hydraulics.SumFlowsAt | cacao/hydraulics.py:96-106 | entry i of the flow sum is the sum of entry i of every flow, and 0 with no flows |
| Hydraulics.Residual | cacao/hydraulics.py:22-28 | a residual keeps the zero table's shape |
| Hydraulics.FlowConstantResidual | cacao/hydraulics.py:45-50 | the residual is Q - value at every node, so it is zero exactly when the flow equals the constant |
| Hydraulics.FlowReleaseResidual | cacao/hydraulics.py:22-28 | the residual is Q - Cv*sqrt(max(h, 0)) at every node |
| Hydraulics.FlowReleaseNoHead | cacao/hydraulics.py:24-26 | for a true square root, a node with no head (h <= 0) releases nothing: the residual is Q itself |
| Hydraulics.FlowSourceResidual | cacao/hydraulics.py:64-70 | the residual is Q - rule(t) at each node time |
| Hydraulics.ReservoirResidual | cacao/hydraulics.py:108-120 | column 0 is dV - (Qin - Qout) and column 1 is h - V/Area at every node |
| Hydraulics.ResidualCoversLayout | cacao/hydraulics.py:16-17 | with its attributes set column-wise, every block kind fills a table as wide as its states plus outputs without raising |
| Blocks.Block.constructor | cacao/generics.py:12-20 | a new block keeps its layout, has empty inlet and outlet lists, and has its kind's initial attributes |
| Blocks.Block.GetResid | cacao/generics.py:25-29 | an all-zero table of n_nodes rows and states+outputs columns, raising before set_values |
| Blocks.Block.SetValues | cacao/generics.py:31-38 | n_nodes becomes y's row count and t is stored; the attributes are the writes of every state, derivative and output column in order |
| Blocks.SetValuesStates | cacao/generics.py:34-36 | after set_values each state holds column i of x and its derivative column i of xdot |
| Blocks.SetValuesOutputs | cacao/generics.py:37-38 | after set_values each output holds column i of y |
| Blocks.SetValuesOthers | cacao/generics.py:31-38 | set_values leaves every other attribute as it was |
| Blocks.ApplyOutcome | cacao/generics.py:34-38 | the writes succeed exactly when every index is in range, and otherwise raise IndexError |
| Blocks.ApplyStops | cacao/generics.py:34-38 | once a write has raised, later writes change nothing |
| Blocks.Block.ChangeInputs | cacao/hydraulics.py:19-20 | the default is a no-op; a release takes the first inlet's height; a reservoir sums the flows of its inlets and outlets |
| Blocks.Block.UpstreamHeight | cacao/hydraulics.py:20 | a release reads the height attribute of its first inlet, which exists only for a reservoir inlet |
| Blocks.FlowTotal | cacao/hydraulics.py:96-106 | a flow total has one entry per node |
| Blocks.Accumulate | cacao/hydraulics.py:96-100 | the `+=` loop over the neighbours computes the flow total, stopping at the first neighbour that raises |
| Blocks.FlowTotalIsSum | cacao/hydraulics.py:96-106 | the total is the sum of the flows of neighbours with a flow rate, and zero when no neighbour has one |
| Blocks.Block.Resid | cacao/hydraulics.py:108-120 | a block's residual has n_nodes rows and states+outputs columns |
| FlowsheetLayout.Enumerate | cacao/flowsheet.py:27-34 | each name is paired with the counter value at its turn, counting up from base |
| FlowsheetLayout.LayoutOffsets | cacao/flowsheet.py:24-34 | the global offsets are exactly 0..n-1, in block order and then declaration order |
| FlowsheetLayout.LayoutSlice | cacao/flowsheet.py:35-38 | each block's own list is its contiguous slice of the global list |
| Flowsheets.InitialConditionSlice | cacao/flowsheet.py:40-47 | IC holds each block's initial state values at that block's offsets |
| Flowsheets.InitialConditionLength | cacao/flowsheet.py:48 | IC has num_states entries |
| Flowsheets.ToDictOk | cacao/flowsheet.py:84-92 | to_dict succeeds exactly when every offset is inside the vector |
| Flowsheets.ToDictAt | cacao/flowsheet.py:89-90 | with distinct names, each name maps to the entry at its offset |
| Flowsheets.ToDictKeys | cacao/flowsheet.py:89-90 | the dictionary's keys are exactly the layout's names |
| Flowsheets.LayoutDict | cacao/flowsheet.py:89-90 | for the flowsheet layout, name j maps to entry j |
| Flowsheets.Flowsheet.constructor | cacao/flowsheet.py:14-51 | each block gets its slice of the global layout; IC is the blocks' initial states in order; num_states and num_outputs are the layout sizes |
| Flowsheets.Wire | cacao/flowsheet.py:24-47 | the constructor's loops build exactly the global layouts and IC, and give every block its own slice |
| Flowsheets.AssignLayout | cacao/flowsheet.py:24-38 | the two running counters give exactly the global layouts, and every block its own slice |
| Flowsheets.NumberBlock | cacao/flowsheet.py:27-38 | one block's outputs and states are numbered from the two counters and stored on the block |
| Flowsheets.CollectInitialConditions | cacao/flowsheet.py:41-44 | the IC loop returns the blocks' initial state values in order |
| Flowsheets.Flowsheet.Step | cacao/flowsheet.py:135-161 | every block's values are set, every block's inputs gathered, and the result is the residuals joined column-wise in block order |
| Flowsheets.SetAll | cacao/flowsheet.py:149-150 | after the first loop every block holds its slice of xdot, x and y |
| Flowsheets.GatherAll | cacao/flowsheet.py:152-153 | after the second loop every block's inputs are gathered, and blocks of other kinds keep their inputs |
| Flowsheets.Resids | cacao/flowsheet.py:155-157 | the third loop's list holds each block's residual, in block order |
| Flowsheets.StepWidth | cacao/flowsheet.py:159 | the joined residual is as wide as num_states + num_outputs |
| Flowsheets.Split | cacao/flowsheet.py:185-188 | z cuts into x, xdot and y of n-1 rows exactly when it has (n-1)(2s+o) entries |
| Flowsheets.SplitJoin | cacao/flowsheet.py:185-188 | x, xdot and y side by side give z back |
| Flowsheets.ZSizeProduct | cacao/flowsheet.py:214 | the vector size is (n-1)(2s+o) |
| Flowsheets.PrepareElement | cacao/flowsheet.py:171-188 | the element raises before initialize, for n outside 2..6, and for a z of the wrong size; otherwise it holds colloc(n), the split of z and the node times |
| Flowsheets.CollocationEquations | cacao/flowsheet.py:200 | F2 has one row per interior node and one column per state |
| Flowsheets.CollocationEquationZero | cacao/flowsheet.py:200 | an entry of F2 is zero exactly when x = x0 + dt*(NC row . xdot column) |
| Flowsheets.Flowsheet.CollocationResiduals | cacao/flowsheet.py:163-207 | the result is the flattened block residuals followed by the flattened collocation equations, as long as z, and it raises as the element does |
| Flowsheets.Flowsheet.FirstEvaluation | cacao/flowsheet.py:215 | fsolve's first evaluation raises exactly when the element cannot be prepared |
| Flowsheets.Flowsheet.InitialOutputResiduals | cacao/flowsheet.py:113-117 | the initial-output residual evaluates the step at IC with zero derivatives and keeps the last num_outputs residual columns |
| Flowsheets.LastColumns | cacao/flowsheet.py:116 | `[:, -m:]` keeps the last m columns, or every column when m is 0 or too large |
| Flowsheets.SelectColumns | cacao/flowsheet.py:116 | column j of the selection is column cols[j] of the table |
| Flowsheets.Flowsheet.OutputEquationResiduals | cacao/flowsheet.py:113-117 | the corrected selection keeps exactly the output-equation columns, num_outputs of them |
| Flowsheets.OutputEquationColumnsExact | cacao/flowsheet.py:116 | the selected columns are exactly the columns that are not state equations, in increasing order |
| Flowsheets.OutputEquationCount | cacao/flowsheet.py:116 | there are exactly num_outputs output-equation columns |
| Flowsheets.LastColumnsMissOutputEquation | cacao/flowsheet.py:116 | in the two-reservoir cascade the last 5 columns are [2..6]: they drop the inflow equation and include a volume balance, where the output equations are [0, 2, 3, 5, 6] |
| Flowsheets.Flowsheet.FindInitialOutputs | cacao/flowsheet.py:100-121 | the initial states are [IC] and the outputs are the solver's answer, and evaluating the residual leaves the flowsheet's fields unchanged |
| Flowsheets.Flowsheet.Initialize | cacao/flowsheet.py:53-82 | n, dt, k = 0, the clock and the running states are set, and the result is the clock with the dictionaries of IC and the initial outputs |
| Flowsheets.Flowsheet.ToDicts | cacao/flowsheet.py:84-92 | the two dictionaries are keyed exactly by the state names and the output names |
| Flowsheets.Flowsheet.ResetStates | cacao/flowsheet.py:94-98 | the running states become IC |
| Flowsheets.Flowsheet.Connect | cacao/flowsheet.py:123-133 | b2 is appended to b1's outlets and b1 to b2's inlets |
| Flowsheets.LastNode | cacao/flowsheet.py:218-224 | the last node's states and outputs are row n-2 of x and y, and exist exactly when z has the element's size |
| Flowsheets.Flowsheet.Advance | cacao/flowsheet.py:215-224 | the running states become x[-1] of the solved element; on an error they are unchanged |
| Flowsheets.Flowsheet.NextElement | cacao/flowsheet.py:234-235 | k grows by one and the clock becomes dt*k, whatever the start time was |
| Flowsheets.Flowsheet.Update | cacao/flowsheet.py:209-237 | k grows by one, the clock is dt*k, the running states are x[-1] of z, and the dictionaries are those of x[-1] and y[-1] |
| Flowsheets.UpdateCount | cacao/flowsheet.py:253 | N = int((tf - time)/dt), and no updates run when N is negative |
| Flowsheets.ElementTimes | cacao/flowsheet.py:256 | one timestamp per update |
| Flowsheets.Trajectory | cacao/flowsheet.py:250-260 | a trajectory has one entry list per name of the first dictionary |
| Flowsheets.TrajectoryAt | cacao/flowsheet.py:250-260 | entry 0 of a name's trajectory is its first value and entry j+1 is its value after update j+1 |
| Flowsheets.Flowsheet.SolvedAt | cacao/flowsheet.py:254-255 | update i read its dictionaries off the last node of the i-th solver answer |
| Flowsheets.Flowsheet.UpdateUntil | cacao/flowsheet.py:239-262 | N updates run, k grows by N, and the history starts at the clock with the initial dictionaries, then gets one timestamp and one value per name from each update |
| Flowsheets.Flowsheet.RunUpdates | cacao/flowsheet.py:254-260 | the loop runs max(N, 0) updates and appends each update's time and values |
| Flowsheets.Flowsheet.HistoryEntries | cacao/flowsheet.py:249-260 | the trajectories have N+1 entries; entry 0 is the initial dictionary's value and entry i+1 is the value at the last node of the i-th solver answer |
| Flowsheets.Flowsheet.RecordStep | cacao/flowsheet.py:256-260 | appending one update's time and dictionaries keeps the history in step with the updates |
| ComputationGraph.Node.constructor | cacao/graph.py:12-20 | a new node has its name, kind and inputs, no consumers and its initial output |
| ComputationGraph.Graph.constructor | cacao/graph.py:217-223 | a new graph has empty operation, placeholder, parameter, state and output lists |
| ComputationGraph.Graph.NewOperation | cacao/graph.py:12-27 | the operation is appended once to each input's consumers per occurrence, in input order, and to the operations list |
| ComputationGraph.Graph.NewInputPort | cacao/graph.py:125-126 | an input port starts with no inputs and is registered as an operation |
| ComputationGraph.Graph.Connect | cacao/graph.py:128-132 | the port gains the node as its last input and the node gains the port as its last consumer |
| ComputationGraph.Graph.NewOutput | cacao/graph.py:176-180 | an output node consumes prev and is registered as an operation and as an output |
| ComputationGraph.Graph.NewPlaceholder | cacao/graph.py:143-151 | a placeholder is registered with no consumers and an empty output |
| ComputationGraph.Graph.NewParameter | cacao/graph.py:160-167 | a parameter keeps its value and is registered with an empty output |
| ComputationGraph.Graph.NewState | cacao/graph.py:190-196 | a state keeps its derivative node, starts with its initial output and is registered |
| ComputationGraph.GraphSingleton.Get | cacao/graph.py:203-210 | the first call builds an empty graph and every later call returns that same graph |
| ComputationGraph.Postorder | cacao/graph.py:283-300 | the traversal ends with the node it starts from, and raises RecursionError when the recursion limit runs out |
| ComputationGraph.PostorderInputsFirst | cacao/graph.py:293-297 | every operation in the traversal comes after the traversals of all its inputs |
| ComputationGraph.PostorderCounts | cacao/graph.py:293-297 | shared inputs are not deduplicated: each node occurs once per path to it, and the length is the number of paths from the root |
| ComputationGraph.SharedInputTwice | cacao/graph.py:293-297 | an operation on [x, x] traverses to [x, x, op] |
| ComputationGraph.Traversals | cacao/graph.py:231-242 | building the trees raises only RecursionError |
| ComputationGraph.TraversalsOfRoots | cacao/graph.py:231-242 | tree i is the traversal of root i, and building raises exactly when some root's traversal does |
| ComputationGraph.TraversalsClosed | cacao/graph.py:255-271 | every node of every tree has all its inputs earlier in its tree |
| ComputationGraph.Roots | cacao/graph.py:234-241 | the roots are every state's derivative, then every output, in registration order |
| ComputationGraph.Environment.Compile | cacao/graph.py:231-242 | the trees are one traversal per root, and compiling raises RecursionError exactly when a traversal does |
| ComputationGraph.Compute | cacao/graph.py:121-136 | compute takes exactly its arity of arguments, raising TypeError otherwise; input ports and outputs pass their argument on |
| ComputationGraph.CleanedAt | cacao/graph.py:277-281 | cleaning empties exactly the outputs of operations that occur in some tree |
| ComputationGraph.RunNodesKeeps | cacao/graph.py:258 | a node whose output is not empty is not recomputed |
| ComputationGraph.RunTreesKeeps | cacao/graph.py:255-258 | a node with an output, or in no tree, keeps it through the run |
| ComputationGraph.PlaceholderKeepsFirstValue | cacao/graph.py:251-261 | a placeholder fed once keeps its first value in later runs, whatever the feed says |
| ComputationGraph.RunTreesFails | cacao/graph.py:255-271 | once a tree has raised, the run raises |
| ComputationGraph.Environment.Run | cacao/graph.py:244-275 | a run raises before compile; otherwise the outputs are the trees evaluated over the cleaned outputs, raising exactly when that evaluation does |
| ComputationGraph.CleanOperations | cacao/graph.py:277-281 | the outputs become the cleaned outputs |
| ComputationGraph.RunAll | cacao/graph.py:255-271 | the loop over trees computes the trees' evaluation |
| ComputationGraph.Value | cacao/graph.py:259-271 | a placeholder is fed, a parameter gives its value, and an operation computes from its inputs' outputs |
| Components.PyIndex | cacao/components/generics.py:46 | a Python list index is valid from -len to len-1, and a negative one counts from the end |
| Components.NewBound | cacao/components/generics.py:45-50 | a number or a tuple makes a bound, and anything else raises ValueError |
| Components.PinnedAdmitsOnly | cacao/components/generics.py:45-46 | a number x pins the bound to (x, x), which admits only x |
| Components.SetBound | cacao/components/generics.py:38-50 | a bad item raises ValueError before a bad key raises IndexError; otherwise only the keyed entry changes |
| Components.SetBoundFromEnd | cacao/components/generics.py:46 | key -1 sets the last bound |
| Components.Variable.constructor | cacao/components/generics.py:25-33 | the value is 100 per index and every index has the given bound |
| Components.Variable.SetItem | cacao/components/generics.py:38-50 | the bounds become the updated list, and on an error they are unchanged |
| Components.Variable.SetValue | cacao/components/generics.py:53-54 | the value becomes x |
| Components.NewConstraintAsWritten | cacao/components/generics.py:80-83 | the constraint stores lb and ub crosswise |
| Components.ConstraintBoundsExchanged | cacao/components/generics.py:80-83 | for lb < ub the stored lb exceeds the stored ub, where the corrected constraint keeps them ordered |
| Components.NewConstraint | cacao/components/generics.py:80-83 | the corrected constraint keeps lb and ub as given |
| Components.Block.constructor | cacao/components/generics.py:93-97 | a new block has no variables, no constraints, no parent and no time |
| Components.Block.SetVariable | cacao/components/generics.py:102-105 | assigning a variable binds the name and appends the variable |
| Components.Block.SetConstraint | cacao/components/generics.py:106-107 | assigning a constraint appends one 'eq' entry on this block with its rule |
| Components.Block.AddCons | cacao/components/generics.py:117-123 | add_cons appends the 'eq' entry and ignores lb and ub |
| Components.Block.SetParent | cacao/components/generics.py:99-100 | the parent becomes p |
| Components.Block.UpdateTime | cacao/components/generics.py:111-112 | the time becomes the vector |
| Components.Block.ChangeInputs | cacao/components/generics.py:114-115 | a block delegates to its parent, and raises AttributeError without one |
| Components.RootOf | cacao/components/generics.py:156-158 | climbing the parents reaches a root, or raises RecursionError |
| Components.ScatterGather | cacao/components/generics.py:155-173 | slicing the initial guess back into the variables leaves every value unchanged |
| Components.GatherScatter | cacao/components/generics.py:155-173 | with distinct variables, the guess after slicing x in is x |
| Components.AliasedVariableOverwritten | cacao/components/generics.py:160-163 | a variable listed twice keeps only its last slice |
| Components.Composite.constructor | cacao/components/generics.py:131-136 | a new composite is an empty root at time [0] |
| Components.Composite.SetBlock | cacao/components/generics.py:138-148 | the block's current variables and constraints are appended, its parent and time set, and it is recorded |
| Components.Composite.UpdateTime | cacao/components/generics.py:150-153 | the composite and each of its blocks get the time vector |
| Components.Composite.ChangeInputs | cacao/components/generics.py:155-163 | a non-root delegates up to its root; the root gives each variable in turn the next slice of x, as long as its value |
| Components.Composite.ChangeInputsRoot | cacao/components/generics.py:160-163 | the root's loop gives the values the slices of x |
| Components.Composite.GetInitialGuess | cacao/components/generics.py:165-173 | the root returns its variables' values concatenated; a non-root raises UnboundLocalError |
| Components.Composite.GetBounds | cacao/components/generics.py:175-181 | the bounds of every variable concatenated in order |
| Components.Composite.Connect | cacao/components/generics.py:186-189 | b2 is appended to b1's outlets and b1 to b2's inlets; a missing list raises AttributeError after the appends before it |
| Components.EvalEq | cacao/components/generics.py:119-121 | an 'eq' function first slices x into the variables, then evaluates the rule on the block's new values |
| Models.Integrate | cacao/models.py:141 | the integrator returns one value per state |
| Models.FirstIndex | cacao/models.py:106-108 | `list.index` finds the first match, and there is none exactly when no entry matches |
| Models.ResetSetsKnown | cacao/models.py:101-110 | a key of the initial states that is an exchange name sets the matching model attribute |
| Models.ResetLeavesOthers | cacao/models.py:101-110 | attributes that are not states keep their values |
| Models.ResetIgnoresUnknown | cacao/models.py:104-106 | keys that are not exchange names change nothing |
| Models.ResetIsOverride | cacao/models.py:101-110 | reset_states overrides the attributes with the assigned states |
| Models.ResetIdempotent | cacao/models.py:101-110 | resetting twice is resetting once |
| Models.ReadInputsPassIff | cacao/models.py:127-133 | update_inputs succeeds exactly when every input can be read at t |
| Models.ReadInputsFirstError | cacao/models.py:129-130 | the first missing input decides the error |
| Models.ReadInputsSets | cacao/models.py:132-133 | each input attribute becomes the input read at t |
| Models.ReadInputsLeavesOthers | cacao/models.py:127-133 | other attributes keep their values |
| Models.StateVector | cacao/models.py:137-139 | the state vector exists exactly when every state attribute does, and lists them in order |
| Models.Clamp | cacao/models.py:149-154 | a clamped value lies within ordered bounds and is the value itself when already inside |
| Models.StateWithinBounds | cacao/models.py:143-156 | with the index advanced, every bounded state ends within its bounds, unchanged when already inside |
| Models.ReservoirStorageBounded | cacao/models.py:189-190 | the reservoir's storage ends within 0..1000000 |
| Models.UnboundedStatesAllTakeFirst | cacao/models.py:143-156 | as written, every unbounded state receives xnew[0] |
| Models.CarriedUnbounded | cacao/models.py:143-156 | as written, with no bounds the carried value stays xnew[0] |
| Models.SecondStateTakesFirstValue | cacao/models.py:143-156 | as written, the second of two states gets the first state's new value, where the corrected write-back gives it its own |
| Models.PublishMakesPoints | cacao/models.py:161-166 | each output name becomes a dictionary of times |
| Models.PublishKeeps | cacao/models.py:161-168 | other exchange names keep their entries |
| Models.PublishPassIff | cacao/models.py:161-168 | update_outputs succeeds exactly when every output attribute exists and every present entry is a dictionary |
| Models.PublishedRead | cacao/models.py:164-166 | reading an output name at t gives the attribute's value |
| Models.PublishKeepsOtherTimes | cacao/models.py:166 | the other times of an entry are untouched |
| Models.LinspaceShape | cacao/models.py:39 | the samples start at start, end at end and are evenly spaced |
| Models.SampleCountForward | cacao/models.py:38 | forward in time there is at least one sample and the samples are at least dt apart |
| Models.SampleCountBackward | cacao/models.py:38 | backward in time the count is at most 0, and negative exactly when end - start <= -2dt |
| Models.Lookup | cacao/models.py:112-115 | get_value is the first matching output's attribute, None when no output matches, AttributeError when the attribute is missing |
| Models.ColumnsLength | cacao/models.py:39-45 | an export column grows by one per component per sample, and 't' by one per sample |
| Models.ColumnsTime | cacao/models.py:45 | the 't' column is the sample times |
| Models.RecordedStep | cacao/models.py:42-44 | recording appends each export name's current value |
| Models.ImportIff | cacao/models.py:23-25 | the imports succeed exactly when every import name is a timeseries, and copy those timeseries |
| Models.Component.constructor | cacao/models.py:83-94 | a new component keeps its name maps and starts at time 0 |
| Models.Component.Initialize | cacao/models.py:97-99 | the clock becomes the start time and the states are reset |
| Models.Component.ResetStates | cacao/models.py:101-110 | the attributes become the reset attributes |
| Models.Component.GetValue | cacao/models.py:112-115 | get_value is the lookup over the outputs |
| Models.Component.UpdateInputs | cacao/models.py:127-133 | the attributes are the inputs read so far, with the first error |
| Models.Component.UpdateStates | cacao/models.py:136-158 | with every state present, the clock becomes t and the states are written back as written from the integrated vector; a missing state raises |
| Models.Component.UpdateOutputs | cacao/models.py:161-168 | the exchange is the published exchange |
| Models.Component.Update | cacao/models.py:117-125 | inputs, then states, then outputs, stopping at the first error |
| Models.ConcreteModel.constructor | cacao/models.py:10-15 | a new model keeps its arguments and starts at time 0 with dt 0.1 |
| Models.ConcreteModel.Initialize | cacao/models.py:18-32 | the clock and step are set, the imports copied, the export columns emptied, and every component initialized |
| Models.ConcreteModel.RunUntil | cacao/models.py:34-46 | int((end-start)/dt + 1) samples run; the components, the exchange and the exports are those of the samples run; the clock is the last sample |
| Models.ConcreteModel.Run | cacao/models.py:39-46 | each sample runs every component, records the exports and the time |
| Models.ConcreteModel.RunSample | cacao/models.py:40-46 | one sample updates each component in turn, records each export after each component and then the time |
| Models.ConcreteModel.RecordExports | cacao/models.py:42-44 | each export name's column gets the component's current value |
| Models.TrailStep | cacao/models.py:39-46 | one more sample extends the run by that sample's updates and records |

## Left out

- `fsolve` (cacao/flowsheet.py:119, :215) is not modelled as a solver. Its answer is a parameter: `y0` of `Initialize` and `UpdateUntil`, `z` of `Update`, `zs` of `UpdateUntil`.
- Flowsheets.Flowsheet.Update: nothing constrains `z` to make the collocation residual zero. The model states the residual fsolve sees (`CollocationResiduals`), not that the answer solves it.
- Flowsheets.Flowsheet.FindInitialOutputs: nothing constrains `y0` to make the initial-output residual zero. Only the first residual evaluation (`InitialOutputResiduals`) is modelled.
- Flowsheets.Flowsheet.UpdateUntil: the solver answers `zs` are unconstrained in the same way.
- Flowsheets.Flowsheet.constructor: requires distinct blocks and a float for every declared state. The source also accepts a block listed twice, which is renumbered by its second occurrence and whose states enter IC twice. It also accepts a state attribute that is an array, which enters IC as an array. A missing state attribute, which raises AttributeError, is not modelled either.
- Flowsheets.Flowsheet.Step: requires distinct blocks, for the same reason.
- Flowsheets.Wire: requires distinct blocks.
- Flowsheets.AssignLayout: requires distinct blocks.
- Flowsheets.SetAll: requires distinct blocks.
- Flowsheets.GatherAll: requires distinct blocks.
- `odeint` (cacao/models.py:141) is a parameter of type `Integrator`. The model only keeps that it returns one value per state.
- `np.sqrt` is a parameter `sqrt`. Properties that need a true square root assume `IsSqrt(sqrt)`.
- `np.interp` in `Timeseries` (cacao/models.py:78-79) is a parameter: each timeseries is its interpolant `f`.
- The graph's arithmetic (`add`, `divide`, `multiply`, `subtract`, `sqrt`, `matmul`, cacao/graph.py:38-119) is a parameter `arith`.
- Floating point is not modelled. Values are reals, the collocation coefficients are their exact decimals, and the Lobatto nodes are given through `sqrt`.
- Hydraulics.Residual: a reservoir with area 0 raises ZeroDivisionError. cacao/hydraulics.py:118 divides a numpy column and yields inf or nan without raising. Reals have no inf or nan.
- Hydraulics.Residual: a flow source applies its rule to each node time in turn. cacao/hydraulics.py:68 calls `rule(t)` once on the whole column, so the two agree only for rules that act entry-wise, as `interp1d` does.
- Components.EvalEq: a rule sees only the values of its own block's variables. The source passes the block object, and the package's rules also read neighbouring blocks' variables (cacao/components/hydraulic.py:35-39, 72). That access is not modelled.
- Models.Component.UpdateStates: the `print(Warning(...))` calls at cacao/models.py:151 and :154 are output only, and are left out.
- ComputationGraph.Environment.Run: node outputs are always sequences of reals. An output that is not a sequence, where `len()` raises TypeError (cacao/graph.py:258), is not modelled. Neither is the list-to-array conversion at cacao/graph.py:274-275.
- Models.ConcreteModel.RunUntil: when a component raises part-way through a run, only the error is stated. The partly advanced components and exports are not.
- Recursion depth: `Postorder`, `Traversals` and `RootOf` take the interpreter's recursion limit as a parameter `depth`, and raise RecursionError when it runs out.
- The singleton `Graph()` is an explicit `Graph` object passed to the node constructors. `GraphSingleton` models the decorator on its own.
- cacao/core/management.py (file and command-line I/O), the networkx-based components, `models.Reservoir`'s interpolated `level` and `pressure`, `ComponentBuilder`, `Constant`, and the examples and tests are not part of this model.
- Trivial getters (`get_bounds` of `Variable`, `get_constraints`, `get_outputs`, the `__call__` methods) are not modelled separately.

## Findings

| source | as written | input that shows it | evidently intended | confidence | as-written member | corrected member |
|---|---|---|---|---|---|---|
| cacao/flowsheet.py:116 | `find_initial_outputs` solves the last num_outputs residual columns | the two-reservoir cascade of cacao's gravity-drained-tank example (inflow, tank, release, tank, release): the last 5 of 7 columns are [2, 3, 4, 5, 6], which drop the inflow equation (0) and include the second tank's volume balance (4) | solve the output-equation columns [0, 2, 3, 5, 6], one per output, with the states fixed | not executed | Flowsheets.Flowsheet.InitialOutputResiduals, Flowsheets.LastColumnsMissOutputEquation | Flowsheets.Flowsheet.OutputEquationResiduals, Flowsheets.OutputEquationColumnsExact |
| cacao/components/generics.py:82-83 | `Constraint` stores `ub = lb` and `lb = ub` | `Constraint(rule, 0, 1)` has lb 1 and ub 0 | keep lb and ub as given | not executed | Components.NewConstraintAsWritten, Components.ConstraintBoundsExchanged | Components.NewConstraint |
| cacao/models.py:143-156 | `update_states` never increments `i`, so every state receives the carried, clamped `xnew[0]` | two unbounded states with new values [1.0, 2.0]: the second state becomes 1.0 | state j receives its own `xnew[j]`, clamped to its own bounds | not executed | Models.SettleAsWritten, Models.SecondStateTakesFirstValue | Models.Settle, Models.StateWithinBounds |
