# plum core: a Dafny model of reverse-mode automatic differentiation

plum is a small define-by-run autodiff engine written in Python on top of
numpy. This project models its core, `plum/core.py`. Calling an operation on
`Variable`s runs its `forward` and, while `Config.enable_backprop` is on,
records the computation as a graph. Each `Function` remembers its inputs and
outputs, and each output remembers its creator and its generation.
`Variable.backward()` then walks the graph from one Variable back to the
roots. It runs each Function's `backward` rule once, latest generation
first, and adds the resulting gradients into the inputs.

The model is split into modules along the source's structure:

- `Mode` (mode.dfy) models `Config`, `using_config`, `no_grad` and
  `test_mode`. The two flags are an explicit value that is passed in and
  returned. A `with` body is a function from flags to outcome and flags.
- `Arena` (arena.dfy) models `Variable` and `Function` as records in one
  arena, `Graph(vars, funcs)`. A creator, an input or an output is an index
  into the arena. This replaces Python object references and weak
  references. The module also models `Variable.__init__`, `set_creator`,
  `unchain` and `cleargrad`. `Consistent` states the generation stamps that
  graph construction maintains.
- `Ops` (ops.dfy) models `forward` and `backward` of Add, Sub, Neg, Mul,
  Div, Pow and Reshape. It also holds the partial derivatives these rules
  are meant to implement.
- `Call` (call.dfy) models `as_array`, `as_variable` and
  `Function.__call__`. It also models the module-level wrappers `add`,
  `sub`, `rsub`, `mul`, `div`, `rdiv`, `neg` and `pow`, plus `reshape` and
  `Variable.reshape`.
- `Backprop` (backward.dfy) models `Variable.backward`:
  - `add_func`, an insertion that keeps the pending list sorted by
    generation;
  - one pass of the `while funcs:` loop (`Step`);
  - the whole loop (`Drain`, a terminating recursive function, and `Loop`,
    a `while` method proved equal to it);
  - the entry point (`BackwardSpec` and the method `Backward`).
- `Examples` (examples.dfy) gives concrete graphs built and differentiated
  through the model: `y = x + x` and `y = x * x * x`, and a call under
  `no_grad()`.
- `Wrappers` and `Errors` (wrappers.dfy) hold the `Option`/`Result` types
  and the Python exceptions the core raises.

Conventions of the model:

- An array is a `Tensor(value, shape)`: a shape and the one real number
  every element holds.
- A gradient is `Option<real>`. `None` is Python's `None`.
- Python exceptions become a `Failure` carrying `TypeError`,
  `AttributeError`, `ValueError` or `IndexError`. `NonFinite` stands for an
  inf/nan result, which the model refuses to produce.
- A "graph built by calls" satisfies `Ops.Shaped`. Each Function has as
  many inputs as its operation takes and exactly one output, and no two
  Functions share an output. `Call.ApplyKeepsShaped` shows that every call
  keeps this shape.

`backward()` on a Variable that has no creator fails. It seeds the
Variable's gradient first. Then `add_func(self.creator)` puts `None` on the
list, and sorting the list reads `None.generation`, which raises
`AttributeError`. Python computes the sort key even for a one-element list.
`BackwardSpec` returns the seeded graph together with `AttributeError` (see
`NoGradThenBackward`).

## Model

| member | source | states |
|---|---|---|
| Mode.Lookup | plum/core.py:13-20 | of the names a caller uses as flags, `getattr(Config, name)` finds a flag exactly for `enable_backprop` and `train`; every other name is treated as missing (see Left out) |
| Mode.Set | plum/core.py:21 | `setattr` makes the chosen flag read the new value and leaves the other flag as it was |
| Mode.UsingConfig | plum/core.py:18-25 | an unknown name raises AttributeError before the body runs and changes nothing; otherwise the body sees the flag set to `value`, its outcome (normal or raised) is the scope's, and on exit the flag has its entry value again while the body's change to the other flag stands |
| Mode.NoGrad | plum/core.py:28-29 | inside `no_grad()` graph construction is off; afterwards `enable_backprop` is back to its old value and `train` is whatever the body left |
| Mode.TestMode | plum/core.py:31-32 | inside `test_mode()` `train` is off; afterwards `train` is back to its old value and `enable_backprop` is whatever the body left |
| Mode.ScopeRestoresConfig | plum/core.py:18-25 | a scope around a body that leaves the flags alone hands back exactly the flags it was entered with, for any name and value, so nested scopes restore everything |
| Arena.NewVariable | plum/core.py:45-53 | `Variable(data, name)` raises TypeError exactly for a Python number or a non-array object; otherwise it keeps the data and name and starts with no gradient, no creator and generation 0 |
| Arena.MaxGeneration | plum/core.py:150 | the result is at least every input's generation and equals one of them |
| Arena.SetCreator | plum/core.py:88-90 | the Variable names the Function as its creator and sits one generation above it; data, name and gradient are untouched |
| Arena.Unchain | plum/core.py:92-93 | only the creator link is dropped |
| Arena.Cleargrad | plum/core.py:95-96 | only the gradient is dropped |
| Arena.UnchainAt | plum/core.py:92-93 | unchaining a Variable of a graph keeps the graph well formed and its generation stamps consistent, and changes no other Variable or Function |
| Arena.CleargradAt | plum/core.py:95-96 | clearing a Variable's gradient in a graph changes that gradient only |
| Call.AsArray | plum/core.py:134-137 | a number becomes a 0-dimensional array holding it and nothing else changes; afterwards `Variable(...)` accepts the object exactly when it is not some other kind of object |
| Call.AsArrayIdempotent | plum/core.py:134-137 | applying `as_array` twice is the same as applying it once |
| Call.AsVariable | plum/core.py:129-132 | succeeds exactly for a Variable, `None` or an array; a Variable comes back as itself with the graph unchanged; anything else accepted becomes one new root Variable holding its data; a rejected object raises TypeError |
| Call.AsVariables | plum/core.py:142 | the conversion of all inputs succeeds exactly when every one is accepted, and then gives one Variable per input holding its data, keeping Variable arguments as they are and adding only fresh roots |
| Call.Apply | plum/core.py:139-155 | a rejected input raises TypeError before `forward`; a `forward` failure is raised as it is; on success the result is a new Variable with no gradient holding `forward`'s value; with backprop on one new Function is recorded as its creator with the inputs in order, and a consistent graph stays consistent; with backprop off no Function is recorded and the result is a root of generation 0 |
| Call.ApplyKeepsShaped | plum/core.py:147-154 | a call records a Function with as many inputs as its operation takes and one new output Variable, so a graph built by calls keeps every Function at that shape with no output shared |
| Call.ApplyComputes | plum/core.py:143-147 | a successful two-operand call holds the operation's value on the two operands' numbers, in argument order |
| Call.Binary | plum/core.py:174-193 | `add`/`mul` (and `sub`/`div`, lines 212-234): a number or foreign object on the left raises TypeError, a foreign object on the right raises TypeError, and success computes the operation of left and right operand |
| Call.NumberOnRightIsArray | plum/core.py:175 | a number on the right behaves exactly like the 0-dimensional array holding it |
| Call.Reflected | plum/core.py:216-218 | `rsub`/`rdiv` (also lines 236-238) compute the operation with the operands swapped, the number now on the left of the operation |
| Call.Negate | plum/core.py:202-203 | `neg(x)` rejects a non-Variable non-array with TypeError and on success holds minus the operand |
| Call.Raise | plum/core.py:253-254 | `pow(x, c)` rejects a non-Variable non-array with TypeError and on success holds the operand to the power `c`, never a negative power of zero |
| Call.ShapeOf | plum/core.py:98-100 | `x.shape` exists exactly when there is data, and is that data's shape; otherwise AttributeError |
| Call.ReshapeTo | plum/core.py:295-298 | no shape raises AttributeError; the call succeeds exactly when the element count is kept, failing with ValueError otherwise; a tuple equal to the current shape returns the same Variable and records nothing; any other shape, a list included, records a Reshape Function under backprop; success holds the same number in the requested shape |
| Call.ReshapeApplied | plum/core.py:283-290 | a Reshape Function succeeds exactly when the element count is kept, raises ValueError otherwise, and holds the argument's number in the new shape |
| Call.ReshapeIdempotent | plum/core.py:295-298 | reshaping a reshape result to the same shape again returns that result and leaves the graph unchanged |
| Call.ReshapeMethod | plum/core.py:123-126 | one tuple or list argument is the shape; dimensions given separately form a tuple; anything else fails |
| Call.SpreadShapeIsTuple | plum/core.py:123-126 | `x.reshape(2, 3)` and `x.reshape((2, 3))` give the same outcome |
| Ops.Forward | plum/core.py:164-251 | a wrong operand count raises TypeError; a missing operand raises AttributeError for Add and Reshape and TypeError for the others; on success the one result holds the operation's value, with the common shape for same-shaped operands and the target shape for Reshape; a Reshape succeeds exactly when the element count is kept |
| Ops.LocalGradient | plum/core.py:171-251 | any number of output gradients but one raises TypeError; each rule returns one gradient per input and succeeds whenever the gradient and data are present and the derivative is finite; a missing gradient passes through Add as two missing gradients and raises in every other rule, while a present one yields a present gradient for every input |
| Ops.LocalGradientIsChainRule | plum/core.py:171-251 | with everything present, input `i` receives the output gradient times the partial derivative of the operation in operand `i` |
| Ops.MulGradient | plum/core.py:183-189 | Mul's rule gives each operand the gradient times the other operand, its partial derivative |
| Ops.PartialIsDerivative | plum/core.py:164-251 | the partial derivative the rules use is the derivative of `forward`: moving operand `i` by `h` changes the value by `h` times it plus a term of order `h * h` |
| Backprop.InsertPos | plum/core.py:63-65 | in a sorted list, everything before the insertion point has generation at most the new Function's and everything after it has a larger generation |
| Backprop.Insert | plum/core.py:63-65 | the list gains exactly the new Function |
| Backprop.InsertIsStableSort | plum/core.py:63-65 | inserting from the right gives what `append` then the stable `sort` by generation gives |
| Backprop.AddFunc | plum/core.py:61-65 | a Function already seen is ignored; a new one is marked seen and inserted in generation order |
| Backprop.Accumulate | plum/core.py:76-79 | a first gradient is stored as it is; a later one is added; adding a missing gradient to a present one raises TypeError |
| Backprop.SumOfPresent | plum/core.py:75-79 | when every contribution is present, the gradient grows by their total |
| Backprop.Propagate | plum/core.py:75-82 | the `zip` loop changes gradients only, keeps the walk's bookkeeping, only adds to the seen set and fails only with TypeError |
| Backprop.PropagateSums | plum/core.py:75-79 | the loop completes exactly when every Variable's own run of additions succeeds, and then each gradient is that run's result, so an input passed twice receives both contributions |
| Backprop.PropagateSources | plum/core.py:81-82 | everything pending afterwards was pending before or created one of the inputs |
| Backprop.PropagateReaches | plum/core.py:81-82 | after a completed loop the creator of every input reached is seen |
| Backprop.PropagateFrame | plum/core.py:75-82 | a Variable that is not an input keeps its gradient |
| Backprop.ClearGrads | plum/core.py:83-85 | exactly the outputs lose their gradients |
| Backprop.Pop | plum/core.py:69 | the last pending Function leaves the list and is recorded as run |
| Backprop.Step | plum/core.py:68-85 | one pass changes gradients only, runs the last pending Function, and leaves pending only earlier pending Functions or creators of its inputs |
| Backprop.StepEffect | plum/core.py:69-85 | a pass fails exactly when the rule or an addition fails; otherwise each gradient gains its contributions, outputs are then cleared unless `retain_grad`, and the creators of the inputs covered are queued |
| Backprop.StepProgresses | plum/core.py:68-82 | a pass sees a new Function or shortens the pending list, so the loop ends |
| Backprop.Drain | plum/core.py:68-85 | the loop ends; when no pass fails nothing is left pending; gradients alone change and stay consistent; the trace only grows |
| Backprop.Loop | plum/core.py:68-85 | the `while` loop ends in the same state as the recursive definition |
| Backprop.DrainKeeps | plum/core.py:68-85 | the loop keeps the latest-first order of the Functions run, keeps the creators of their inputs queued and, without `retain_grad`, keeps their outputs cleared |
| Backprop.Seed | plum/core.py:56-57 | a missing gradient of the starting Variable becomes one, a present one is kept, and every other Variable is unchanged |
| Backprop.BackwardSpec | plum/core.py:55-85 | `backward()` changes gradients only and runs each Function at most once; from a Variable without a creator it raises AttributeError and runs nothing |
| Backprop.Backward | plum/core.py:55-85 | the method version ends with exactly the specified graph, trace and error |
| Backprop.Start | plum/core.py:56-67 | the walk begins with the seeded graph, with only the creator pending and seen and nothing run yet |
| Backprop.BackwardStart | plum/core.py:67-69 | a Variable's creator is the first Function to run |
| Backprop.BackwardOrder | plum/core.py:59-69 | in a consistent graph Functions run latest generation first, so each runs before the creators of its inputs |
| Backprop.OrderIsTopological | plum/core.py:65-69 | running Functions latest generation first runs each before the creators of its inputs |
| Backprop.BackwardComplete | plum/core.py:75-82 | when the walk completes, the creator of every input that received a gradient ran as well |
| Backprop.BackwardClears | plum/core.py:83-85 | without `retain_grad` a completed walk leaves every output of a Function that ran, the starting Variable included, without a gradient |
| Backprop.StepFrame | plum/core.py:75-85 | a pass whose Function does not feed or clear a Variable leaves its gradient unchanged |
| Backprop.DrainFrame | plum/core.py:68-85 | a completed loop in which no Function feeds or clears a Variable leaves its gradient unchanged |
| Backprop.RetainKeepsSeed | plum/core.py:55-85 | with `retain_grad`, in a consistent graph, the starting Variable ends the walk with its seeded gradient |
| Backprop.SumKeepsPresent | plum/core.py:76-79 | once a Variable has a gradient, later additions either raise or leave a number: it never goes back to `None` |
| Backprop.StepKeepsPresent | plum/core.py:75-85 | a completed pass keeps every present gradient it does not clear as an output |
| Backprop.DrainKeepsPresent | plum/core.py:68-85 | from any state of the loop, a gradient present then (seeded, received or set before) is present when the loop completes, unless a Function that ran clears it as its output |
| Backprop.BackwardKeepsPresent | plum/core.py:55-85 | after a completed `backward()`, a Variable that had a gradient once seeded still has one unless it is an output of a Function that ran and `retain_grad` is off |
| Backprop.RetainKeepsGradients | plum/core.py:83-85 | with `retain_grad`, no gradient present at the start (once seeded) is `None` after a completed `backward()` |
| Backprop.ContributionsPresent | plum/core.py:75 | when a rule returns only present gradients, everything `zip(f.inputs, gxs)` hands a Variable is present, and each input of the Function is handed something |
| Backprop.SumPresent | plum/core.py:76-79 | adding present gradients into a Variable that had one or receives at least one succeeds and leaves a number |
| Backprop.StepFeeds | plum/core.py:69-85 | in a completed pass whose Function's output holds a gradient, each input of that Function ends holding one, and with `retain_grad` so does the output |
| Backprop.PendingReady | plum/core.py:61-82 | after a completed pass, the output of each pending Function holds a gradient: one queued earlier keeps its gradient, and one newly queued created an input that has just received one |
| Backprop.StepKeepsReady | plum/core.py:68-85 | a completed pass keeps the outputs of all pending Functions holding gradients |
| Backprop.DrainFeeds | plum/core.py:68-85 | from any state whose pending Functions' outputs hold gradients, a completed loop leaves a gradient on every input of a Function it runs, and with `retain_grad` on every output, unless a Function that ran clears it |
| Backprop.BackwardFeeds | plum/core.py:55-85 | after a completed `backward()` on a graph built by calls, every input of a Function that ran holds a gradient, and with `retain_grad` every output does too, unless a Function that ran clears it as its output |
| Backprop.RootInputsReceive | plum/core.py:75-85 | after a completed `backward()` on a graph built by calls, a root input of any Function that ran holds a gradient (it is not `None`) |
| Backprop.RetainFeedsAll | plum/core.py:83-85 | with `retain_grad`, after a completed `backward()` on a graph built by calls, every input and every output of a Function that ran holds a gradient |
| Backprop.StepKeepsReached | plum/core.py:67-82 | a pass keeps every Function that ran or is pending reachable from the first creator: the Function it runs was pending, and the ones it queues created that Function's inputs |
| Backprop.DrainKeepsReached | plum/core.py:67-82 | the whole loop keeps every Function reachable from the first creator |
| Backprop.BackwardReaches | plum/core.py:67-82 | `backward()` runs the starting Variable's creator, then only Functions that created an input of a Function that ran before them |
| Backprop.Unreached | plum/core.py:81-82 | a Function that no Variable names as its creator never runs |
| Backprop.UnchainPrunes | plum/core.py:92-93 | after `a.unchain()` in a graph built by calls, a backward pass from any Variable never runs the Function that had created `a` |
| Examples.SameVariableTwice | plum/core.py:142 | passing the same Variable twice yields it twice and adds nothing to the graph |
| Examples.AddBuildsGraph | plum/core.py:139-155 | `add(x, x)` with `x = 3` records one Add Function with input `x` twice and an output of generation 1 holding 6 |
| Examples.NoGradLeavesRoot | plum/core.py:28-29 | the same call under `no_grad()` records no Function and yields a root, and graph construction is on again after the scope |
| Examples.NoGradThenBackward | plum/core.py:55-67 | `backward()` from that root raises AttributeError after seeding its gradient |
| Examples.AddTwiceGradient | plum/core.py:171-172 | `backward()` from `y = x + x` gives `x.grad == 2` and clears `y.grad` |
| Examples.SquareBuildsGraph | plum/core.py:191-193 | `mul(x, x)` at `x = 2` records one Mul with input `x` twice and an output of generation 1 holding 4 |
| Examples.CubeBuildsGraph | plum/core.py:191-193 | `mul(x * x, x)` then records a second Mul of generation 1 with inputs `x * x` and `x` and an output of generation 2 holding 8 |
| Examples.CubeIsBuilt | plum/core.py:139-155 | `x * x * x` built through two calls is exactly the graph the cube example walks |
| Examples.CubeGradient | plum/core.py:183-189 | `backward()` from `y = x * x * x` at `x = 2` (the graph `CubeIsBuilt` shows is built) runs the outer product first and gives `x.grad == 12`, the derivative 3x², clearing the intermediate gradients |

## Left out

- Arrays are uniform: each array is one real number and a shape. Results
  that differ element by element are not modelled. Broadcasting is modelled
  only as a check of which shapes are compatible and what shape results.
- numpy's inf and nan are not modelled. Division by zero and a negative
  power of zero fail with `NonFinite`, where numpy would produce inf or nan
  with a warning.
- The gradient seed `np.ones_like(data)` is modelled as the number 1.
- Gradients are plain numbers. A Reshape rule's result is a Variable in the
  source; the model keeps only its value.
- Python numbers are modelled as reals. numpy's integer dtypes are not
  modelled, nor its integer-power rules. The `cupy` array type is not
  modelled.
- Mode.Lookup: only the two flags are modelled as names `using_config`
  accepts. In the source, `getattr`/`setattr` also work on the class's other
  attributes, such as `__doc__` or `__module__`. With such a name the source
  runs the body and restores the attribute, while the model raises
  AttributeError. Those attributes are not configuration.
- Call.Raise: only integer exponents are modelled, so the exponent of `Pow`
  is an `int`. The source accepts any number, as in `pow(x, 0.5)`, but a
  real power of a real has no exact value in Dafny's reals.
- Call.AsArray: strings and bytes are treated as foreign objects. `np.isscalar`
  counts them as scalars, so in the source they become arrays, and numpy
  then rejects the arithmetic (with a `TypeError` subclass) in `forward`.
  With such an argument the model raises TypeError during `as_variable`
  instead, which differs from the source only when another argument fails
  earlier in `forward`.
- Call.Apply: each call is modelled on a new Function instance, as every
  wrapper creates one. Calling the same instance again re-stamps its
  `generation`, `inputs` and `outputs` in place (core.py:150-154), which
  re-wires the Functions recorded earlier; that is not modelled.
- Backprop.RootInputsReceive: states that a root input ends with a
  gradient, not its value. Each pass's effect on the value is stated by
  `Backprop.StepEffect` and `Backprop.PropagateSums`, and the concrete
  examples compute final values, but no lemma sums the contributions over a
  whole walk of an arbitrary graph.
- Weak references to outputs and garbage collection are not modelled. The
  arena keeps every Variable alive.
- `Sin` and `Cos` are outside this model, as are `setup_variable` and the
  `__main__` block.
- `print` in `Function.__call__` and `Variable.__repr__` are output only and
  are left out.
- The properties `shape` (modelled as `Call.ShapeOf`), `ndim`, `size` and
  `dtype`, and `__len__`, are not modelled beyond `shape`.
- Functions with more than one output are not modelled. Every core
  operation returns exactly one.
- Negative dimensions (`-1`) in `reshape` are not modelled.
- Ops.PartialIsDerivative: covers Pow only for exponents of zero or more.
  For negative exponents the remainder term is not stated.
- Backprop.RetainKeepsSeed: assumes a consistently stamped graph, which is
  what `Function.__call__` builds (`Call.Apply` preserves it). A hand-made
  graph that feeds the starting Variable back into a Function is not
  covered.
