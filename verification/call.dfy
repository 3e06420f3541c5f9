/** `Function.__call__`, the graph wiring every operation goes through, with
    `as_variable`, `as_array` and the module-level wrappers `add`, `sub`,
    `rsub`, `mul`, `div`, `rdiv`, `neg`, `pow` and `reshape`. A call takes
    the mode flags and the arena explicitly and returns the grown arena with
    the index of the result Variable. */
module Call {
  import opened Wrappers
  import opened Errors
  import opened Mode
  import opened Arena
  import opened Ops

  /** An argument as a caller passes it: a Variable already in the arena, or
      a plain Python object. */
  datatype Arg = Var(id: nat) | Raw(obj: Obj)

  /** A Variable argument names a slot of the arena. */
  predicate ArgIn(g: Graph, a: Arg) {
    a.Var? ==> a.id < |g.vars|
  }

  predicate ArgsIn(g: Graph, args: seq<Arg>) {
    forall i :: 0 <= i < |args| ==> ArgIn(g, args[i])
  }

  /** `as_variable` accepts a Variable, `None` or an array. */
  predicate Accepted(a: Arg) {
    a.Var? || a.obj.NoneObj? || a.obj.ArrayObj?
  }

  /** The data an accepted argument contributes. */
  function ArgData(g: Graph, a: Arg): Option<Tensor>
    requires Accepted(a) && (a.Var? ==> a.id < |g.vars|)
  {
    match a
    case Var(id) => g.vars[id].data
    case Raw(o) => if o.ArrayObj? then Some(o.t) else None
  }

  function ArgsData(g: Graph, args: seq<Arg>): (xs: seq<Option<Tensor>>)
    requires ArgsIn(g, args) && forall i :: 0 <= i < |args| ==> Accepted(args[i])
    ensures |xs| == |args|
    ensures forall i :: 0 <= i < |args| ==> xs[i] == ArgData(g, args[i])
  {
    if |args| == 0 then [] else ArgsData(g, args[..|args| - 1]) + [ArgData(g, args[|args| - 1])]
  }

  /** `as_array(x)`: a Python number becomes a 0-dimensional array; anything
      else is handed on as it is. Afterwards `Variable(...)` accepts the
      object exactly when it is not some other kind of object, and a second
      application changes nothing. */
  function AsArray(o: Obj): (r: Obj)
    ensures NewVariable(r, None).Success? <==> !o.OtherObj?
    ensures !r.ScalarObj?
    ensures o.ScalarObj? ==> r.ArrayObj? && r.t.value == o.x && r.t.shape == []
    ensures !o.ScalarObj? ==> r == o
  {
    match o
    case ScalarObj(x) => ArrayObj(Tensor(x, []))
    case _ => o
  }

  /** `as_array` is idempotent. */
  lemma AsArrayIdempotent(o: Obj)
    ensures AsArray(AsArray(o)) == AsArray(o)
  {
  }

  /** `as_array` applied to an argument: Variables are left alone. */
  function AsArrayArg(a: Arg): Arg {
    match a
    case Var(_) => a
    case Raw(o) => Raw(AsArray(o))
  }

  /** `as_variable(obj)`: a Variable is returned as it is; `None` or an array
      is wrapped in a new root Variable appended to the arena; a number or any
      other object makes `Variable(...)` raise TypeError. */
  function AsVariable(g: Graph, a: Arg): (r: Result<(Graph, nat), Error>)
    requires a.Var? ==> a.id < |g.vars|
    ensures r.Success? <==> Accepted(a)
    ensures r.Failure? ==> r.error == TypeError
    ensures a.Var? ==> r == Success((g, a.id))
    ensures r.Success? ==>
              && Extends(g, r.value.0) && r.value.0.funcs == g.funcs
              && FreshRoots(r.value.0, |g.vars|)
              && r.value.1 < |r.value.0.vars|
              && r.value.0.vars[r.value.1].data == ArgData(g, a)
    ensures r.Success? && a.Raw? ==>
              && r.value.1 == |g.vars|
              && r.value.0.vars == g.vars + [Root(ArgData(g, a), None)]
  {
    match a
    case Var(id) => Success((g, id))
    case Raw(o) =>
      match NewVariable(o, None)
      case Success(v) => Success((g.(vars := g.vars + [v]), |g.vars|))
      case Failure(e) => Failure(e)
  }

  /** `[as_variable(x) for x in inputs]`, left to right. */
  function AsVariables(g: Graph, args: seq<Arg>): (r: Result<(Graph, seq<nat>), Error>)
    requires ArgsIn(g, args)
    ensures r.Success? <==> forall i :: 0 <= i < |args| ==> Accepted(args[i])
    ensures r.Failure? ==> r.error == TypeError
    ensures r.Success? ==> Converted(g, args, r.value.0, r.value.1)
  {
    if |args| == 0 then Success((g, []))
    else
      var init := args[..|args| - 1];
      var last := args[|args| - 1];
      assert forall i :: 0 <= i < |init| ==> init[i] == args[i];
      match AsVariables(g, init)
      case Failure(e) => Failure(e)
      case Success((h, ids)) =>
        match AsVariable(h, last)
        case Failure(e) => Failure(e)
        case Success((h', id)) =>
          ConvertedSnoc(g, args, h, ids, h', id);
          Success((h', ids + [id]))
  }

  /** What `as_variable` made of accepted `args`: an arena that only gained
      fresh roots, one Variable per argument holding its data, an argument
      Variable kept as it is and anything else wrapped in a new Variable. */
  predicate Converted(g: Graph, args: seq<Arg>, h: Graph, ids: seq<nat>)
    requires ArgsIn(g, args) && forall i :: 0 <= i < |args| ==> Accepted(args[i])
  {
    && Extends(g, h) && h.funcs == g.funcs
    && FreshRoots(h, |g.vars|)
    && |ids| == |args|
    && Refs(ids, |h.vars|)
    && (forall i :: 0 <= i < |args| ==> h.vars[ids[i]].data == ArgData(g, args[i]))
    && (forall i :: 0 <= i < |args| && args[i].Var? ==> ids[i] == args[i].id)
    && (forall i :: 0 <= i < |args| && args[i].Raw? ==> ids[i] >= |g.vars|)
  }

  /** Converting one more argument extends the conversion of the ones
      before it. */
  lemma ConvertedSnoc(g: Graph, args: seq<Arg>, h: Graph, ids: seq<nat>, h': Graph, id: nat)
    requires ArgsIn(g, args) && |args| > 0 && forall i :: 0 <= i < |args| ==> Accepted(args[i])
    requires Converted(g, args[..|args| - 1], h, ids)
    requires AsVariable(h, args[|args| - 1]) == Success((h', id))
    ensures Converted(g, args, h', ids + [id])
  {
    var n := |args| - 1;
    var last := args[n];
    assert forall i :: 0 <= i < n ==> args[..n][i] == args[i];
    assert last.Var? ==> last.id < |g.vars|;
    assert ArgData(h, last) == ArgData(g, last);
    forall i | 0 <= i < n
      ensures h'.vars[ids[i]] == h.vars[ids[i]]
    {
    }
  }

  /** The arena after a successful `forward`: the output Variable is appended
      and, when backpropagation is enabled, so is the Function, stamped with
      the largest generation of its inputs, and the output names it as its
      creator. */
  function Wire(cfg: Config, h: Graph, k: Kind, ids: seq<nat>, y: Tensor): (r: (Graph, nat))
    requires |ids| > 0 && Refs(ids, |h.vars|)
    ensures r.1 == |h.vars| && Extends(h, r.0) && |r.0.vars| == |h.vars| + 1
    ensures r.0.vars[r.1].data == Some(y) && r.0.vars[r.1].grad.None?
    ensures cfg.enableBackprop ==>
              && r.0.funcs == h.funcs + [Function(k, ids, [r.1], MaxGeneration(h.vars, ids))]
              && r.0.vars[r.1].creator == Some(|h.funcs|)
              && r.0.vars[r.1].generation == MaxGeneration(h.vars, ids) + 1
    ensures !cfg.enableBackprop ==> r.0.funcs == h.funcs && r.0.vars[r.1] == Root(Some(y), None)
  {
    var out := Root(Some(y), None);
    if cfg.enableBackprop then
      var fn := Function(k, ids, [|h.vars|], MaxGeneration(h.vars, ids));
      (Graph(h.vars + [SetCreator(out, |h.funcs|, fn)], h.funcs + [fn]), |h.vars|)
    else
      (h.(vars := h.vars + [out]), |h.vars|)
  }

  /** Wiring keeps the arena valid and consistent. */
  lemma WireKeepsStamps(cfg: Config, h: Graph, k: Kind, ids: seq<nat>, y: Tensor)
    requires |ids| > 0 && Refs(ids, |h.vars|)
    ensures Valid(h) && Consistent(h) ==> Valid(Wire(cfg, h, k, ids, y).0) && Consistent(Wire(cfg, h, k, ids, y).0)
  {
    if Valid(h) && Consistent(h) {
      var w := Wire(cfg, h, k, ids, y).0;
      if cfg.enableBackprop {
        NodeValid(h, w, k, ids, y, MaxGeneration(h.vars, ids));
        NodeConsistent(h, w, k, ids, y);
      } else {
        RootsKeepStamps(h, w);
      }
    }
  }

  /** `Function.__call__`: convert the arguments with `as_variable`, run
      `forward` on their data, wrap the one result in a new Variable and,
      when `Config.enable_backprop` is set, record the Function in the graph.
      A rejected argument raises TypeError before `forward` runs; a failing
      `forward` raises its own error. */
  function Apply(cfg: Config, g: Graph, k: Kind, args: seq<Arg>): (r: Result<(Graph, nat), Error>)
    requires ArgsIn(g, args)
    ensures (exists i :: 0 <= i < |args| && !Accepted(args[i])) ==> r == Failure(TypeError)
    ensures (forall i :: 0 <= i < |args| ==> Accepted(args[i])) ==>
              && (r.Success? <==> Forward(k, ArgsData(g, args)).Success?)
              && (r.Failure? ==> r.error == Forward(k, ArgsData(g, args)).error)
    ensures r.Success? ==>
              && Extends(g, r.value.0)
              && r.value.1 == |r.value.0.vars| - 1
              && |g.vars| <= r.value.1
              && |args| == Arity(k)
              && (forall i :: 0 <= i < |args| ==> Accepted(args[i]))
              && r.value.0.vars[r.value.1].data == Some(Forward(k, ArgsData(g, args)).value[0])
              && r.value.0.vars[r.value.1].grad.None?
    ensures r.Success? && Valid(g) && Consistent(g) ==> Valid(r.value.0) && Consistent(r.value.0)
    ensures r.Success? && cfg.enableBackprop ==>
              && |r.value.0.funcs| == |g.funcs| + 1
              && r.value.0.vars[r.value.1].creator == Some(|g.funcs|)
              && r.value.0.funcs[|g.funcs|].kind == k
              && r.value.0.funcs[|g.funcs|].outputs == [r.value.1]
              && |r.value.0.funcs[|g.funcs|].inputs| == |args|
              && (forall i :: 0 <= i < |args| && args[i].Var? ==> r.value.0.funcs[|g.funcs|].inputs[i] == args[i].id)
              && (forall i :: 0 <= i < |args| && args[i].Raw? ==>
                    |g.vars| <= r.value.0.funcs[|g.funcs|].inputs[i] < r.value.1)
    ensures r.Success? && !cfg.enableBackprop ==>
              && r.value.0.funcs == g.funcs
              && r.value.0.vars[r.value.1].creator.None?
              && r.value.0.vars[r.value.1].generation == 0
  {
    match AsVariables(g, args)
    case Failure(e) => Failure(e)
    case Success((h, ids)) =>
      var xs := seq(|ids|, i requires 0 <= i < |ids| => h.vars[ids[i]].data);
      assert xs == ArgsData(g, args);
      match Forward(k, xs)
      case Failure(e) => Failure(e)
      case Success(ys) =>
        RootsKeepStamps(g, h);
        WireKeepsStamps(cfg, h, k, ids, ys[0]);
        Success(Wire(cfg, h, k, ids, ys[0]))
  }

  /** A call records a Function with as many inputs as its operation
      takes and one fresh output, so the Functions of a graph built by calls
      keep that shape. */
  lemma ApplyKeepsShaped(cfg: Config, g: Graph, k: Kind, args: seq<Arg>)
    requires ArgsIn(g, args) && Valid(g) && Shaped(g)
    ensures Apply(cfg, g, k, args).Success? ==> Shaped(Apply(cfg, g, k, args).value.0)
  {
    var r := Apply(cfg, g, k, args);
    if r.Success? && cfg.enableBackprop {
      var h := r.value.0;
      ShapedGrows(g, h.funcs, h.funcs[|g.funcs|]);
    }
  }

  /** Appending a Function of that shape whose output is a new Variable
      keeps the Functions' shape. */
  lemma ShapedGrows(g: Graph, fs: seq<Function>, fn: Function)
    requires Valid(g) && Shaped(g) && fs == g.funcs + [fn]
    requires |fn.inputs| == Arity(fn.kind) && |fn.outputs| == 1 && fn.outputs[0] >= |g.vars|
    ensures Shaped(g.(funcs := fs))
  {
    forall f | 0 <= f < |g.funcs|
      ensures fs[f] == g.funcs[f] && fs[f].outputs == [g.funcs[f].outputs[0]] && g.funcs[f].outputs[0] < |g.vars|
    {
      assert g.funcs[f].outputs == [g.funcs[f].outputs[0]];
    }
  }

  /** The data of the result Variable of a successful call. */
  function Out(r: Result<(Graph, nat), Error>): Option<Tensor> {
    if r.Success? && r.value.1 < |r.value.0.vars| then r.value.0.vars[r.value.1].data else None
  }

  /** The number an argument contributes once it has been through
      `as_array`, when it contributes one. */
  function Operand(g: Graph, a: Arg): Option<real>
    requires a.Var? ==> a.id < |g.vars|
  {
    match a
    case Var(id) => if g.vars[id].data.Some? then Some(g.vars[id].data.value.value) else None
    case Raw(o) => if AsArray(o).ArrayObj? then Some(AsArray(o).t.value) else None
  }

  /** The data an accepted argument contributes, as a number. */
  lemma OperandOfData(g: Graph, a: Arg)
    requires Accepted(a) && (a.Var? ==> a.id < |g.vars|)
    ensures Operand(g, a).Some? <==> ArgData(g, a).Some?
    ensures Operand(g, a).Some? ==> Operand(g, a).value == ArgData(g, a).value.value
  {
  }

  /** A successful two-operand call computes the operation on the operands'
      numbers, in the order given. */
  lemma {:induction false} ApplyComputes(cfg: Config, g: Graph, k: Kind, a: Arg, b: Arg)
    requires Arity(k) == 2 && ArgIn(g, a) && ArgIn(g, b)
    ensures Apply(cfg, g, k, [a, b]).Success? ==>
              && Operand(g, a).Some? && Operand(g, b).Some?
              && Defined(k, [Operand(g, a).value, Operand(g, b).value])
              && Out(Apply(cfg, g, k, [a, b])).Some?
              && Out(Apply(cfg, g, k, [a, b])).value.value == Eval(k, [Operand(g, a).value, Operand(g, b).value])
  {
    if Apply(cfg, g, k, [a, b]).Success? {
      var xs := ArgsData(g, [a, b]);
      OperandOfData(g, a);
      OperandOfData(g, b);
      assert Values(xs) == [Operand(g, a).value, Operand(g, b).value];
    }
  }

  /** `add`, `sub`, `mul` and `div` (and `__add__`, `__radd__`, `__mul__`,
      `__rmul__`, `__sub__` and `__truediv__`): the second operand goes
      through `as_array`, the first does not, so a number is accepted on the
      right and rejected with TypeError on the left. */
  function Binary(cfg: Config, g: Graph, k: Kind, x0: Arg, x1: Arg): (r: Result<(Graph, nat), Error>)
    requires k == Add || k == Sub || k == Mul || k == Div
    requires ArgIn(g, x0) && ArgIn(g, x1)
    ensures x0.Raw? && (x0.obj.ScalarObj? || x0.obj.OtherObj?) ==> r == Failure(TypeError)
    ensures x1.Raw? && x1.obj.OtherObj? ==> r == Failure(TypeError)
    ensures r.Success? ==>
              && Operand(g, x0).Some? && Operand(g, x1).Some?
              && Defined(k, [Operand(g, x0).value, Operand(g, x1).value])
              && Out(r).Some? && Out(r).value.value == Eval(k, [Operand(g, x0).value, Operand(g, x1).value])
  {
    var args := [x0, AsArrayArg(x1)];
    assert !Accepted(x0) ==> !Accepted(args[0]);
    assert !Accepted(AsArrayArg(x1)) ==> !Accepted(args[1]);
    var r := Apply(cfg, g, k, args);
    ApplyComputes(cfg, g, k, x0, AsArrayArg(x1));
    r
  }

  /** A number on the right is treated as the 0-dimensional array holding
      it. */
  lemma NumberOnRightIsArray(cfg: Config, g: Graph, k: Kind, x0: Arg, c: real)
    requires k == Add || k == Sub || k == Mul || k == Div
    requires ArgIn(g, x0)
    ensures Binary(cfg, g, k, x0, Raw(ScalarObj(c))) == Binary(cfg, g, k, x0, Raw(ArrayObj(Tensor(c, []))))
  {
  }

  /** `rsub` and `rdiv` (`__rsub__` and `__rtruediv__`, so `c - x` and
      `c / x` for a number `c`): the operands are swapped, the number on the
      left going through `as_array`. */
  function Reflected(cfg: Config, g: Graph, k: Kind, x0: Arg, x1: Arg): (r: Result<(Graph, nat), Error>)
    requires k == Sub || k == Div
    requires ArgIn(g, x0) && ArgIn(g, x1)
    ensures x0.Raw? && (x0.obj.ScalarObj? || x0.obj.OtherObj?) ==> r == Failure(TypeError)
    ensures x1.Raw? && x1.obj.OtherObj? ==> r == Failure(TypeError)
    ensures r.Success? ==>
              && Operand(g, x0).Some? && Operand(g, x1).Some?
              && Defined(k, [Operand(g, x1).value, Operand(g, x0).value])
              && Out(r).Some? && Out(r).value.value == Eval(k, [Operand(g, x1).value, Operand(g, x0).value])
  {
    var args := [AsArrayArg(x1), x0];
    assert !Accepted(x0) ==> !Accepted(args[1]);
    assert !Accepted(AsArrayArg(x1)) ==> !Accepted(args[0]);
    var r := Apply(cfg, g, k, args);
    ApplyComputes(cfg, g, k, AsArrayArg(x1), x0);
    r
  }

  /** A successful one-operand call computes the operation on the operand's
      number. */
  lemma ApplyComputesUnary(cfg: Config, g: Graph, k: Kind, a: Arg)
    requires Arity(k) == 1 && ArgIn(g, a)
    ensures Apply(cfg, g, k, [a]).Success? ==>
              && Operand(g, a).Some? && Defined(k, [Operand(g, a).value])
              && Out(Apply(cfg, g, k, [a])).Some?
              && Out(Apply(cfg, g, k, [a])).value.value == Eval(k, [Operand(g, a).value])
  {
    if Apply(cfg, g, k, [a]).Success? {
      OperandOfData(g, a);
      assert Values(ArgsData(g, [a])) == [Operand(g, a).value];
    }
  }

  /** `neg(x)`. `setup_variable` installs no `__neg__`, so unary minus on a
      Variable does not reach this operation. */
  function Negate(cfg: Config, g: Graph, x: Arg): (r: Result<(Graph, nat), Error>)
    requires ArgIn(g, x)
    ensures !Accepted(x) ==> r == Failure(TypeError)
    ensures r.Success? ==> Operand(g, x).Some? && Out(r).Some? && Out(r).value.value == -Operand(g, x).value
  {
    var r := Apply(cfg, g, Neg, [x]);
    ApplyComputesUnary(cfg, g, Neg, x);
    r
  }

  /** `pow(x, c)` (`x ** c`); the exponent is a constant of the Function,
      not an operand. */
  function Raise(cfg: Config, g: Graph, x: Arg, c: int): (r: Result<(Graph, nat), Error>)
    requires ArgIn(g, x)
    ensures !Accepted(x) ==> r == Failure(TypeError)
    ensures r.Success? ==>
              && Operand(g, x).Some? && (Operand(g, x).value != 0.0 || c >= 0)
              && Out(r).Some? && Out(r).value.value == Power(Operand(g, x).value, c)
  {
    var r := Apply(cfg, g, Pow(c), [x]);
    ApplyComputesUnary(cfg, g, Pow(c), x);
    r
  }

  /** The shape argument of `reshape`: Python compares it with `x.shape`, a
      tuple, and a list never equals a tuple. */
  datatype ShapeArg = Tuple(dims: seq<nat>) | List(dims: seq<nat>)

  /** `x.shape`: a Variable's data or an array has one; `None`, a Python
      number and other objects raise AttributeError. */
  function ShapeOf(g: Graph, a: Arg): (r: Result<seq<nat>, Error>)
    requires a.Var? ==> a.id < |g.vars|
    ensures r.Failure? ==> r.error == AttributeError
    ensures r.Success? <==> Accepted(a) && ArgData(g, a).Some?
    ensures r.Success? ==> r.value == ArgData(g, a).value.shape
  {
    match a
    case Var(id) => if g.vars[id].data.Some? then Success(g.vars[id].data.value.shape) else Failure(AttributeError)
    case Raw(o) => if o.ArrayObj? then Success(o.t.shape) else Failure(AttributeError)
  }

  /** `reshape(x, shape)`: when `shape` is a tuple equal to `x.shape` the
      argument comes back through `as_variable`, and no Function is recorded;
      otherwise a Reshape Function is applied, which fails with ValueError
      when the element count would change. The result holds the argument's
      number in the requested shape. */
  function ReshapeTo(cfg: Config, g: Graph, x: Arg, s: ShapeArg): (r: Result<(Graph, nat), Error>)
    requires ArgIn(g, x)
    ensures ShapeOf(g, x).Failure? ==> r == Failure(AttributeError)
    ensures ShapeOf(g, x).Success? ==> (r.Success? <==> Product(ShapeOf(g, x).value) == Product(s.dims))
    ensures r.Failure? && ShapeOf(g, x).Success? ==> r.error == ValueError
    ensures s.Tuple? && x.Var? && ShapeOf(g, x) == Success(s.dims) ==> r == Success((g, x.id))
    ensures s.Tuple? && x.Raw? && ShapeOf(g, x) == Success(s.dims) ==> r.Success? && r.value.0.funcs == g.funcs
    ensures r.Success? && cfg.enableBackprop && !(s.Tuple? && ShapeOf(g, x) == Success(s.dims)) ==>
              && |r.value.0.funcs| == |g.funcs| + 1
              && r.value.0.funcs[|g.funcs|].kind == Reshape(s.dims)
    ensures r.Success? ==>
              && Extends(g, r.value.0)
              && Out(r) == Some(Tensor(ArgData(g, x).value.value, s.dims))
  {
    match ShapeOf(g, x)
    case Failure(e) => Failure(e)
    case Success(shape) =>
      if s.Tuple? && shape == s.dims then AsVariable(g, x)
      else
        ReshapeApplied(cfg, g, x, s.dims);
        Apply(cfg, g, Reshape(s.dims), [x])
  }

  /** A Reshape Function applied to `x`: it succeeds exactly when the element
      count is kept, and then holds `x`'s number in the new shape. */
  lemma ReshapeApplied(cfg: Config, g: Graph, x: Arg, dims: seq<nat>)
    requires ArgIn(g, x) && ShapeOf(g, x).Success?
    ensures Apply(cfg, g, Reshape(dims), [x]).Success? <==> Product(ShapeOf(g, x).value) == Product(dims)
    ensures Apply(cfg, g, Reshape(dims), [x]).Failure? ==> Apply(cfg, g, Reshape(dims), [x]).error == ValueError
    ensures var r := Apply(cfg, g, Reshape(dims), [x]);
            r.Success? && cfg.enableBackprop ==>
              |r.value.0.funcs| == |g.funcs| + 1 && r.value.0.funcs[|g.funcs|].kind == Reshape(dims)
    ensures var r := Apply(cfg, g, Reshape(dims), [x]);
            r.Success? ==> Extends(g, r.value.0) && Out(r) == Some(Tensor(ArgData(g, x).value.value, dims))
  {
    var xs := ArgsData(g, [x]);
    assert xs == [ArgData(g, x)];
    assert Accepted(x);
    assert AllSome(xs) && Values(xs) == [ArgData(g, x).value.value];
  }

  /** Reshaping to the shape a result already has is the identity: the
      second call returns the same Variable and records nothing. */
  lemma ReshapeIdempotent(cfg: Config, g: Graph, x: Arg, dims: seq<nat>)
    requires ArgIn(g, x)
    requires ReshapeTo(cfg, g, x, Tuple(dims)).Success?
    ensures var (h, y) := ReshapeTo(cfg, g, x, Tuple(dims)).value;
            ReshapeTo(cfg, h, Var(y), Tuple(dims)) == Success((h, y))
  {
  }

  /** An argument of `Variable.reshape(*shape)`: a dimension or a whole
      shape. */
  datatype ShapeParam = Dim(n: nat) | Whole(s: ShapeArg)

  predicate AllDims(ps: seq<ShapeParam>) {
    forall i :: 0 <= i < |ps| ==> ps[i].Dim?
  }

  function DimsOf(ps: seq<ShapeParam>): (d: seq<nat>)
    requires AllDims(ps)
    ensures |d| == |ps| && forall i :: 0 <= i < |ps| ==> d[i] == ps[i].n
  {
    if |ps| == 0 then [] else [ps[0].n] + DimsOf(ps[1..])
  }

  /** `x.reshape(*shape)`: one tuple or list argument is the shape; otherwise
      the arguments themselves form the shape tuple, so `x.reshape(2, 3)` and
      `x.reshape((2, 3))` are the same call. A shape that nests a sequence
      among dimensions reaches numpy, which raises TypeError. */
  function ReshapeMethod(cfg: Config, g: Graph, x: nat, ps: seq<ShapeParam>): (r: Result<(Graph, nat), Error>)
    requires x < |g.vars|
    ensures |ps| == 1 && ps[0].Whole? ==> r == ReshapeTo(cfg, g, Var(x), ps[0].s)
    ensures AllDims(ps) ==> r == ReshapeTo(cfg, g, Var(x), Tuple(DimsOf(ps)))
    ensures !(|ps| == 1 && ps[0].Whole?) && !AllDims(ps) ==> r.Failure?
  {
    if |ps| == 1 && ps[0].Whole? then ReshapeTo(cfg, g, Var(x), ps[0].s)
    else if AllDims(ps) then ReshapeTo(cfg, g, Var(x), Tuple(DimsOf(ps)))
    else if g.vars[x].data.None? then Failure(AttributeError)
    else Failure(TypeError)
  }

  /** `x.reshape(2, 3)` is `x.reshape((2, 3))`. */
  lemma SpreadShapeIsTuple(cfg: Config, g: Graph, x: nat, ps: seq<ShapeParam>)
    requires x < |g.vars| && AllDims(ps)
    ensures ReshapeMethod(cfg, g, x, ps) == ReshapeMethod(cfg, g, x, [Whole(Tuple(DimsOf(ps)))])
  {
  }
}
