/** Variables and Functions of the computational graph, kept in an arena:
    a Variable names its creator and a Function names its inputs and outputs
    by index instead of by (weak) object reference. */
module Arena {
  import opened Wrappers
  import opened Errors

  /** A numpy array, abstracted to its shape and one real value that every
      element holds. */
  datatype Tensor = Tensor(value: real, shape: seq<nat>)

  /** What a caller may hand to `Variable(...)` or to an operation: `None`,
      an array, a Python number, or any other object. */
  datatype Obj = NoneObj | ArrayObj(t: Tensor) | ScalarObj(x: real) | OtherObj

  /** A Variable: its data (`None` for a placeholder), its optional name,
      its accumulated gradient, the index of the Function that created it and
      its generation. */
  datatype Variable = Variable(
    data: Option<Tensor>,
    name: Option<string>,
    grad: Option<real>,
    creator: Option<nat>,
    generation: nat)

  /** The operations the engine knows: the arithmetic ones, `Pow` with its
      fixed exponent and `Reshape` with its target shape. */
  datatype Kind = Add | Sub | Neg | Mul | Div | Pow(c: int) | Reshape(shape: seq<nat>)

  /** A Function recorded in the graph: what it computes, the Variables it
      consumed, the Variables it produced and its generation. */
  datatype Function = Function(kind: Kind, inputs: seq<nat>, outputs: seq<nat>, generation: nat)

  datatype Graph = Graph(vars: seq<Variable>, funcs: seq<Function>)

  /** Every index in `ids` names one of the first `n` slots. */
  predicate Refs(ids: seq<nat>, n: nat) {
    forall k :: 0 <= k < |ids| ==> ids[k] < n
  }

  /** Every creator, input and output index names a slot of the arena: the
      model's stand-in for Python references that are always alive. */
  predicate Valid(g: Graph) {
    && (forall v :: 0 <= v < |g.vars| && g.vars[v].creator.Some? ==> g.vars[v].creator.value < |g.funcs|)
    && (forall f :: 0 <= f < |g.funcs| ==> Refs(g.funcs[f].inputs, |g.vars|) && Refs(g.funcs[f].outputs, |g.vars|))
  }

  /** The largest generation among the Variables `ids`; Python's
      `max([x.generation for x in inputs])`. */
  function MaxGeneration(vars: seq<Variable>, ids: seq<nat>): (m: nat)
    requires |ids| > 0 && Refs(ids, |vars|)
    ensures forall k :: 0 <= k < |ids| ==> vars[ids[k]].generation <= m
    ensures exists k :: 0 <= k < |ids| && vars[ids[k]].generation == m
  {
    if |ids| == 1 then vars[ids[0]].generation
    else
      var rest := MaxGeneration(vars, ids[1..]);
      assert forall k :: 1 <= k < |ids| ==> ids[k] == ids[1..][k - 1];
      if vars[ids[0]].generation >= rest then vars[ids[0]].generation else rest
  }

  /** MaxGeneration reads nothing but the generations of the Variables it is
      given. */
  lemma {:induction false} MaxGenerationFrame(a: seq<Variable>, b: seq<Variable>, ids: seq<nat>)
    requires |ids| > 0 && Refs(ids, |a|) && Refs(ids, |b|)
    requires forall k :: 0 <= k < |ids| ==> a[ids[k]].generation == b[ids[k]].generation
    ensures MaxGeneration(a, ids) == MaxGeneration(b, ids)
  {
    if |ids| > 1 {
      assert forall k :: 0 <= k < |ids| - 1 ==> ids[1..][k] == ids[k + 1];
      MaxGenerationFrame(a, b, ids[1..]);
    }
  }

  /** The stamps the graph builder leaves: a Variable with a creator is one of
      that Function's outputs and sits one generation above it, every output
      of a Function sits one generation above it, and a Function has at least
      one input and the generation of its latest input. */
  predicate Consistent(g: Graph)
    requires Valid(g)
  {
    CreatorStamps(g) && OutputStamps(g) && InputStamps(g)
  }

  predicate CreatorStamps(g: Graph)
    requires Valid(g)
  {
    forall v :: 0 <= v < |g.vars| && g.vars[v].creator.Some? ==>
      && g.vars[v].generation == g.funcs[g.vars[v].creator.value].generation + 1
      && v in g.funcs[g.vars[v].creator.value].outputs
  }

  predicate OutputStamps(g: Graph)
    requires Valid(g)
  {
    forall f, j :: 0 <= f < |g.funcs| && 0 <= j < |g.funcs[f].outputs| ==>
      g.vars[g.funcs[f].outputs[j]].generation == g.funcs[f].generation + 1
  }

  predicate InputStamps(g: Graph)
    requires Valid(g)
  {
    forall f :: 0 <= f < |g.funcs| ==>
      && |g.funcs[f].inputs| > 0
      && g.funcs[f].generation == MaxGeneration(g.vars, g.funcs[f].inputs)
  }

  /** In a consistent graph a Function's inputs were made by Functions of
      strictly smaller generation: the graph cannot loop back on itself. */
  lemma InputCreatorsAreOlder(g: Graph, f: nat, k: nat)
    requires Valid(g) && Consistent(g)
    requires f < |g.funcs| && k < |g.funcs[f].inputs|
    requires g.vars[g.funcs[f].inputs[k]].creator.Some?
    ensures g.funcs[g.vars[g.funcs[f].inputs[k]].creator.value].generation < g.funcs[f].generation
  {
  }

  /** `h` is `g` with nothing changed but Variables' gradients. */
  predicate OnlyGradsDiffer(g: Graph, h: Graph) {
    && h.funcs == g.funcs
    && |h.vars| == |g.vars|
    && forall v :: 0 <= v < |g.vars| ==> h.vars[v] == g.vars[v].(grad := h.vars[v].grad)
  }

  /** Changing gradients keeps the arena valid and its stamps consistent. */
  lemma {:induction false} GradsDoNotMatter(g: Graph, h: Graph)
    requires Valid(g) && OnlyGradsDiffer(g, h)
    ensures Valid(h)
    ensures Consistent(g) ==> Consistent(h)
  {
    assert forall v :: 0 <= v < |g.vars| ==> h.vars[v].generation == g.vars[v].generation;
    if Consistent(g) {
      forall f | 0 <= f < |g.funcs|
        ensures MaxGeneration(h.vars, h.funcs[f].inputs) == MaxGeneration(g.vars, g.funcs[f].inputs)
      {
        MaxGenerationFrame(h.vars, g.vars, g.funcs[f].inputs);
      }
    }
  }

  /** `Variable(data, name)`: anything but `None` or an array raises
      TypeError; a new Variable has no gradient, no creator and generation
      0. */
  function NewVariable(data: Obj, name: Option<string>): (r: Result<Variable, Error>)
    ensures r.Failure? <==> data.ScalarObj? || data.OtherObj?
    ensures r.Failure? ==> r.error == TypeError
    ensures r.Success? ==>
              && r.value.data == (if data.ArrayObj? then Some(data.t) else None)
              && r.value.name == name
              && r.value.grad.None?
              && r.value.creator.None?
              && r.value.generation == 0
  {
    match data
    case NoneObj => Success(Root(None, name))
    case ArrayObj(t) => Success(Root(Some(t), name))
    case _ => Failure(TypeError)
  }

  function Root(data: Option<Tensor>, name: Option<string>): Variable {
    Variable(data, name, None, None, 0)
  }

  /** `set_creator(f)`: the Variable now names `f` as its creator and sits
      one generation above it; its data, name and gradient are untouched. */
  function SetCreator(v: Variable, f: nat, fn: Function): (r: Variable)
    ensures r.creator == Some(f) && r.generation == fn.generation + 1
    ensures r.data == v.data && r.name == v.name && r.grad == v.grad
  {
    v.(creator := Some(f), generation := fn.generation + 1)
  }

  /** `unchain()`: forgets the creator and nothing else. */
  function Unchain(v: Variable): (r: Variable)
    ensures r.creator.None?
    ensures r.data == v.data && r.name == v.name && r.grad == v.grad && r.generation == v.generation
  {
    v.(creator := None)
  }

  /** `cleargrad()`: forgets the gradient and nothing else. */
  function Cleargrad(v: Variable): (r: Variable)
    ensures r.grad.None?
    ensures r.data == v.data && r.name == v.name && r.creator == v.creator && r.generation == v.generation
  {
    v.(grad := None)
  }

  /** The gradient of Variable `v` replaced by `grad`. */
  function SetGrad(g: Graph, v: nat, grad: Option<real>): (h: Graph)
    requires v < |g.vars|
    ensures OnlyGradsDiffer(g, h)
    ensures h.vars[v].grad == grad
    ensures forall u :: 0 <= u < |g.vars| && u != v ==> h.vars[u] == g.vars[u]
  {
    g.(vars := g.vars[v := g.vars[v].(grad := grad)])
  }

  /** `x.unchain()` on Variable `v` of the arena: the graph stays valid and
      consistent, no other Variable and no Function changes, and `v` is now a
      root. In a graph built by calls, a backward pass then never runs the
      Function that had created `v` (`Backprop.UnchainPrunes`). */
  function UnchainAt(g: Graph, v: nat): (h: Graph)
    requires Valid(g) && v < |g.vars|
    ensures Valid(h) && (Consistent(g) ==> Consistent(h))
    ensures h.funcs == g.funcs && |h.vars| == |g.vars|
    ensures h.vars[v].creator.None? && h.vars[v].generation == g.vars[v].generation
    ensures h.vars[v].grad == g.vars[v].grad && h.vars[v].data == g.vars[v].data
    ensures forall u :: 0 <= u < |g.vars| && u != v ==> h.vars[u] == g.vars[u]
  {
    var h := g.(vars := g.vars[v := Unchain(g.vars[v])]);
    assert forall u :: 0 <= u < |g.vars| ==> h.vars[u].generation == g.vars[u].generation;
    forall f | 0 <= f < |g.funcs|
      ensures |g.funcs[f].inputs| > 0 && Refs(g.funcs[f].inputs, |g.vars|) ==> MaxGeneration(h.vars, g.funcs[f].inputs) == MaxGeneration(g.vars, g.funcs[f].inputs)
    {
      if Refs(g.funcs[f].inputs, |g.vars|) && |g.funcs[f].inputs| > 0 {
        MaxGenerationFrame(h.vars, g.vars, g.funcs[f].inputs);
      }
    }
    h
  }

  /** `x.cleargrad()` on Variable `v` of the arena: only that gradient
      changes, to `None`. */
  function CleargradAt(g: Graph, v: nat): (h: Graph)
    requires v < |g.vars|
    ensures OnlyGradsDiffer(g, h)
    ensures h.vars[v].grad.None?
    ensures forall u :: 0 <= u < |g.vars| && u != v ==> h.vars[u] == g.vars[u]
  {
    SetGrad(g, v, None)
  }

  /** `h` is `g` with Variables and Functions appended and nothing before
      them changed. */
  predicate Extends(g: Graph, h: Graph) {
    g.vars <= h.vars && g.funcs <= h.funcs
  }

  /** The Variables appended after the first `n` are roots without gradient. */
  predicate FreshRoots(h: Graph, n: nat) {
    forall v :: n <= v < |h.vars| ==> h.vars[v].creator.None? && h.vars[v].grad.None? && h.vars[v].generation == 0
  }

  /** Appending Variables and Functions that carry the stamps themselves
      keeps the arena valid and consistent: nothing already there can tell. */
  lemma GrowthKeepsStamps(g: Graph, h: Graph)
    requires Valid(g) && Consistent(g) && Extends(g, h) && Valid(h)
    requires forall v :: |g.vars| <= v < |h.vars| && h.vars[v].creator.Some? ==>
               && h.vars[v].generation == h.funcs[h.vars[v].creator.value].generation + 1
               && v in h.funcs[h.vars[v].creator.value].outputs
    requires forall f :: |g.funcs| <= f < |h.funcs| ==>
               && |h.funcs[f].inputs| > 0
               && h.funcs[f].generation == MaxGeneration(h.vars, h.funcs[f].inputs)
    requires forall f, j :: |g.funcs| <= f < |h.funcs| && 0 <= j < |h.funcs[f].outputs| ==>
               h.vars[h.funcs[f].outputs[j]].generation == h.funcs[f].generation + 1
    ensures Consistent(h)
  {
    assert forall v :: 0 <= v < |g.vars| ==> h.vars[v] == g.vars[v];
    assert forall f :: 0 <= f < |g.funcs| ==> h.funcs[f] == g.funcs[f];
    forall f | 0 <= f < |g.funcs|
      ensures MaxGeneration(h.vars, h.funcs[f].inputs) == MaxGeneration(g.vars, g.funcs[f].inputs)
    {
      MaxGenerationFrame(h.vars, g.vars, g.funcs[f].inputs);
    }
  }

  /** Appending root Variables keeps the arena valid and consistent. */
  lemma RootsKeepStamps(g: Graph, h: Graph)
    requires Extends(g, h) && h.funcs == g.funcs && FreshRoots(h, |g.vars|)
    ensures Valid(g) && Consistent(g) ==> Valid(h) && Consistent(h)
  {
    if Valid(g) && Consistent(g) {
      assert forall v :: 0 <= v < |g.vars| ==> h.vars[v] == g.vars[v];
      GrowthKeepsStamps(g, h);
    }
  }

  /** Appending a Function and its output keeps every index in range. */
  lemma NodeValid(h: Graph, w: Graph, k: Kind, ids: seq<nat>, y: Tensor, m: nat)
    requires Valid(h) && Refs(ids, |h.vars|)
    requires w.funcs == h.funcs + [Function(k, ids, [|h.vars|], m)]
    requires w.vars == h.vars + [Variable(Some(y), None, None, Some(|h.funcs|), m + 1)]
    ensures Valid(w)
  {
    forall v | 0 <= v < |w.vars| && w.vars[v].creator.Some?
      ensures w.vars[v].creator.value < |w.funcs|
    {
      if v < |h.vars| {
        assert w.vars[v] == h.vars[v];
      }
    }
    forall f | 0 <= f < |w.funcs|
      ensures Refs(w.funcs[f].inputs, |w.vars|) && Refs(w.funcs[f].outputs, |w.vars|)
    {
      if f < |h.funcs| {
        assert w.funcs[f] == h.funcs[f];
      }
    }
  }

  /** Appending a Function stamped with its inputs' largest generation and
      its output stamped one above keeps the arena consistent. */
  lemma NodeConsistent(h: Graph, w: Graph, k: Kind, ids: seq<nat>, y: Tensor)
    requires Valid(h) && Consistent(h) && Valid(w) && |ids| > 0 && Refs(ids, |h.vars|)
    requires w.funcs == h.funcs + [Function(k, ids, [|h.vars|], MaxGeneration(h.vars, ids))]
    requires w.vars == h.vars + [Variable(Some(y), None, None, Some(|h.funcs|), MaxGeneration(h.vars, ids) + 1)]
    ensures Consistent(w)
  {
    NodeCreators(h, w, k, ids, y);
    NodeOutputs(h, w, k, ids, y);
    NodeGenerations(h, w, k, ids, y);
  }

  lemma NodeOutputs(h: Graph, w: Graph, k: Kind, ids: seq<nat>, y: Tensor)
    requires Valid(h) && OutputStamps(h) && Valid(w) && |ids| > 0 && Refs(ids, |h.vars|)
    requires w.funcs == h.funcs + [Function(k, ids, [|h.vars|], MaxGeneration(h.vars, ids))]
    requires w.vars == h.vars + [Variable(Some(y), None, None, Some(|h.funcs|), MaxGeneration(h.vars, ids) + 1)]
    ensures OutputStamps(w)
  {
    forall f, j | 0 <= f < |w.funcs| && 0 <= j < |w.funcs[f].outputs|
      ensures w.vars[w.funcs[f].outputs[j]].generation == w.funcs[f].generation + 1
    {
      if f < |h.funcs| {
        assert w.funcs[f] == h.funcs[f];
        assert w.vars[h.funcs[f].outputs[j]] == h.vars[h.funcs[f].outputs[j]];
      }
    }
  }

  lemma NodeCreators(h: Graph, w: Graph, k: Kind, ids: seq<nat>, y: Tensor)
    requires Valid(h) && CreatorStamps(h) && Valid(w) && |ids| > 0 && Refs(ids, |h.vars|)
    requires w.funcs == h.funcs + [Function(k, ids, [|h.vars|], MaxGeneration(h.vars, ids))]
    requires w.vars == h.vars + [Variable(Some(y), None, None, Some(|h.funcs|), MaxGeneration(h.vars, ids) + 1)]
    ensures CreatorStamps(w)
  {
    forall v | 0 <= v < |w.vars| && w.vars[v].creator.Some?
      ensures w.vars[v].generation == w.funcs[w.vars[v].creator.value].generation + 1
      ensures v in w.funcs[w.vars[v].creator.value].outputs
    {
      if v < |h.vars| {
        assert w.vars[v] == h.vars[v];
        assert w.funcs[h.vars[v].creator.value] == h.funcs[h.vars[v].creator.value];
      } else {
        assert w.funcs[|h.funcs|].outputs == [v];
      }
    }
  }

  lemma NodeGenerations(h: Graph, w: Graph, k: Kind, ids: seq<nat>, y: Tensor)
    requires forall f :: 0 <= f < |h.funcs| ==>
               && Refs(h.funcs[f].inputs, |h.vars|) && |h.funcs[f].inputs| > 0
               && h.funcs[f].generation == MaxGeneration(h.vars, h.funcs[f].inputs)
    requires |ids| > 0 && Refs(ids, |h.vars|)
    requires w.funcs == h.funcs + [Function(k, ids, [|h.vars|], MaxGeneration(h.vars, ids))]
    requires w.vars == h.vars + [Variable(Some(y), None, None, Some(|h.funcs|), MaxGeneration(h.vars, ids) + 1)]
    ensures forall f :: 0 <= f < |w.funcs| ==>
              && Refs(w.funcs[f].inputs, |w.vars|)
              && |w.funcs[f].inputs| > 0
              && w.funcs[f].generation == MaxGeneration(w.vars, w.funcs[f].inputs)
  {
    forall f | 0 <= f < |w.funcs|
      ensures Refs(w.funcs[f].inputs, |w.vars|)
      ensures |w.funcs[f].inputs| > 0
      ensures w.funcs[f].generation == MaxGeneration(w.vars, w.funcs[f].inputs)
    {
      if f < |h.funcs| {
        assert w.funcs[f] == h.funcs[f];
        MaxGenerationPrefix(h.vars, w.vars, h.funcs[f].inputs);
      } else {
        MaxGenerationPrefix(h.vars, w.vars, ids);
      }
    }
  }

  /** Appending Variables does not change the largest generation among the
      ones already there. */
  lemma MaxGenerationPrefix(a: seq<Variable>, b: seq<Variable>, ids: seq<nat>)
    requires a <= b && |ids| > 0 && Refs(ids, |a|)
    ensures Refs(ids, |b|) && MaxGeneration(b, ids) == MaxGeneration(a, ids)
  {
    assert forall k :: 0 <= k < |ids| ==> b[ids[k]] == a[ids[k]];
    MaxGenerationFrame(b, a, ids);
  }
}
