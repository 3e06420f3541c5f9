/** Small graphs built through `Function.__call__` and walked by
    `backward()`, with the gradients they end up holding. */
module Examples {
  import opened Wrappers
  import opened Errors
  import opened Mode
  import opened Arena
  import opened Ops
  import opened Call
  import opened Backprop

  function Scalar(x: real): Tensor {
    Tensor(x, [])
  }

  /** An arena holding one root Variable `x` with the given value. */
  function One(x: real): Graph {
    Graph([Root(Some(Scalar(x)), None)], [])
  }

  /** `y = add(x, x)` with `x = 3`. */
  const AddGraph := Graph(
    [Root(Some(Scalar(3.0)), None), Variable(Some(Scalar(6.0)), None, None, Some(0), 1)],
    [Function(Add, [0, 0], [1], 0)])

  /** Both arguments are the Variable already in the arena. */
  lemma SameVariableTwice(x: real)
    ensures AsVariables(One(x), [Var(0), Var(0)]) == Success((One(x), [0, 0]))
  {
    var g := One(x);
    assert AsVariables(g, []) == Success((g, []));
    assert AsVariable(g, Var(0)) == Success((g, 0));
    assert [Var(0)][..0] == [];
    assert AsVariables(g, [Var(0)]).Success?;
    assert AsVariables(g, [Var(0)]).value.0 == g;
    assert AsVariables(g, [Var(0)]).value.1 == [0];
    assert [Var(0), Var(0)][..1] == [Var(0)];
    assert AsVariables(g, [Var(0), Var(0)]).value.0 == g;
    assert AsVariables(g, [Var(0), Var(0)]).value.1 == [0, 0];
  }

  /** The call builds one Function and its output, holding 6. */
  lemma AddBuildsGraph()
    ensures Apply(Default, One(3.0), Add, [Var(0), Var(0)]) == Success((AddGraph, 1))
  {
    var g := One(3.0);
    SameVariableTwice(3.0);
    var xs := ArgsData(g, [Var(0), Var(0)]);
    assert xs == [Some(Scalar(3.0)), Some(Scalar(3.0))];
    assert Values(xs) == [3.0, 3.0];
    assert Forward(Add, xs) == Success([Scalar(6.0)]);
    AddWire();
  }

  /** The output holding 6 is wired to a new Function of generation 0. */
  lemma AddWire()
    ensures Wire(Default, One(3.0), Add, [0, 0], Scalar(6.0)) == (AddGraph, 1)
  {
    var g := One(3.0);
    assert MaxGeneration(g.vars, [0, 0]) == 0;
    var fn := Function(Add, [0, 0], [1], 0);
    assert SetCreator(Root(Some(Scalar(6.0)), None), 0, fn) == AddGraph.vars[1];
    assert g.vars + [AddGraph.vars[1]] == AddGraph.vars;
    assert g.funcs + [fn] == AddGraph.funcs;
  }

  /** A scope body that computes `x + x` under the configuration it is
      given, `x` being 3, and leaves the configuration alone. */
  function AddSelf(c: Config): (Result<(Graph, nat), Error>, Config) {
    (Apply(c, One(3.0), Add, [Var(0), Var(0)]), c)
  }

  /** Under `no_grad()` the same call records no Function and yields a root;
      leaving the scope turns graph construction back on. */
  lemma NoGradLeavesRoot()
    ensures NoGrad(Default, AddSelf).1 == Default
    ensures var r := NoGrad(Default, AddSelf).0;
            r.Success? && r.value.0.funcs == [] && r.value.0.vars[r.value.1].creator.None?
  {
    var g := One(3.0);
    SameVariableTwice(3.0);
    var xs := ArgsData(g, [Var(0), Var(0)]);
    assert xs == [Some(Scalar(3.0)), Some(Scalar(3.0))];
    assert Values(xs) == [3.0, 3.0];
    assert Forward(Add, xs) == Success([Scalar(6.0)]);
  }

  /** `backward()` from the result of `no_grad()` seeds its gradient and
      raises AttributeError: the result has no creator to walk back to. */
  lemma NoGradThenBackward()
    ensures var r := NoGrad(Default, AddSelf).0;
            r.Success? && r.value.1 < |r.value.0.vars| && Valid(r.value.0) &&
            BackwardSpec(r.value.0, r.value.1, false) == Run(Seed(r.value.0, r.value.1), [], Some(AttributeError))
  {
    NoGradLeavesRoot();
    var r := NoGrad(Default, AddSelf).0;
    assert Valid(One(3.0)) && Consistent(One(3.0));
  }

  /** A walk over `y = x + x` with gradients `gx` and `gy`, about to run the
      one Function. */
  predicate AddWalk(w: Walk, gx: Option<real>, gy: Option<real>)
  {
    && WalkInv(w) && w.pending == [0]
    && OnlyGradsDiffer(AddGraph, w.g)
    && w.g.vars[0].grad == gx && w.g.vars[1].grad == gy
  }

  /** Add's rule hands `y.grad` through twice, and both land on `x`. */
  lemma AddRule(w: Walk)
    requires AddWalk(w, None, Some(1.0))
    ensures Rule(w.g, 0) == Success([Some(1.0), Some(1.0)])
    ensures After(w.g, 0, 0) == Success(Some(2.0))
    ensures After(w.g, 0, 1) == Success(Some(1.0))
  {
    assert Grads(w.g, [1]) == [Some(1.0)];
    PairContributions(0, 0, 0, Some(1.0), Some(1.0));
    PairContributions(1, 0, 0, Some(1.0), Some(1.0));
    assert [Some(1.0), Some(1.0)][1..] == [Some(1.0)];
    assert Sum(Some(1.0), [Some(1.0)]) == Success(Some(2.0)) by {
      SumSmall(Some(1.0), 1.0, 0.0);
    }
    SumSmall(Some(1.0), 0.0, 0.0);
  }

  /** The one step adds 1 into `x` twice, clears `y.grad` and, `x` being a
      root, queues nothing. */
  lemma AddStep(w: Walk)
    requires AddWalk(w, None, Some(1.0))
    ensures Step(w, false).1.None? && Step(w, false).0.pending == [] && Step(w, false).0.trace == w.trace + [0]
    ensures Step(w, false).0.g.vars[0].grad == Some(2.0) && Step(w, false).0.g.vars[1].grad.None?
  {
    AddRule(w);
    StepEffect(w, false);
  }

  /** `backward()` from `y = x + x` leaves `x.grad == 2` and clears `y.grad`:
      both gradients of the one Function land on `x` and are added. */
  lemma AddTwiceGradient()
    ensures BackwardSpec(AddGraph, 1, false).error.None?
    ensures BackwardSpec(AddGraph, 1, false).trace == [0]
    ensures BackwardSpec(AddGraph, 1, false).g.vars[0].grad == Some(2.0)
    ensures BackwardSpec(AddGraph, 1, false).g.vars[1].grad.None?
  {
    var w := Start(AddGraph, 1);
    assert AddWalk(w, None, Some(1.0));
    AddStep(w);
    DrainUnfolds(w, false);
  }

  /** `y = x * x * x` at `x = 2`, written out with the gradients `gs` of
      `x`, `x * x` and `y`. */
  function CubeAt(gs: seq<Option<real>>): Graph
    requires |gs| == 3
  {
    Graph(
      [Variable(Some(Scalar(2.0)), None, gs[0], None, 0),
       Variable(Some(Scalar(4.0)), None, gs[1], Some(0), 1),
       Variable(Some(Scalar(8.0)), None, gs[2], Some(1), 2)],
      [Function(Mul, [0, 0], [1], 0), Function(Mul, [1, 0], [2], 1)])
  }

  /** `x * x` with `x = 2`: one Mul and its output, holding 4. */
  const SquareGraph := Graph(
    [Root(Some(Scalar(2.0)), None), Variable(Some(Scalar(4.0)), None, None, Some(0), 1)],
    [Function(Mul, [0, 0], [1], 0)])

  /** Two Variables of the arena pass through `as_variable` as they are. */
  lemma VariablePair(g: Graph, a: nat, b: nat)
    requires a < |g.vars| && b < |g.vars|
    ensures AsVariables(g, [Var(a), Var(b)]) == Success((g, [a, b]))
  {
    assert AsVariables(g, []) == Success((g, []));
    assert [Var(a)][..0] == [];
    assert AsVariables(g, [Var(a)]).Success?;
    assert AsVariables(g, [Var(a)]).value.0 == g;
    assert AsVariables(g, [Var(a)]).value.1 == [a];
    assert [Var(a), Var(b)][..1] == [Var(a)];
    assert AsVariables(g, [Var(a), Var(b)]).value.0 == g;
    assert AsVariables(g, [Var(a), Var(b)]).value.1 == [a, b];
  }

  /** `mul` of two Variables of the arena whose product `forward` computes
      wires that product in as a new Variable. */
  lemma MulOfPair(g: Graph, a: nat, b: nat, y: Tensor)
    requires a < |g.vars| && b < |g.vars|
    requires Forward(Mul, [g.vars[a].data, g.vars[b].data]) == Success([y])
    ensures Binary(Default, g, Mul, Var(a), Var(b)) == Success(Wire(Default, g, Mul, [a, b], y))
  {
    VariablePair(g, a, b);
    assert AsArrayArg(Var(b)) == Var(b);
    assert ArgsData(g, [Var(a), Var(b)]) == [g.vars[a].data, g.vars[b].data];
  }

  /** `mul(x, x)` at `x = 2` builds `SquareGraph`. */
  lemma SquareBuildsGraph()
    ensures Binary(Default, One(2.0), Mul, Var(0), Var(0)) == Success((SquareGraph, 1))
  {
    var xs := [Some(Scalar(2.0)), Some(Scalar(2.0))];
    assert Values(xs) == [2.0, 2.0];
    assert Forward(Mul, xs) == Success([Scalar(4.0)]);
    MulOfPair(One(2.0), 0, 0, Scalar(4.0));
    SquareWire();
  }

  /** The output holding 4 is wired to a new Mul of generation 0. */
  lemma SquareWire()
    ensures Wire(Default, One(2.0), Mul, [0, 0], Scalar(4.0)) == (SquareGraph, 1)
  {
    var g := One(2.0);
    assert MaxGeneration(g.vars, [0, 0]) == 0;
    var fn := Function(Mul, [0, 0], [1], 0);
    assert SetCreator(Root(Some(Scalar(4.0)), None), 0, fn) == SquareGraph.vars[1];
    assert g.vars + [SquareGraph.vars[1]] == SquareGraph.vars;
    assert g.funcs + [fn] == SquareGraph.funcs;
  }

  /** `mul(x * x, x)` then builds the graph `CubeAt` walks. */
  lemma CubeBuildsGraph()
    ensures Binary(Default, SquareGraph, Mul, Var(1), Var(0)) == Success((CubeAt([None, None, None]), 2))
  {
    var xs := [Some(Scalar(4.0)), Some(Scalar(2.0))];
    assert Values(xs) == [4.0, 2.0];
    assert Forward(Mul, xs) == Success([Scalar(8.0)]);
    MulOfPair(SquareGraph, 1, 0, Scalar(8.0));
    CubeWire();
  }

  /** The output holding 8 is wired to a new Mul of generation 1. */
  lemma CubeWire()
    ensures Wire(Default, SquareGraph, Mul, [1, 0], Scalar(8.0)) == (CubeAt([None, None, None]), 2)
  {
    var g := SquareGraph;
    var c := CubeAt([None, None, None]);
    assert MaxGeneration(g.vars, [1, 0]) == 1;
    var fn := Function(Mul, [1, 0], [2], 1);
    assert SetCreator(Root(Some(Scalar(8.0)), None), 1, fn) == c.vars[2];
    assert g.vars + [c.vars[2]] == c.vars;
    assert g.funcs + [fn] == c.funcs;
  }

  /** `y = x * x * x` (Python's `(x * x) * x`) at `x = 2`, built through
      `mul` twice, is the graph `CubeAt` with no gradients yet. */
  lemma CubeIsBuilt()
    ensures var r := Binary(Default, One(2.0), Mul, Var(0), Var(0));
            && r.Success? && r.value.1 < |r.value.0.vars|
            && Binary(Default, r.value.0, Mul, Var(r.value.1), Var(0)) == Success((CubeAt([None, None, None]), 2))
  {
    SquareBuildsGraph();
    CubeBuildsGraph();
  }

  /** The gradients `zip(xs, gxs)` hands to `v` for a two-input Function. */
  lemma PairContributions(v: nat, a: nat, b: nat, ga: Option<real>, gb: Option<real>)
    ensures Contributions(v, [a, b], [ga, gb]) == (if a == v then [ga] else []) + (if b == v then [gb] else [])
  {
    assert [a, b][1..] == [b] && [ga, gb][1..] == [gb];
    assert [b][1..] == [] && [gb][1..] == [];
    assert Contributions(v, [b], [gb]) == (if b == v then [gb] else []);
  }

  /** Adding one gradient, then two, into a Variable. */
  lemma SumSmall(cur: Option<real>, c: real, d: real)
    ensures Sum(cur, []) == Success(cur)
    ensures Sum(cur, [Some(c)]) == Accumulate(cur, Some(c))
    ensures cur.Some? ==> Sum(cur, [Some(c), Some(d)]) == Success(Some(cur.value + c + d))
  {
    assert [Some(c)][1..] == [];
    assert [Some(c), Some(d)][1..] == [Some(d)];
    if cur.Some? {
      assert Sum(Some(cur.value + c), [Some(d)]) == Success(Some(cur.value + c + d));
    }
  }

  /** A walk over the cube graph whose gradients are `gs` and whose next
      Function is `f`. */
  predicate CubeWalk(w: Walk, gs: seq<Option<real>>, f: nat)
    requires |gs| == 3
  {
    && WalkInv(w) && |w.pending| > 0 && Last(w.pending) == f
    && OnlyGradsDiffer(CubeAt([None, None, None]), w.g)
    && w.g.vars[0].grad == gs[0] && w.g.vars[1].grad == gs[1] && w.g.vars[2].grad == gs[2]
  }

  /** The outer product's rule, with `y.grad == 1`, hands 2 to `x * x` and 4
      to `x`. */
  lemma CubeFirstRule(w: Walk)
    requires CubeWalk(w, [None, None, Some(1.0)], 1)
    ensures Rule(w.g, 1) == Success([Some(2.0), Some(4.0)])
    ensures After(w.g, 1, 0) == Success(Some(4.0))
    ensures After(w.g, 1, 1) == Success(Some(2.0))
    ensures After(w.g, 1, 2) == Success(Some(1.0))
  {
    assert Data(w.g, [1, 0]) == [Some(Scalar(4.0)), Some(Scalar(2.0))];
    assert Grads(w.g, [2]) == [Some(1.0)];
    PairContributions(0, 1, 0, Some(2.0), Some(4.0));
    PairContributions(1, 1, 0, Some(2.0), Some(4.0));
    PairContributions(2, 1, 0, Some(2.0), Some(4.0));
    SumSmall(None, 4.0, 0.0);
    SumSmall(None, 2.0, 0.0);
    SumSmall(Some(1.0), 0.0, 0.0);
  }

  /** The inner product's rule, with `(x * x).grad == 2`, hands 4 to `x`
      twice. */
  lemma CubeSecondRule(w: Walk)
    requires CubeWalk(w, [Some(4.0), Some(2.0), None], 0)
    ensures Rule(w.g, 0) == Success([Some(4.0), Some(4.0)])
    ensures After(w.g, 0, 0) == Success(Some(12.0))
    ensures After(w.g, 0, 1) == Success(Some(2.0))
    ensures After(w.g, 0, 2) == Success(None)
  {
    assert Data(w.g, [0, 0]) == [Some(Scalar(2.0)), Some(Scalar(2.0))];
    assert Grads(w.g, [1]) == [Some(2.0)];
    PairContributions(0, 0, 0, Some(4.0), Some(4.0));
    PairContributions(1, 0, 0, Some(4.0), Some(4.0));
    PairContributions(2, 0, 0, Some(4.0), Some(4.0));
    SumSmall(Some(4.0), 4.0, 4.0);
    SumSmall(Some(2.0), 0.0, 0.0);
    SumSmall(None, 0.0, 0.0);
  }

  lemma FirstTwoDiffer(p: seq<nat>)
    requires NoDup(p) && |p| > 1
    ensures p[0] != p[1] && p[0] in p && p[1] in p
  {
  }

  /** A list without duplicates whose every element is `a`, holding `a`. */
  lemma OnlyElement(p: seq<nat>, a: nat)
    requires NoDup(p) && a in p && forall x :: x in p ==> x == a
    ensures p == [a]
  {
    if |p| > 1 {
      FirstTwoDiffer(p);
      assert false;
    }
  }

  /** After the outer product only the inner product is pending: nothing
      else was, it created `x * x`, an input, and its creator was queued. */
  lemma CubeFirstQueue(w: Walk, s: Walk)
    requires CubeWalk(w, [None, None, Some(1.0)], 1) && w.pending == [1] && w.trace == []
    requires WalkInv(s) && Follows(w, s) && 0 in s.seen
    ensures s.pending == [0]
  {
    assert s.trace == [1] && 0 !in Elems(s.trace);
    assert 0 in Elems(s.pending);
    assert w.g.funcs[1].inputs == [1, 0];
    assert w.g.vars[1].creator == Some(0) && w.g.vars[0].creator.None?;
    forall p | p in s.pending
      ensures p == 0
    {
      assert w.pending[..|w.pending| - 1] == [];
      var j :| 0 <= j < 2 && w.g.vars[[1, 0][j]].creator == Some(p);
    }
    OnlyElement(s.pending, 0);
  }

  /** The first step runs the outer product: `x * x` gets 2, `x` gets 4,
      `y.grad` is cleared and the inner product is the one Function
      pending. */
  lemma CubeFirstStep(w: Walk)
    requires CubeWalk(w, [None, None, Some(1.0)], 1) && w.pending == [1] && w.trace == []
    ensures Step(w, false).1.None?
    ensures CubeWalk(Step(w, false).0, [Some(4.0), Some(2.0), None], 0)
    ensures Step(w, false).0.pending == [0] && Step(w, false).0.trace == [1]
  {
    CubeFirstRule(w);
    StepEffect(w, false);
    var s := Step(w, false).0;
    assert InputsQueued(w.g, 1, s.seen);
    assert w.g.vars[w.g.funcs[1].inputs[0]].creator == Some(0);
    CubeFirstQueue(w, s);
    GradsOnlyTrans(CubeAt([None, None, None]), w.g, s.g);
  }

  /** The second step runs the inner product: `x` ends at 12, `(x * x).grad`
      is cleared and, `x` being a root, nothing is queued. */
  lemma CubeSecondStep(w: Walk)
    requires CubeWalk(w, [Some(4.0), Some(2.0), None], 0) && w.pending == [0]
    ensures Step(w, false).1.None?
    ensures Step(w, false).0.pending == [] && Step(w, false).0.trace == w.trace + [0]
    ensures var h := Step(w, false).0.g;
            h.vars[0].grad == Some(12.0) && h.vars[1].grad.None? && h.vars[2].grad.None?
  {
    CubeSecondRule(w);
    StepEffect(w, false);
    var s := Step(w, false);
  }

  /** `backward()` from `y` seeds its gradient and queues the outer
      product. */
  lemma CubeStart()
    ensures var w := Start(CubeAt([None, None, None]), 2);
            CubeWalk(w, [None, None, Some(1.0)], 1) && w.pending == [1] && w.trace == []
  {
    var w := Start(CubeAt([None, None, None]), 2);
    assert w.g.vars[2].grad == Some(1.0) && w.g.vars[1].grad.None? && w.g.vars[0].grad.None?;
  }

  /** The loop from the seeded walk runs the two products and stops. */
  lemma CubeDrain(w: Walk)
    requires CubeWalk(w, [None, None, Some(1.0)], 1) && w.pending == [1] && w.trace == []
    ensures var d := Drain(w, false);
            && d.1.None? && d.0.trace == [1, 0]
            && d.0.g.vars[0].grad == Some(12.0) && d.0.g.vars[1].grad.None? && d.0.g.vars[2].grad.None?
  {
    CubeFirstStep(w);
    DrainUnfolds(w, false);
    CubeDrainTail(Step(w, false).0);
  }

  /** The loop after the first step runs the inner product and stops. */
  lemma CubeDrainTail(s: Walk)
    requires CubeWalk(s, [Some(4.0), Some(2.0), None], 0) && s.pending == [0] && s.trace == [1]
    ensures var d := Drain(s, false);
            && d.1.None? && d.0.trace == [1, 0]
            && d.0.g.vars[0].grad == Some(12.0) && d.0.g.vars[1].grad.None? && d.0.g.vars[2].grad.None?
  {
    CubeSecondStep(s);
    DrainUnfolds(s, false);
  }

  /** `backward()` from `y = x * x * x` at `x = 2`, on the graph `CubeIsBuilt`
      shows two `mul` calls build, leaves `x.grad == 12`, the derivative 3x²,
      runs the outer product before the inner one and clears the
      intermediate gradients. */
  lemma CubeGradient()
    ensures var r := BackwardSpec(CubeAt([None, None, None]), 2, false);
            && r.error.None? && r.trace == [1, 0]
            && r.g.vars[0].grad == Some(12.0) && r.g.vars[1].grad.None? && r.g.vars[2].grad.None?
  {
    CubeStart();
    CubeDrain(Start(CubeAt([None, None, None]), 2));
  }
}
