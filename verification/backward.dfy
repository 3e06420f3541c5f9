/** `Variable.backward`: the walk over the graph from a Variable back to the
    roots, running each Function's local gradient rule once, latest
    generation first, and accumulating the results into the inputs'
    gradients. */
module Backprop {
  import opened Wrappers
  import opened Errors
  import opened Arena
  import opened Ops

  /** The state of the walk: the graph with its gradients so far, the list of
      Functions waiting to run (`funcs` in the source), the set of Functions
      ever added to it (`seen_set`) and, for the statement of properties,
      the Functions run so far in order. */
  datatype Walk = Walk(g: Graph, pending: seq<nat>, seen: set<nat>, trace: seq<nat>)

  function Elems(s: seq<nat>): set<nat> {
    set x | x in s
  }

  predicate NoDup(s: seq<nat>) {
    forall i, j :: 0 <= i < j < |s| ==> s[i] != s[j]
  }

  /** The Functions `p` are in non-decreasing order of generation. */
  predicate Sorted(funcs: seq<Function>, p: seq<nat>)
    requires Refs(p, |funcs|)
  {
    forall i, j :: 0 <= i < j < |p| ==> funcs[p[i]].generation <= funcs[p[j]].generation
  }

  /** The position after the last Function of `p`, counted from the right,
      whose generation is at most that of `f`. */
  function InsertPos(funcs: seq<Function>, p: seq<nat>, f: nat): (k: nat)
    requires Refs(p, |funcs|) && f < |funcs|
    ensures k <= |p|
    ensures forall i :: k <= i < |p| ==> funcs[p[i]].generation > funcs[f].generation
    ensures Sorted(funcs, p) ==> forall i :: 0 <= i < k ==> funcs[p[i]].generation <= funcs[f].generation
  {
    if |p| == 0 then 0
    else if funcs[p[|p| - 1]].generation <= funcs[f].generation then |p|
    else InsertPos(funcs, p[..|p| - 1], f)
  }

  /** `funcs.append(f)` followed by `funcs.sort(key=lambda x: x.generation)`
      on a list already in order. */
  function Insert(funcs: seq<Function>, p: seq<nat>, f: nat): (r: seq<nat>)
    requires Refs(p, |funcs|) && f < |funcs|
    ensures |r| == |p| + 1 && Refs(r, |funcs|)
    ensures multiset(r) == multiset(p) + multiset{f}
  {
    var k := InsertPos(funcs, p, f);
    Spliced(p, k, f, |funcs|);
    p[..k] + [f] + p[k..]
  }

  lemma Spliced(p: seq<nat>, k: nat, f: nat, n: nat)
    requires k <= |p| && Refs(p, n) && f < n
    ensures Refs(p[..k] + [f] + p[k..], n)
    ensures multiset(p[..k] + [f] + p[k..]) == multiset(p) + multiset{f}
  {
    assert p == p[..k] + p[k..];
    var r := p[..k] + [f] + p[k..];
    forall i | 0 <= i < |r|
      ensures r[i] < n
    {
      if i < k {
        assert r[i] == p[i];
      } else if i > k {
        assert r[i] == p[i - 1];
      }
    }
  }

  /** Inserting `f` adds `f` and nothing else. */
  lemma InsertElems(funcs: seq<Function>, p: seq<nat>, f: nat)
    requires Refs(p, |funcs|) && f < |funcs|
    ensures Elems(Insert(funcs, p, f)) == Elems(p) + {f}
  {
    var k := InsertPos(funcs, p, f);
    var r := Insert(funcs, p, f);
    forall x | x in r ensures x in p || x == f {
      var i :| 0 <= i < |r| && r[i] == x;
      if i > k { assert p[i - 1] == x; }
      if i < k { assert p[i] == x; }
    }
    forall x | x in p ensures x in r {
      var i :| 0 <= i < |p| && p[i] == x;
      if i < k { assert r[i] == x; } else { assert r[i + 1] == x; }
    }
    assert f == r[k];
  }

  /** Inserting keeps the list in generation order. */
  lemma InsertSorted(funcs: seq<Function>, p: seq<nat>, f: nat)
    requires Refs(p, |funcs|) && f < |funcs| && Sorted(funcs, p)
    ensures Sorted(funcs, Insert(funcs, p, f))
  {
    var k := InsertPos(funcs, p, f);
    var r := Insert(funcs, p, f);
    forall i, j | 0 <= i < j < |r|
      ensures funcs[r[i]].generation <= funcs[r[j]].generation
    {
      var a := if i < k then i else i - 1;
      var b := if j < k then j else j - 1;
      if i != k && j != k {
        assert r[i] == p[a] && r[j] == p[b];
      } else if i == k {
        assert r[j] == p[b];
      } else {
        assert r[i] == p[a];
      }
    }
  }

  /** Inserting a Function not yet in the list repeats nothing. */
  lemma InsertNoDup(funcs: seq<Function>, p: seq<nat>, f: nat)
    requires Refs(p, |funcs|) && f < |funcs| && NoDup(p) && f !in p
    ensures NoDup(Insert(funcs, p, f))
  {
    var k := InsertPos(funcs, p, f);
    var r := Insert(funcs, p, f);
    forall i, j | 0 <= i < j < |r|
      ensures r[i] != r[j]
    {
      var a := if i < k then i else i - 1;
      var b := if j < k then j else j - 1;
      if i != k && j != k {
        assert r[i] == p[a] && r[j] == p[b];
      } else if i == k {
        assert r[j] == p[b];
      } else {
        assert r[i] == p[a];
      }
    }
  }

  /** The Functions of `p` with generation at most `n`, in order. */
  function AtMost(funcs: seq<Function>, p: seq<nat>, n: nat): (r: seq<nat>)
    requires Refs(p, |funcs|)
    ensures Refs(r, |funcs|)
  {
    if |p| == 0 then []
    else if funcs[p[|p| - 1]].generation <= n then AtMost(funcs, p[..|p| - 1], n) + [p[|p| - 1]]
    else AtMost(funcs, p[..|p| - 1], n)
  }

  /** The Functions of `p` with generation above `n`, in order. */
  function Above(funcs: seq<Function>, p: seq<nat>, n: nat): (r: seq<nat>)
    requires Refs(p, |funcs|)
    ensures Refs(r, |funcs|)
  {
    if |p| == 0 then []
    else if funcs[p[|p| - 1]].generation > n then Above(funcs, p[..|p| - 1], n) + [p[|p| - 1]]
    else Above(funcs, p[..|p| - 1], n)
  }

  /** What a stable sort by generation makes of `p + [f]` when `p` is in
      order: first the Functions of generation at most `f`'s, in their order,
      then `f`, which came after them, then the rest. */
  function StableSortAppended(funcs: seq<Function>, p: seq<nat>, f: nat): seq<nat>
    requires Refs(p, |funcs|) && f < |funcs|
  {
    AtMost(funcs, p, funcs[f].generation) + [f] + Above(funcs, p, funcs[f].generation)
  }

  lemma {:induction false} AllAtMost(funcs: seq<Function>, p: seq<nat>, n: nat)
    requires Refs(p, |funcs|)
    requires forall i :: 0 <= i < |p| ==> funcs[p[i]].generation <= n
    ensures AtMost(funcs, p, n) == p && Above(funcs, p, n) == []
  {
    if |p| > 0 {
      AllAtMost(funcs, p[..|p| - 1], n);
      assert p == p[..|p| - 1] + [p[|p| - 1]];
    }
  }

  /** Insertion from the right is the stable sort of the appended list. */
  lemma {:induction false} InsertIsStableSort(funcs: seq<Function>, p: seq<nat>, f: nat)
    requires Refs(p, |funcs|) && f < |funcs| && Sorted(funcs, p)
    ensures Insert(funcs, p, f) == StableSortAppended(funcs, p, f)
  {
    var n := funcs[f].generation;
    if |p| == 0 {
    } else if funcs[p[|p| - 1]].generation <= n {
      assert forall i :: 0 <= i < |p| ==> funcs[p[i]].generation <= funcs[p[|p| - 1]].generation;
      AllAtMost(funcs, p, n);
      assert p[..|p|] == p;
    } else {
      var q := p[..|p| - 1];
      assert Sorted(funcs, q);
      InsertIsStableSort(funcs, q, f);
      InsertBeforeLast(funcs, p, f);
      assert AtMost(funcs, p, n) == AtMost(funcs, q, n);
      assert Above(funcs, p, n) == Above(funcs, q, n) + [p[|p| - 1]];
    }
  }

  /** When the last pending Function is of a later generation, `f` goes in
      before it. */
  lemma InsertBeforeLast(funcs: seq<Function>, p: seq<nat>, f: nat)
    requires Refs(p, |funcs|) && f < |funcs| && |p| > 0
    requires funcs[p[|p| - 1]].generation > funcs[f].generation
    ensures Insert(funcs, p, f) == Insert(funcs, p[..|p| - 1], f) + [p[|p| - 1]]
  {
    var q := p[..|p| - 1];
    assert InsertPos(funcs, p, f) == InsertPos(funcs, q, f);
    var k := InsertPos(funcs, q, f);
    assert p[..k] == q[..k];
    assert p[k..] == q[k..] + [p[|p| - 1]];
  }

  /** One gradient added into a Variable: `x.grad = gx` when it had none,
      `x.grad = x.grad + gx` otherwise, where adding `None` to an array
      raises TypeError. */
  function Accumulate(cur: Option<real>, gx: Option<real>): (r: Result<Option<real>, Error>)
    ensures r.Failure? <==> cur.Some? && gx.None?
    ensures r.Failure? ==> r.error == TypeError
    ensures r.Success? && cur.Some? ==> r.value == Some(cur.value + gx.value)
    ensures cur.None? ==> r == Success(gx)
  {
    match cur
    case None => Success(gx)
    case Some(c) =>
      match gx
      case None => Failure(TypeError)
      case Some(d) => Success(Some(c + d))
  }

  /** A run of gradients added into a Variable one after the other. */
  function Sum(cur: Option<real>, cs: seq<Option<real>>): Result<Option<real>, Error>
    decreases |cs|
  {
    if |cs| == 0 then Success(cur)
    else
      match Accumulate(cur, cs[0])
      case Failure(e) => Failure(e)
      case Success(c) => Sum(c, cs[1..])
  }

  /** When every contribution is present, the gradient grows by their total. */
  function Total(cs: seq<Option<real>>): real
    requires forall i :: 0 <= i < |cs| ==> cs[i].Some?
    decreases |cs|
  {
    if |cs| == 0 then 0.0 else cs[0].value + Total(cs[1..])
  }

  lemma {:induction false} SumOfPresent(cur: real, cs: seq<Option<real>>)
    requires forall i :: 0 <= i < |cs| ==> cs[i].Some?
    ensures Sum(Some(cur), cs) == Success(Some(cur + Total(cs)))
    decreases |cs|
  {
    if |cs| > 0 {
      SumOfPresent(cur + cs[0].value, cs[1..]);
    }
  }

  /** The gradients `zip(xs, gxs)` hands to Variable `v`, in order. */
  function Contributions(v: nat, xs: seq<nat>, gxs: seq<Option<real>>): seq<Option<real>>
    decreases |xs|
  {
    if |xs| == 0 || |gxs| == 0 then []
    else if xs[0] == v then [gxs[0]] + Contributions(v, xs[1..], gxs[1..])
    else Contributions(v, xs[1..], gxs[1..])
  }

  lemma {:induction false} NoContributions(v: nat, xs: seq<nat>, gxs: seq<Option<real>>)
    requires v !in xs
    ensures Contributions(v, xs, gxs) == []
    decreases |xs|
  {
    if |xs| > 0 && |gxs| > 0 {
      NoContributions(v, xs[1..], gxs[1..]);
    }
  }

  /** `add_func(f)`: a Function not seen before joins the pending list in
      generation order; one seen before is ignored. */
  function AddFunc(w: Walk, f: nat): (r: Walk)
    requires Refs(w.pending, |w.g.funcs|) && f < |w.g.funcs|
    ensures r.g == w.g && r.trace == w.trace
    ensures r.seen == w.seen + {f}
    ensures f in w.seen ==> r == w
    ensures f !in w.seen ==> r.pending == Insert(w.g.funcs, w.pending, f)
  {
    if f in w.seen then w
    else w.(pending := Insert(w.g.funcs, w.pending, f), seen := w.seen + {f})
  }

  /** Every index of the walk names a slot of the arena. */
  predicate Indexed(w: Walk) {
    Valid(w.g) && Refs(w.pending, |w.g.funcs|) && Refs(w.trace, |w.g.funcs|)
  }

  /** The bookkeeping of the walk: indices in range, the pending list in
      generation order, no Function twice in it or in the trace or in both,
      and `seen_set` holding exactly the Functions run or pending. */
  predicate WalkInv(w: Walk) {
    && Indexed(w)
    && Sorted(w.g.funcs, w.pending)
    && NoDup(w.pending) && NoDup(w.trace)
    && (forall i :: 0 <= i < |w.trace| ==> w.trace[i] !in w.pending)
    && w.seen == Elems(w.trace) + Elems(w.pending)
  }

  lemma AddFuncKeepsInv(w: Walk, f: nat)
    requires WalkInv(w) && f < |w.g.funcs|
    ensures WalkInv(AddFunc(w, f))
  {
    if f !in w.seen {
      InsertElems(w.g.funcs, w.pending, f);
      InsertSorted(w.g.funcs, w.pending, f);
      InsertNoDup(w.g.funcs, w.pending, f);
    }
  }

  /** The walk after the gradient of input `x` became `c` and, when `x` has
      a creator, `add_func(x.creator)` ran. */
  function Visit(w: Walk, x: nat, c: Option<real>): (r: Walk)
    requires WalkInv(w) && x < |w.g.vars|
    ensures WalkInv(r) && OnlyGradsDiffer(w.g, r.g) && r.trace == w.trace
    ensures r.g == SetGrad(w.g, x, c)
    ensures w.seen <= r.seen && (r.seen == w.seen ==> r.pending == w.pending)
    ensures w.g.vars[x].creator.Some? ==> w.g.vars[x].creator.value in r.seen
    ensures forall i :: 0 <= i < |r.pending| ==> r.pending[i] in w.pending || Some(r.pending[i]) == w.g.vars[x].creator
  {
    var g1 := SetGrad(w.g, x, c);
    GradsDoNotMatter(w.g, g1);
    var w1 := w.(g := g1);
    match w.g.vars[x].creator
    case None => w1
    case Some(f) =>
      AddFuncKeepsInv(w1, f);
      InsertElems(w.g.funcs, w.pending, f);
      AddFunc(w1, f)
  }

  /** The loop `for x, gx in zip(f.inputs, gxs)`: each gradient is added into
      its input, and the input's creator, if any, is handed to `add_func`.
      The first failing addition stops the loop, with the earlier ones
      done. */
  function Propagate(w: Walk, xs: seq<nat>, gxs: seq<Option<real>>): (r: (Walk, Option<Error>))
    requires WalkInv(w) && Refs(xs, |w.g.vars|)
    ensures WalkInv(r.0) && OnlyGradsDiffer(w.g, r.0.g) && r.0.trace == w.trace
    ensures w.seen <= r.0.seen && (r.0.seen == w.seen ==> r.0.pending == w.pending)
    ensures r.1.Some? ==> r.1.value == TypeError
    decreases |xs|
  {
    if |xs| == 0 || |gxs| == 0 then (w, None)
    else
      match Accumulate(w.g.vars[xs[0]].grad, gxs[0])
      case Failure(e) => (w, Some(e))
      case Success(c) => Propagate(Visit(w, xs[0], c), xs[1..], gxs[1..])
  }

  /** Function `f` is the creator of one of the Variables `xs`. */
  predicate CreatesInput(g: Graph, xs: seq<nat>, f: nat)
    requires Refs(xs, |g.vars|)
  {
    exists j :: 0 <= j < |xs| && g.vars[xs[j]].creator == Some(f)
  }

  /** Every Function `Propagate` leaves pending was pending before or is the
      creator of one of the inputs. */
  lemma {:induction false} PropagateSources(w: Walk, xs: seq<nat>, gxs: seq<Option<real>>)
    requires WalkInv(w) && Refs(xs, |w.g.vars|)
    ensures forall p :: p in Propagate(w, xs, gxs).0.pending ==> p in w.pending || CreatesInput(w.g, xs, p)
    decreases |xs|
  {
    if |xs| > 0 && |gxs| > 0 && Accumulate(w.g.vars[xs[0]].grad, gxs[0]).Success? {
      var w2 := Visit(w, xs[0], Accumulate(w.g.vars[xs[0]].grad, gxs[0]).value);
      PropagateSources(w2, xs[1..], gxs[1..]);
      var r := Propagate(w, xs, gxs).0;
      assert r == Propagate(w2, xs[1..], gxs[1..]).0;
      forall p | p in r.pending && p !in w.pending
        ensures CreatesInput(w.g, xs, p)
      {
        if p in w2.pending {
          assert w.g.vars[xs[0]].creator == Some(p);
        } else {
          var j :| 0 <= j < |xs[1..]| && w2.g.vars[xs[1..][j]].creator == Some(p);
          assert w.g.vars[xs[j + 1]].creator == Some(p);
        }
      }
    }
  }

  /** When `Propagate` completes, the creator of every input it reached has
      been seen. */
  lemma {:induction false} PropagateReaches(w: Walk, xs: seq<nat>, gxs: seq<Option<real>>)
    requires WalkInv(w) && Refs(xs, |w.g.vars|)
    ensures Propagate(w, xs, gxs).1.None? ==> CreatorsIn(w.g, xs, |gxs|, Propagate(w, xs, gxs).0.seen)
    decreases |xs|
  {
    if |xs| > 0 && |gxs| > 0 && Accumulate(w.g.vars[xs[0]].grad, gxs[0]).Success? {
      var w2 := Visit(w, xs[0], Accumulate(w.g.vars[xs[0]].grad, gxs[0]).value);
      PropagateReaches(w2, xs[1..], gxs[1..]);
      var r := Propagate(w, xs, gxs);
      assert r == Propagate(w2, xs[1..], gxs[1..]);
      if r.1.None? {
        CreatorsInCons(w.g, w2.g, xs, |gxs|, r.0.seen);
      }
    }
  }

  /** The creator of each of the first `m` Variables `xs` that has one is in
      `seen`. */
  predicate CreatorsIn(g: Graph, xs: seq<nat>, m: nat, seen: set<nat>)
    requires Refs(xs, |g.vars|)
  {
    forall j :: 0 <= j < |xs| && j < m && g.vars[xs[j]].creator.Some? ==> g.vars[xs[j]].creator.value in seen
  }

  lemma CreatorsInCons(g: Graph, h: Graph, xs: seq<nat>, m: nat, seen: set<nat>)
    requires OnlyGradsDiffer(g, h) && Refs(xs, |g.vars|) && |xs| > 0 && m > 0
    requires g.vars[xs[0]].creator.Some? ==> g.vars[xs[0]].creator.value in seen
    requires CreatorsIn(h, xs[1..], m - 1, seen)
    ensures CreatorsIn(g, xs, m, seen)
  {
    forall j | 0 <= j < |xs| && j < m && g.vars[xs[j]].creator.Some?
      ensures g.vars[xs[j]].creator.value in seen
    {
      if j > 0 {
        assert xs[1..][j - 1] == xs[j];
        assert h.vars[xs[j]].creator == g.vars[xs[j]].creator;
      }
    }
  }

  /** A Variable that is not an input keeps its gradient. */
  lemma {:induction false} PropagateFrame(w: Walk, xs: seq<nat>, gxs: seq<Option<real>>, v: nat)
    requires WalkInv(w) && Refs(xs, |w.g.vars|) && v < |w.g.vars| && v !in xs
    ensures Propagate(w, xs, gxs).0.g.vars[v].grad == w.g.vars[v].grad
    decreases |xs|
  {
    if |xs| > 0 && |gxs| > 0 && Accumulate(w.g.vars[xs[0]].grad, gxs[0]).Success? {
      var w2 := Visit(w, xs[0], Accumulate(w.g.vars[xs[0]].grad, gxs[0]).value);
      assert v !in xs[1..];
      PropagateFrame(w2, xs[1..], gxs[1..], v);
    }
  }

  /** Each Variable's gradient receives its own contributions in order, so
      `Propagate` completes exactly when no Variable's run of additions
      fails, and then each gradient is the result of that run; in
      particular an input passed twice, as in `add(x, x)`, receives both. */
  lemma {:induction false} PropagateSums(w: Walk, xs: seq<nat>, gxs: seq<Option<real>>)
    requires WalkInv(w) && Refs(xs, |w.g.vars|)
    ensures var r := Propagate(w, xs, gxs);
            && (r.1.None? <==> forall v :: 0 <= v < |w.g.vars| ==> Sum(w.g.vars[v].grad, Contributions(v, xs, gxs)).Success?)
            && (r.1.None? ==> forall v :: 0 <= v < |w.g.vars| ==>
                  r.0.g.vars[v].grad == Sum(w.g.vars[v].grad, Contributions(v, xs, gxs)).value)
    decreases |xs|
  {
    var r := Propagate(w, xs, gxs);
    if |xs| == 0 || |gxs| == 0 {
    } else {
      var x := xs[0];
      match Accumulate(w.g.vars[x].grad, gxs[0])
      case Failure(e) =>
        assert Contributions(x, xs, gxs)[0] == gxs[0];
        assert !Sum(w.g.vars[x].grad, Contributions(x, xs, gxs)).Success?;
      case Success(c) =>
        var w2 := Visit(w, x, c);
        PropagateSums(w2, xs[1..], gxs[1..]);
        assert r == Propagate(w2, xs[1..], gxs[1..]);
        forall v | 0 <= v < |w.g.vars|
          ensures Sum(w.g.vars[v].grad, Contributions(v, xs, gxs)) == Sum(w2.g.vars[v].grad, Contributions(v, xs[1..], gxs[1..]))
        {
          if v == x {
            var rest := Contributions(v, xs[1..], gxs[1..]);
            assert Contributions(v, xs, gxs) == [gxs[0]] + rest;
            assert ([gxs[0]] + rest)[1..] == rest;
          }
        }
    }
  }

  /** The gradients of the Variables `ids`: `[output().grad for output in
      f.outputs]`. */
  function Grads(g: Graph, ids: seq<nat>): (gs: seq<Option<real>>)
    requires Refs(ids, |g.vars|)
    ensures |gs| == |ids| && forall i :: 0 <= i < |ids| ==> gs[i] == g.vars[ids[i]].grad
  {
    seq(|ids|, i requires 0 <= i < |ids| => g.vars[ids[i]].grad)
  }

  /** The data of the Variables `ids`, which the rules of Mul, Div and Pow
      read from `self.inputs`. */
  function Data(g: Graph, ids: seq<nat>): (xs: seq<Option<Tensor>>)
    requires Refs(ids, |g.vars|)
    ensures |xs| == |ids| && forall i :: 0 <= i < |ids| ==> xs[i] == g.vars[ids[i]].data
  {
    seq(|ids|, i requires 0 <= i < |ids| => g.vars[ids[i]].data)
  }

  /** `for output in f.outputs: output().grad = None`. */
  function ClearGrads(g: Graph, ids: seq<nat>): (h: Graph)
    requires Refs(ids, |g.vars|)
    ensures OnlyGradsDiffer(g, h)
    ensures forall v :: 0 <= v < |g.vars| ==> h.vars[v].grad == if v in ids then None else g.vars[v].grad
    decreases |ids|
  {
    if |ids| == 0 then g
    else
      var h := ClearGrads(CleargradAt(g, ids[0]), ids[1..]);
      assert forall v :: v in ids <==> v == ids[0] || v in ids[1..];
      h
  }

  /** `f = funcs.pop()`, recorded in the trace. */
  function Pop(w: Walk): (r: Walk)
    requires WalkInv(w) && |w.pending| > 0
    ensures WalkInv(r) && r.g == w.g && r.seen == w.seen
    ensures r.pending == w.pending[..|w.pending| - 1]
    ensures r.trace == w.trace + [w.pending[|w.pending| - 1]]
  {
    var n := |w.pending| - 1;
    var f := w.pending[n];
    assert w.pending == w.pending[..n] + [f];
    assert Elems(w.trace + [f]) == Elems(w.trace) + {f};
    assert Elems(w.pending) == Elems(w.pending[..n]) + {f};
    assert f !in w.pending[..n];
    w.(pending := w.pending[..n], trace := w.trace + [f])
  }

  /** What Function `f`'s backward rule returns for its inputs, given its
      outputs' gradients and its inputs' data in `g`. */
  function Rule(g: Graph, f: nat): Result<seq<Option<real>>, Error>
    requires Valid(g) && f < |g.funcs|
  {
    LocalGradient(g.funcs[f].kind, Data(g, g.funcs[f].inputs), Grads(g, g.funcs[f].outputs))
  }

  /** Variable `v`'s gradient after the contributions of `f`'s rule were
      added into it, or the error an addition raised. */
  function After(g: Graph, f: nat, v: nat): Result<Option<real>, Error>
    requires Valid(g) && f < |g.funcs| && v < |g.vars| && Rule(g, f).Success?
  {
    Sum(g.vars[v].grad, Contributions(v, g.funcs[f].inputs, Rule(g, f).value))
  }

  lemma GradsOnlyTrans(a: Graph, b: Graph, c: Graph)
    requires OnlyGradsDiffer(a, b) && OnlyGradsDiffer(b, c)
    ensures OnlyGradsDiffer(a, c)
  {
  }

  /** The Function the next step runs. */
  function Last(p: seq<nat>): nat
    requires |p| > 0
  {
    p[|p| - 1]
  }

  /** The walk `s` follows `w` by running `w`'s last pending Function: same
      Functions, that one appended to the trace, and every newly pending
      Function either pending before or the creator of one of its inputs. */
  predicate Follows(w: Walk, s: Walk)
    requires Indexed(w) && Indexed(s) && |w.pending| > 0
  {
    && OnlyGradsDiffer(w.g, s.g)
    && s.trace == w.trace + [Last(w.pending)]
    && forall p :: p in s.pending ==> p in w.pending[..|w.pending| - 1] || CreatesInput(w.g, w.g.funcs[Last(w.pending)].inputs, p)
  }

  /** One pass of the `while funcs:` loop: pop the Function of latest
      generation, run its backward rule on its outputs' gradients, add the
      results into its inputs and queue their creators, and, unless
      `retain_grad`, clear its outputs' gradients. An error leaves the walk
      as far as it got. */
  function Step(w: Walk, retain: bool): (r: (Walk, Option<Error>))
    requires WalkInv(w) && |w.pending| > 0
    ensures WalkInv(r.0) && OnlyGradsDiffer(w.g, r.0.g)
    ensures r.0.trace == w.trace + [Last(w.pending)]
    ensures w.seen <= r.0.seen && (r.0.seen == w.seen ==> r.0.pending == w.pending[..|w.pending| - 1])
    // What is pending now was pending before or created one of the inputs.
    ensures Follows(w, r.0)
  {
    var w1 := Pop(w);
    var f := Last(w.pending);
    var fn := w.g.funcs[f];
    assert w1.trace == w.trace + [f];
    match Rule(w.g, f)
    case Failure(e) => (w1, Some(e))
    case Success(gxs) =>
      PropagateSources(w1, fn.inputs, gxs);
      var (w2, err) := Propagate(w1, fn.inputs, gxs);
      if err.Some? || retain then (w2, err)
      else
        var h := ClearGrads(w2.g, fn.outputs);
        GradsDoNotMatter(w2.g, h);
        GradsOnlyTrans(w.g, w2.g, h);
        (w2.(g := h), None)
  }

  /** What a step does to the gradients, and which creators it queues. */
  lemma StepEffect(w: Walk, retain: bool)
    requires WalkInv(w) && |w.pending| > 0
    // The step fails exactly when the rule fails or one of the additions does.
    ensures Step(w, retain).1.None? <==>
              Rule(w.g, Last(w.pending)).Success? &&
              forall v :: 0 <= v < |w.g.vars| ==> After(w.g, Last(w.pending), v).Success?
    // Each gradient gains its contributions; the outputs' are then cleared.
    ensures Step(w, retain).1.None? ==> forall v :: 0 <= v < |w.g.vars| ==>
              Step(w, retain).0.g.vars[v].grad ==
                (if !retain && v in w.g.funcs[Last(w.pending)].outputs then None
                 else After(w.g, Last(w.pending), v).value)
    // After a complete step the creator of every input the rule covered is seen.
    ensures Step(w, retain).1.None? ==> InputsQueued(w.g, Last(w.pending), Step(w, retain).0.seen)
  {
    StepSums(w, retain);
    StepQueues(w, retain);
  }

  lemma StepSums(w: Walk, retain: bool)
    requires WalkInv(w) && |w.pending| > 0
    ensures Step(w, retain).1.None? <==>
              Rule(w.g, Last(w.pending)).Success? &&
              forall v :: 0 <= v < |w.g.vars| ==> After(w.g, Last(w.pending), v).Success?
    ensures Step(w, retain).1.None? ==> forall v :: 0 <= v < |w.g.vars| ==>
              Step(w, retain).0.g.vars[v].grad ==
                (if !retain && v in w.g.funcs[Last(w.pending)].outputs then None
                 else After(w.g, Last(w.pending), v).value)
  {
    var w1 := Pop(w);
    var f := Last(w.pending);
    var fn := w.g.funcs[f];
    if Rule(w.g, f).Success? {
      var gxs := Rule(w.g, f).value;
      PropagateSums(w1, fn.inputs, gxs);
      var p := Propagate(w1, fn.inputs, gxs);
      assert Step(w, retain).1 == p.1;
      assert p.1.None? ==> Step(w, retain).0.g == if retain then p.0.g else ClearGrads(p.0.g, fn.outputs);
      forall v | 0 <= v < |w.g.vars|
        ensures After(w.g, f, v) == Sum(w1.g.vars[v].grad, Contributions(v, fn.inputs, gxs))
      {
      }
    }
  }

  lemma StepQueues(w: Walk, retain: bool)
    requires WalkInv(w) && |w.pending| > 0
    ensures Step(w, retain).1.None? ==> InputsQueued(w.g, Last(w.pending), Step(w, retain).0.seen)
  {
    var w1 := Pop(w);
    var f := Last(w.pending);
    var fn := w.g.funcs[f];
    if Rule(w.g, f).Success? {
      var gxs := Rule(w.g, f).value;
      PropagateReaches(w1, fn.inputs, gxs);
    }
  }

  /** The indices of a list of `n` Functions. */
  function Range(n: nat): (s: set<nat>)
    ensures forall i: nat :: i in s <==> i < n
  {
    if n == 0 then {} else Range(n - 1) + {n - 1}
  }

  lemma SeenInRange(w: Walk)
    requires WalkInv(w)
    ensures w.seen <= Range(|w.g.funcs|)
  {
  }

  /** Seeing one more Function leaves fewer to see. */
  lemma FewerUnseen(all: set<nat>, s: set<nat>, t: set<nat>)
    requires s <= t <= all
    ensures s != t ==> |all - t| < |all - s|
  {
    if s == t { return; }
    assert !(t <= s);
    var x :| x in t && x !in s;
    assert all - s == (all - t) + (t - s);
    assert (all - t) * (t - s) == {};
    assert |t - s| >= 1 by { assert x in t - s; }
  }

  /** The unseen Functions become fewer, or stay the same while the pending
      list shrinks: the measure under which the loop ends. */
  lemma StepProgresses(w: Walk, retain: bool)
    requires WalkInv(w) && |w.pending| > 0
    ensures var s := Step(w, retain).0;
            var unseen := Range(|w.g.funcs|) - w.seen;
            || |Range(|w.g.funcs|) - s.seen| < |unseen|
            || (Range(|w.g.funcs|) - s.seen == unseen && |s.pending| < |w.pending|)
  {
    var s := Step(w, retain).0;
    SeenInRange(s);
    FewerUnseen(Range(|w.g.funcs|), w.seen, s.seen);
  }

  /** The trace only grows at its end. */
  predicate Extended(a: seq<nat>, b: seq<nat>) {
    |a| <= |b| && b[..|a|] == a
  }

  lemma ExtendedTrans(a: seq<nat>, b: seq<nat>, c: seq<nat>)
    requires Extended(a, b) && Extended(b, c)
    ensures Extended(a, c)
  {
    assert c[..|a|] == c[..|b|][..|a|];
  }

  /** A step appends to the trace and keeps the graph's stamps. */
  lemma StepExtends(w: Walk, retain: bool)
    requires WalkInv(w) && |w.pending| > 0
    ensures Extended(w.trace, Step(w, retain).0.trace) && |w.trace| < |Step(w, retain).0.trace|
    ensures Consistent(w.g) ==> Consistent(Step(w, retain).0.g)
  {
    var s := Step(w, retain).0;
    GradsDoNotMatter(w.g, s.g);
    assert s.trace[..|w.trace|] == w.trace;
  }

  /** The generation of Function `f`. */
  function Gen(g: Graph, f: nat): nat
    requires f < |g.funcs|
  {
    g.funcs[f].generation
  }

  /** The Functions `trace` are in non-increasing order of generation. */
  predicate LatestFirst(g: Graph, trace: seq<nat>)
    requires Refs(trace, |g.funcs|)
  {
    forall i, j :: 0 <= i < j < |trace| ==> Gen(g, trace[j]) <= Gen(g, trace[i])
  }

  /** In `trace`, each Function comes before the creators of its inputs. */
  predicate CreatorsLater(g: Graph, trace: seq<nat>)
    requires Valid(g) && Refs(trace, |g.funcs|)
  {
    forall i, j, k ::
      (0 <= i < |trace| && 0 <= j < |trace| && 0 <= k < |g.funcs[trace[i]].inputs| &&
       g.vars[g.funcs[trace[i]].inputs[k]].creator == Some(trace[j])) ==> i < j
  }

  /** Functions ran latest generation first, and nothing pending is later
      than the last one that ran. */
  predicate Ordered(w: Walk)
    requires Indexed(w)
  {
    && LatestFirst(w.g, w.trace)
    && (|w.trace| > 0 ==> forall i :: 0 <= i < |w.pending| ==> Gen(w.g, w.pending[i]) <= Gen(w.g, Last(w.trace)))
  }

  /** The creator of every input Function `f` hands a gradient to (the first
      `Arity` of them, as `zip` stops at the shorter list) is in `seen`. */
  predicate InputsQueued(g: Graph, f: nat, seen: set<nat>)
    requires Valid(g) && f < |g.funcs|
  {
    forall j :: 0 <= j < |g.funcs[f].inputs| && j < Arity(g.funcs[f].kind) && g.vars[g.funcs[f].inputs[j]].creator.Some? ==>
      g.vars[g.funcs[f].inputs[j]].creator.value in seen
  }

  /** The Functions that ran have had the creators of their inputs queued. */
  predicate Closed(w: Walk)
    requires Indexed(w)
  {
    AllQueued(w.g, w.trace, w.seen)
  }

  predicate AllQueued(g: Graph, trace: seq<nat>, seen: set<nat>)
    requires Valid(g) && Refs(trace, |g.funcs|)
  {
    forall i :: 0 <= i < |trace| ==> InputsQueued(g, trace[i], seen)
  }

  /** Every output of Function `f` has no gradient. */
  predicate OutputsCleared(g: Graph, f: nat)
    requires Valid(g) && f < |g.funcs|
  {
    forall k :: 0 <= k < |g.funcs[f].outputs| ==> g.vars[g.funcs[f].outputs[k]].grad.None?
  }

  /** Every output of a Function that ran has no gradient. */
  predicate Cleared(w: Walk)
    requires Indexed(w)
  {
    AllCleared(w.g, w.trace)
  }

  predicate AllCleared(g: Graph, trace: seq<nat>)
    requires Valid(g) && Refs(trace, |g.funcs|)
  {
    forall i :: 0 <= i < |trace| ==> OutputsCleared(g, trace[i])
  }

  /** In a consistent graph everything pending after a step is of no later
      generation than the Function that ran: the pending list was sorted,
      and the creators of a Function's inputs are of strictly smaller
      generation. */
  lemma StepPendingBelow(w: Walk, s: Walk)
    requires Indexed(w) && Indexed(s) && |w.pending| > 0 && Sorted(w.g.funcs, w.pending)
    ensures Follows(w, s) && Consistent(w.g) ==>
              forall i :: 0 <= i < |s.pending| ==> Gen(s.g, s.pending[i]) <= Gen(s.g, Last(w.pending))
  {
    if !(Follows(w, s) && Consistent(w.g)) { return; }
    var f := Last(w.pending);
    var n := |w.pending| - 1;
    forall i | 0 <= i < |s.pending|
      ensures Gen(s.g, s.pending[i]) <= Gen(s.g, f)
    {
      assert s.pending[i] in s.pending;
      if s.pending[i] in w.pending[..n] {
        var k :| 0 <= k < n && w.pending[k] == s.pending[i];
        assert Gen(w.g, w.pending[k]) <= Gen(w.g, w.pending[n]);
      } else {
        assert CreatesInput(w.g, w.g.funcs[f].inputs, s.pending[i]);
        var j :| 0 <= j < |w.g.funcs[f].inputs| && w.g.vars[w.g.funcs[f].inputs[j]].creator == Some(s.pending[i]);
        InputCreatorsAreOlder(w.g, f, j);
      }
    }
  }

  /** A step keeps the latest-generation-first order. */
  lemma StepKeepsOrder(w: Walk, s: Walk)
    requires Indexed(w) && Indexed(s) && |w.pending| > 0 && Sorted(w.g.funcs, w.pending)
    ensures Follows(w, s) && Consistent(w.g) && Ordered(w) ==> Ordered(s)
  {
    if !(Follows(w, s) && Consistent(w.g) && Ordered(w)) { return; }
    StepPendingBelow(w, s);
    var f := Last(w.pending);
    assert Last(s.trace) == f;
    forall i, j | 0 <= i < j < |s.trace|
      ensures Gen(s.g, s.trace[j]) <= Gen(s.g, s.trace[i])
    {
      if j == |w.trace| && i < |w.trace| - 1 {
        assert Gen(w.g, Last(w.trace)) <= Gen(w.g, w.trace[i]);
      }
    }
  }

  /** Queued creators stay queued while only gradients change. */
  lemma QueuedStays(g: Graph, h: Graph, f: nat, seen: set<nat>, later: set<nat>)
    requires Valid(g) && f < |g.funcs| && OnlyGradsDiffer(g, h) && seen <= later
    ensures InputsQueued(g, f, seen) ==> InputsQueued(h, f, later)
    ensures InputsQueued(h, f, seen) ==> InputsQueued(g, f, later)
  {
    GradsDoNotMatter(g, h);
  }

  /** A complete step queues the creators of the inputs of the Function it
      ran, so the Functions that ran stay closed under "created an input". */
  lemma StepKeepsClosed(w: Walk, s: Walk, err: Option<Error>)
    requires Indexed(w) && Indexed(s) && |w.pending| > 0 && OnlyGradsDiffer(w.g, s.g) && w.seen <= s.seen
    requires err.None? ==> InputsQueued(w.g, Last(w.pending), s.seen)
    ensures err.None? && Follows(w, s) && Closed(w) ==> Closed(s)
  {
    if err.None? && Follows(w, s) && Closed(w) {
      forall i | 0 <= i < |s.trace|
        ensures InputsQueued(s.g, s.trace[i], s.seen)
      {
        QueuedStays(w.g, s.g, s.trace[i], if i < |w.trace| then w.seen else s.seen, s.seen);
      }
    }
  }

  /** Walking a consistent graph in order, no output of a Function that ran
      is an input of the next one: the output is a generation above the
      Function that made it, and the next Function's inputs are no later
      than the next Function itself. */
  lemma EarlierOutputNotInput(w: Walk, i: nat, k: nat)
    requires Indexed(w) && |w.pending| > 0 && Consistent(w.g) && Ordered(w)
    requires i < |w.trace| && k < |w.g.funcs[w.trace[i]].outputs|
    ensures w.g.funcs[w.trace[i]].outputs[k] !in w.g.funcs[Last(w.pending)].inputs
  {
  }

  /** Without `retain_grad`, a complete step leaves every output of a
      Function that ran without a gradient: the Function's own outputs are
      cleared, and the outputs of earlier ones receive nothing. */
  lemma StepKeepsCleared(w: Walk, s: Walk, retain: bool, err: Option<Error>)
    requires Indexed(w) && Indexed(s) && |w.pending| > 0 && OnlyGradsDiffer(w.g, s.g)
    requires err.None? ==>
               Rule(w.g, Last(w.pending)).Success? &&
               forall v :: 0 <= v < |w.g.vars| ==> After(w.g, Last(w.pending), v).Success?
    requires err.None? ==> forall v :: 0 <= v < |w.g.vars| ==>
               s.g.vars[v].grad ==
                 (if !retain && v in w.g.funcs[Last(w.pending)].outputs then None
                  else After(w.g, Last(w.pending), v).value)
    ensures err.None? && !retain && Follows(w, s) && Consistent(w.g) && Ordered(w) && Cleared(w) ==> Cleared(s)
  {
    if !(err.None? && !retain && Follows(w, s) && Consistent(w.g) && Ordered(w) && Cleared(w)) { return; }
    forall i | 0 <= i < |s.trace|
      ensures OutputsCleared(s.g, s.trace[i])
    {
      if i < |w.trace| {
        forall k | 0 <= k < |w.g.funcs[w.trace[i]].outputs|
          ensures s.g.vars[w.g.funcs[w.trace[i]].outputs[k]].grad.None?
        {
          assert w.g.vars[w.g.funcs[w.trace[i]].outputs[k]].grad.None?;
          ClearedOutputStays(w, s, i, k);
        }
      }
    }
  }

  /** An output of an earlier Function, cleared before the step, is no
      input of the step's Function and so stays cleared. */
  lemma ClearedOutputStays(w: Walk, s: Walk, i: nat, k: nat)
    requires Indexed(w) && Indexed(s) && |w.pending| > 0 && Consistent(w.g) && Ordered(w)
    requires OnlyGradsDiffer(w.g, s.g)
    requires Rule(w.g, Last(w.pending)).Success? &&
             forall v :: 0 <= v < |w.g.vars| ==> After(w.g, Last(w.pending), v).Success?
    requires forall v :: 0 <= v < |w.g.vars| ==>
               s.g.vars[v].grad ==
                 (if v in w.g.funcs[Last(w.pending)].outputs then None
                  else After(w.g, Last(w.pending), v).value)
    requires i < |w.trace| && k < |w.g.funcs[w.trace[i]].outputs|
    requires w.g.vars[w.g.funcs[w.trace[i]].outputs[k]].grad.None?
    ensures s.g.vars[w.g.funcs[w.trace[i]].outputs[k]].grad.None?
  {
    var f := Last(w.pending);
    var o := w.g.funcs[w.trace[i]].outputs[k];
    if o !in w.g.funcs[f].outputs {
      EarlierOutputNotInput(w, i, k);
      NoContributions(o, w.g.funcs[f].inputs, Rule(w.g, f).value);
    }
  }

  /** The whole `while funcs:` loop: steps until the pending list is empty or
      a step fails. The trace only grows, by at least one Function when
      anything is pending. */
  function Drain(w: Walk, retain: bool): (r: (Walk, Option<Error>))
    requires WalkInv(w)
    ensures WalkInv(r.0) && OnlyGradsDiffer(w.g, r.0.g)
    ensures r.1.None? ==> r.0.pending == []
    ensures Extended(w.trace, r.0.trace)
    ensures |w.pending| > 0 ==> |w.trace| < |r.0.trace|
    ensures Consistent(w.g) ==> Consistent(r.0.g)
    decreases |Range(|w.g.funcs|) - w.seen|, |w.pending|
  {
    if |w.pending| == 0 then (w, None)
    else
      var s := Step(w, retain);
      StepProgresses(w, retain);
      StepExtends(w, retain);
      if s.1.Some? then s
      else
        var r := Drain(s.0, retain);
        ExtendedTrans(w.trace, s.0.trace, r.0.trace);
        GradsOnlyTrans(w.g, s.0.g, r.0.g);
        r
  }

  /** One turn of the loop. */
  lemma DrainUnfolds(w: Walk, retain: bool)
    requires WalkInv(w) && |w.pending| > 0
    ensures Step(w, retain).1.Some? ==> Drain(w, retain) == Step(w, retain)
    ensures Step(w, retain).1.None? ==> Drain(w, retain) == Drain(Step(w, retain).0, retain)
  {
  }

  /** What `backward()` leaves behind: the graph with its new gradients, the
      Functions whose rules ran, in order, and the error that stopped it, if
      any. */
  datatype Run = Run(g: Graph, trace: seq<nat>, error: Option<Error>)

  /** `if self.grad is None: self.grad = np.ones_like(self.data)`; the data
      is a uniform array, so its gradient seed is one. */
  function Seed(g: Graph, v: nat): (h: Graph)
    requires v < |g.vars|
    ensures OnlyGradsDiffer(g, h)
    ensures h.vars[v].grad == if g.vars[v].grad.None? then Some(1.0) else g.vars[v].grad
    ensures forall u :: 0 <= u < |g.vars| && u != v ==> h.vars[u] == g.vars[u]
  {
    if g.vars[v].grad.None? then SetGrad(g, v, Some(1.0)) else g
  }

  /** `Variable.backward(retain_grad)` started at Variable `v`. A Variable
      without a creator has its gradient seeded and then raises
      AttributeError: `add_func(None)` queues `None`, and sorting the list
      reads `None.generation`. */
  function BackwardSpec(g: Graph, v: nat, retain: bool): (r: Run)
    requires Valid(g) && v < |g.vars|
    ensures OnlyGradsDiffer(g, r.g) && Valid(r.g)
    ensures Refs(r.trace, |g.funcs|) && NoDup(r.trace)
    ensures g.vars[v].creator.None? ==> r.error == Some(AttributeError) && r.trace == []
  {
    var h := Seed(g, v);
    GradsDoNotMatter(g, h);
    match g.vars[v].creator
    case None => Run(h, [], Some(AttributeError))
    case Some(f) =>
      var d := Drain(Start(g, v), retain);
      Run(d.0.g, d.0.trace, d.1)
  }

  /** Functions that ran never repeat a creator before its consumer: in a
      consistent graph walked latest generation first, the creator of an
      input of a Function runs after that Function. */
  lemma OrderIsTopological(g: Graph, trace: seq<nat>)
    requires Valid(g) && Consistent(g) && Refs(trace, |g.funcs|) && LatestFirst(g, trace)
    ensures CreatorsLater(g, trace)
  {
    forall i, j, k | 0 <= i < |trace| && 0 <= j < |trace| && 0 <= k < |g.funcs[trace[i]].inputs| &&
                     g.vars[g.funcs[trace[i]].inputs[k]].creator == Some(trace[j])
      ensures i < j
    {
      InputCreatorsAreOlder(g, trace[i], k);
    }
  }

  /** One step keeps every invariant of the walk from `g`. */
  lemma StepKeepsAll(g: Graph, w: Walk, retain: bool)
    requires Valid(g) && WalkInv(w) && |w.pending| > 0 && OnlyGradsDiffer(g, w.g)
    ensures OnlyGradsDiffer(g, Step(w, retain).0.g)
    ensures Consistent(g) && Ordered(w) ==> Ordered(Step(w, retain).0)
    ensures Step(w, retain).1.None? && Closed(w) ==> Closed(Step(w, retain).0)
    ensures Step(w, retain).1.None? && !retain && Consistent(g) && Ordered(w) && Cleared(w) ==>
              Cleared(Step(w, retain).0)
  {
    var s := Step(w, retain);
    GradsOnlyTrans(g, w.g, s.0.g);
    GradsDoNotMatter(g, w.g);
    StepEffect(w, retain);
    StepKeepsOrder(w, s.0);
    StepKeepsClosed(w, s.0, s.1);
    StepKeepsCleared(w, s.0, retain, s.1);
  }

  /** The `while funcs:` loop run step by step; it ends as `Drain` does. */
  method Loop(w0: Walk, retain: bool) returns (w: Walk, err: Option<Error>)
    requires WalkInv(w0)
    ensures (w, err) == Drain(w0, retain)
  {
    w := w0;
    while |w.pending| > 0
      invariant WalkInv(w) && Drain(w, retain) == Drain(w0, retain)
      decreases |Range(|w.g.funcs|) - w.seen|, |w.pending|
    {
      var s := Step(w, retain);
      StepProgresses(w, retain);
      DrainUnfolds(w, retain);
      if s.1.Some? {
        return s.0, s.1;
      }
      w := s.0;
    }
    err := None;
  }

  /** The invariants of the walk from graph `g` survive the whole loop. */
  lemma {:induction false} DrainKeeps(g: Graph, w: Walk, retain: bool)
    requires Valid(g) && WalkInv(w) && OnlyGradsDiffer(g, w.g)
    ensures Consistent(g) && Ordered(w) ==> Ordered(Drain(w, retain).0)
    ensures Drain(w, retain).1.None? && Closed(w) ==> Closed(Drain(w, retain).0)
    ensures Drain(w, retain).1.None? && !retain && Consistent(g) && Ordered(w) && Cleared(w) ==>
              Cleared(Drain(w, retain).0)
    decreases |Range(|w.g.funcs|) - w.seen|, |w.pending|
  {
    if |w.pending| > 0 {
      var s := Step(w, retain);
      StepProgresses(w, retain);
      StepKeepsAll(g, w, retain);
      DrainUnfolds(w, retain);
      if s.1.None? {
        DrainKeeps(g, s.0, retain);
      }
    }
  }

  /** `Variable.backward(retain_grad)` run through the loop method. */
  method Backward(g: Graph, v: nat, retain: bool) returns (h: Graph, trace: seq<nat>, err: Option<Error>)
    requires Valid(g) && v < |g.vars|
    ensures Run(h, trace, err) == BackwardSpec(g, v, retain)
    ensures OnlyGradsDiffer(g, h) && NoDup(trace)
  {
    var seeded := Seed(g, v);
    GradsDoNotMatter(g, seeded);
    if g.vars[v].creator.None? {
      return seeded, [], Some(AttributeError);
    }
    var w;
    w, err := Loop(Start(g, v), retain);
    h, trace := w.g, w.trace;
  }

  /** The walk `backward()` starts from when `v` has a creator. */
  function Start(g: Graph, v: nat): (w: Walk)
    requires Valid(g) && v < |g.vars| && g.vars[v].creator.Some?
    ensures WalkInv(w) && OnlyGradsDiffer(g, w.g)
    ensures w.pending == [g.vars[v].creator.value] && w.trace == []
    ensures w.g == Seed(g, v) && w.seen == {g.vars[v].creator.value}
  {
    var f := g.vars[v].creator.value;
    GradsDoNotMatter(g, Seed(g, v));
    assert Elems([f]) == {f};
    Walk(Seed(g, v), [f], {f}, [])
  }

  /** The walk begins with `v`'s creator. */
  lemma BackwardStart(g: Graph, v: nat, retain: bool)
    requires Valid(g) && v < |g.vars|
    ensures g.vars[v].creator.Some? ==>
              |BackwardSpec(g, v, retain).trace| > 0 &&
              BackwardSpec(g, v, retain).trace[0] == g.vars[v].creator.value
  {
    if g.vars[v].creator.Some? {
      var f := g.vars[v].creator.value;
      var w0 := Start(g, v);
      var d := Drain(w0, retain);
      DrainUnfolds(w0, retain);
      var s := Step(w0, retain);
      assert s.0.trace == [f];
      if s.1.None? {
        assert d == Drain(s.0, retain);
        assert Extended(s.0.trace, d.0.trace);
      }
    }
  }

  /** In a graph the builder stamped consistently, Functions run latest
      generation first, and so each runs before the creators of its
      inputs. */
  lemma BackwardOrder(g: Graph, v: nat, retain: bool)
    requires Valid(g) && v < |g.vars| && Consistent(g)
    ensures LatestFirst(g, BackwardSpec(g, v, retain).trace)
    ensures CreatorsLater(g, BackwardSpec(g, v, retain).trace)
  {
    var r := BackwardSpec(g, v, retain);
    if g.vars[v].creator.Some? {
      var w0 := Start(g, v);
      DrainKeeps(g, w0, retain);
      var d := Drain(w0, retain).0;
      assert LatestFirst(d.g, d.trace);
    }
    OrderIsTopological(g, r.trace);
  }

  /** When the walk completes, the creator of every input a Function handed
      a gradient to ran as well. */
  lemma BackwardComplete(g: Graph, v: nat, retain: bool)
    requires Valid(g) && v < |g.vars|
    ensures BackwardSpec(g, v, retain).error.None? ==>
              AllQueued(g, BackwardSpec(g, v, retain).trace, Elems(BackwardSpec(g, v, retain).trace))
  {
    var r := BackwardSpec(g, v, retain);
    if g.vars[v].creator.Some? && r.error.None? {
      var w0 := Start(g, v);
      DrainKeeps(g, w0, retain);
      var d := Drain(w0, retain).0;
      assert Closed(d) && d.pending == [];
      forall i | 0 <= i < |r.trace|
        ensures InputsQueued(g, r.trace[i], Elems(r.trace))
      {
        QueuedStays(g, d.g, r.trace[i], d.seen, d.seen);
      }
    }
  }

  /** When the walk completes without `retain_grad`, in a consistent graph,
      no output of a Function that ran keeps its gradient; `v`, an output of
      the first, is one of them. */
  lemma BackwardClears(g: Graph, v: nat)
    requires Valid(g) && v < |g.vars| && Consistent(g)
    ensures BackwardSpec(g, v, false).error.None? ==>
              AllCleared(BackwardSpec(g, v, false).g, BackwardSpec(g, v, false).trace) &&
              BackwardSpec(g, v, false).g.vars[v].grad.None?
  {
    var r := BackwardSpec(g, v, false);
    if g.vars[v].creator.Some? && r.error.None? {
      var f := g.vars[v].creator.value;
      var w0 := Start(g, v);
      DrainKeeps(g, w0, false);
      BackwardStart(g, v, false);
      var d := Drain(w0, false).0;
      assert Cleared(d);
      assert OutputsCleared(r.g, r.trace[0]);
      var k :| 0 <= k < |g.funcs[f].outputs| && g.funcs[f].outputs[k] == v;
    }
  }

  /** Variable `v` is no input of the Functions `fs` and, unless `retain`,
      no output of theirs either. */
  predicate Untouched(g: Graph, fs: seq<nat>, v: nat, retain: bool)
    requires Refs(fs, |g.funcs|)
  {
    forall i :: 0 <= i < |fs| ==> v !in g.funcs[fs[i]].inputs && (retain || v !in g.funcs[fs[i]].outputs)
  }

  /** A step whose Function neither feeds a gradient to `v` nor clears it
      leaves `v`'s gradient as it was. */
  lemma StepFrame(w: Walk, retain: bool, v: nat)
    requires WalkInv(w) && |w.pending| > 0 && v < |w.g.vars|
    ensures Step(w, retain).1.None? && Untouched(w.g, [Last(w.pending)], v, retain) ==>
              Step(w, retain).0.g.vars[v].grad == w.g.vars[v].grad
  {
    var f := Last(w.pending);
    if Step(w, retain).1.None? && Untouched(w.g, [f], v, retain) {
      StepEffect(w, retain);
      assert [f][0] == f;
      NoContributions(v, w.g.funcs[f].inputs, Rule(w.g, f).value);
    }
  }

  lemma ExtendedAt(a: seq<nat>, b: seq<nat>, i: nat)
    requires Extended(a, b) && i < |a|
    ensures b[i] == a[i]
  {
    assert b[..|a|][i] == b[i];
  }

  /** A completed loop whose Functions (those run before it included)
      neither feed a gradient to `v` nor clear it leaves `v`'s gradient as it
      was. */
  lemma {:induction false} DrainFrame(w: Walk, retain: bool, v: nat)
    requires WalkInv(w) && v < |w.g.vars|
    ensures Drain(w, retain).1.None? && Untouched(w.g, Drain(w, retain).0.trace, v, retain) ==>
              Drain(w, retain).0.g.vars[v].grad == w.g.vars[v].grad
    decreases |Range(|w.g.funcs|) - w.seen|, |w.pending|
  {
    if |w.pending| > 0 && Drain(w, retain).1.None? && Untouched(w.g, Drain(w, retain).0.trace, v, retain) {
      StepProgresses(w, retain);
      FrameHead(w, retain, v);
      DrainFrame(Step(w, retain).0, retain, v);
    }
  }

  /** The first turn of a completed loop that leaves `v` alone: it succeeds,
      keeps `v`'s gradient, and the loop after it leaves `v` alone too. */
  lemma FrameHead(w: Walk, retain: bool, v: nat)
    requires WalkInv(w) && |w.pending| > 0 && v < |w.g.vars|
    requires Drain(w, retain).1.None? && Untouched(w.g, Drain(w, retain).0.trace, v, retain)
    ensures Step(w, retain).1.None? && Drain(w, retain) == Drain(Step(w, retain).0, retain)
    ensures Step(w, retain).0.g.vars[v].grad == w.g.vars[v].grad
    ensures Untouched(Step(w, retain).0.g, Drain(Step(w, retain).0, retain).0.trace, v, retain)
  {
    var d := Drain(w, retain);
    var s := Step(w, retain);
    var f := Last(w.pending);
    DrainUnfolds(w, retain);
    assert s.1.None? && d == Drain(s.0, retain);
    assert Extended(s.0.trace, d.0.trace) && s.0.trace[|w.trace|] == f;
    ExtendedAt(s.0.trace, d.0.trace, |w.trace|);
    assert Untouched(w.g, [f], v, retain) by {
      assert [f][0] == f;
    }
    StepFrame(w, retain, v);
  }

  /** With `retain_grad`, in a consistent graph, the Variable `backward()`
      started from keeps its seeded gradient: every Function that ran is no
      later than its creator, so none of them takes it as an input. */
  lemma RetainKeepsSeed(g: Graph, v: nat)
    requires Valid(g) && v < |g.vars| && Consistent(g)
    ensures BackwardSpec(g, v, true).error.None? ==>
              BackwardSpec(g, v, true).g.vars[v].grad == Seed(g, v).vars[v].grad
  {
    var r := BackwardSpec(g, v, true);
    if g.vars[v].creator.Some? && r.error.None? {
      var f := g.vars[v].creator.value;
      var w0 := Start(g, v);
      BackwardStart(g, v, true);
      BackwardOrder(g, v, true);
      forall i | 0 <= i < |r.trace|
        ensures v !in g.funcs[r.trace[i]].inputs
      {
        var fi := r.trace[i];
        assert Gen(g, fi) <= Gen(g, f) by {
          if i > 0 {
            assert Gen(g, r.trace[i]) <= Gen(g, r.trace[0]);
          }
        }
      }
      DrainFrame(w0, true, v);
    }
  }

  /** Unless `retain`, Variable `u` is no output of the Functions `fs`: none
      of them clears its gradient. */
  predicate Kept(g: Graph, fs: seq<nat>, u: nat, retain: bool)
    requires Refs(fs, |g.funcs|)
  {
    forall i :: 0 <= i < |fs| ==> retain || u !in g.funcs[fs[i]].outputs
  }

  /** Adding into a present gradient never makes it `None`: a later addition
      either fails or yields a number. */
  lemma {:induction false} SumKeepsPresent(c: real, cs: seq<Option<real>>)
    ensures Sum(Some(c), cs).Success? ==> Sum(Some(c), cs).value.Some?
    decreases |cs|
  {
    if |cs| > 0 && cs[0].Some? {
      SumKeepsPresent(c + cs[0].value, cs[1..]);
    }
  }

  /** A completed pass keeps every present gradient that it does not clear. */
  lemma StepKeepsPresent(w: Walk, retain: bool, u: nat)
    requires WalkInv(w) && |w.pending| > 0 && u < |w.g.vars|
    ensures Step(w, retain).1.None? && w.g.vars[u].grad.Some? && Kept(w.g, [Last(w.pending)], u, retain) ==>
              Step(w, retain).0.g.vars[u].grad.Some?
  {
    var f := Last(w.pending);
    if Step(w, retain).1.None? && w.g.vars[u].grad.Some? && Kept(w.g, [f], u, retain) {
      StepEffect(w, retain);
      assert [f][0] == f;
      SumKeepsPresent(w.g.vars[u].grad.value, Contributions(u, w.g.funcs[f].inputs, Rule(w.g, f).value));
    }
  }

  /** The first turn of a completed loop that clears nothing of `u`'s: it
      succeeds, keeps a present gradient of `u`, and the loop after it clears
      nothing of `u`'s either. */
  lemma KeptHead(w: Walk, retain: bool, u: nat)
    requires WalkInv(w) && |w.pending| > 0 && u < |w.g.vars|
    requires Drain(w, retain).1.None? && Kept(w.g, Drain(w, retain).0.trace, u, retain)
    ensures Step(w, retain).1.None? && Drain(w, retain) == Drain(Step(w, retain).0, retain)
    ensures w.g.vars[u].grad.Some? ==> Step(w, retain).0.g.vars[u].grad.Some?
    ensures Kept(Step(w, retain).0.g, Drain(Step(w, retain).0, retain).0.trace, u, retain)
  {
    var d := Drain(w, retain);
    var s := Step(w, retain);
    var f := Last(w.pending);
    DrainUnfolds(w, retain);
    assert s.1.None? && d == Drain(s.0, retain);
    assert Extended(s.0.trace, d.0.trace) && s.0.trace[|w.trace|] == f;
    ExtendedAt(s.0.trace, d.0.trace, |w.trace|);
    assert Kept(w.g, [f], u, retain) by {
      assert [f][0] == f;
    }
    StepKeepsPresent(w, retain, u);
  }

  /** From any state of the walk, a gradient present then, whether seeded,
      received earlier or set before `backward()`, is still present when
      the loop completes, unless a Function that ran clears it as one of its
      outputs. */
  lemma {:induction false} DrainKeepsPresent(w: Walk, retain: bool, u: nat)
    requires WalkInv(w) && u < |w.g.vars|
    ensures Drain(w, retain).1.None? && w.g.vars[u].grad.Some? && Kept(w.g, Drain(w, retain).0.trace, u, retain) ==>
              Drain(w, retain).0.g.vars[u].grad.Some?
    decreases |Range(|w.g.funcs|) - w.seen|, |w.pending|
  {
    if |w.pending| > 0 && Drain(w, retain).1.None? && w.g.vars[u].grad.Some? &&
       Kept(w.g, Drain(w, retain).0.trace, u, retain) {
      StepProgresses(w, retain);
      KeptHead(w, retain, u);
      DrainKeepsPresent(Step(w, retain).0, retain, u);
    }
  }

  /** After a completed `backward()`, a Variable that had a gradient once
      seeded keeps one, unless it is an output of a Function that ran and
      `retain_grad` is off. `BackwardFeeds` and `RootInputsReceive` cover
      the Variables that first receive a gradient during the walk. */
  lemma BackwardKeepsPresent(g: Graph, v: nat, retain: bool, u: nat)
    requires Valid(g) && v < |g.vars| && u < |g.vars|
    ensures var r := BackwardSpec(g, v, retain);
            r.error.None? && Seed(g, v).vars[u].grad.Some? && Kept(g, r.trace, u, retain) ==> r.g.vars[u].grad.Some?
  {
    var r := BackwardSpec(g, v, retain);
    if g.vars[v].creator.Some? && r.error.None? && Seed(g, v).vars[u].grad.Some? && Kept(g, r.trace, u, retain) {
      var w0 := Start(g, v);
      var d := Drain(w0, retain);
      assert Kept(w0.g, d.0.trace, u, retain);
      DrainKeepsPresent(w0, retain, u);
    }
  }

  /** With `retain_grad`, no gradient present once the start is seeded is
      `None` after a completed `backward()`. */
  lemma RetainKeepsGradients(g: Graph, v: nat)
    requires Valid(g) && v < |g.vars|
    ensures var r := BackwardSpec(g, v, true);
            r.error.None? ==> forall u :: 0 <= u < |g.vars| && Seed(g, v).vars[u].grad.Some? ==> r.g.vars[u].grad.Some?
  {
    forall u | 0 <= u < |g.vars|
      ensures BackwardSpec(g, v, true).error.None? && Seed(g, v).vars[u].grad.Some? ==>
                BackwardSpec(g, v, true).g.vars[u].grad.Some?
    {
      BackwardKeepsPresent(g, v, true, u);
    }
  }

  /** When every gradient a rule hands out is present, so is everything a
      Variable receives from it, and each input receives something. */
  lemma {:induction false} ContributionsPresent(v: nat, xs: seq<nat>, gxs: seq<Option<real>>)
    requires |xs| == |gxs| && forall i :: 0 <= i < |gxs| ==> gxs[i].Some?
    ensures forall i :: 0 <= i < |Contributions(v, xs, gxs)| ==> Contributions(v, xs, gxs)[i].Some?
    ensures v in xs ==> |Contributions(v, xs, gxs)| > 0
    decreases |xs|
  {
    if |xs| > 0 {
      ContributionsPresent(v, xs[1..], gxs[1..]);
      assert v in xs ==> xs[0] == v || v in xs[1..];
    }
  }

  /** Adding present gradients into a Variable, when there is at least one
      of them or the Variable already holds one, leaves it holding one. */
  lemma SumPresent(cur: Option<real>, cs: seq<Option<real>>)
    requires forall i :: 0 <= i < |cs| ==> cs[i].Some?
    requires cur.Some? || |cs| > 0
    ensures Sum(cur, cs).Success? && Sum(cur, cs).value.Some?
  {
    if cur.Some? {
      SumOfPresent(cur.value, cs);
    } else {
      SumOfPresent(cs[0].value, cs[1..]);
    }
  }

  /** Every output of a pending Function holds a gradient. */
  predicate Ready(w: Walk)
    requires Indexed(w)
  {
    forall i, k :: 0 <= i < |w.pending| && 0 <= k < |w.g.funcs[w.pending[i]].outputs| ==>
      w.g.vars[w.g.funcs[w.pending[i]].outputs[k]].grad.Some?
  }

  /** Function `f` hands Variable `u` a gradient (`u` is one of its inputs)
      or, with `retain_grad`, leaves `u` its gradient (`u` is its output). */
  predicate Touches(g: Graph, f: nat, u: nat, retain: bool)
    requires f < |g.funcs|
  {
    u in g.funcs[f].inputs || (retain && u in g.funcs[f].outputs)
  }

  /** Some Function of `fs`, from position `from` on, touches `u`. */
  predicate Fed(g: Graph, fs: seq<nat>, from: nat, u: nat, retain: bool)
    requires Refs(fs, |g.funcs|)
  {
    exists i :: from <= i < |fs| && Touches(g, fs[i], u, retain)
  }

  /** The rule of a recorded Function whose output holds a gradient hands a
      present gradient to each of its inputs. */
  lemma RulePresent(g: Graph, f: nat)
    requires Valid(g) && Shaped(g) && f < |g.funcs|
    requires g.vars[g.funcs[f].outputs[0]].grad.Some? && Rule(g, f).Success?
    ensures |Rule(g, f).value| == |g.funcs[f].inputs|
    ensures forall i :: 0 <= i < |Rule(g, f).value| ==> Rule(g, f).value[i].Some?
  {
    assert Grads(g, g.funcs[f].outputs) == [g.vars[g.funcs[f].outputs[0]].grad];
  }

  /** In a consistent graph no input of a Function is one of its outputs:
      an output sits a generation above the Function, an input no higher. */
  lemma InputNotOutput(g: Graph, f: nat, u: nat)
    requires Valid(g) && Consistent(g) && f < |g.funcs| && u in g.funcs[f].inputs
    ensures u !in g.funcs[f].outputs
  {
    var j :| 0 <= j < |g.funcs[f].inputs| && g.funcs[f].inputs[j] == u;
    assert g.vars[u].generation <= g.funcs[f].generation;
  }

  /** A completed pass whose Function's output holds a gradient leaves each
      of that Function's inputs holding one, and with `retain_grad` its
      output too. */
  lemma StepFeeds(w: Walk, retain: bool, u: nat)
    requires WalkInv(w) && |w.pending| > 0 && Consistent(w.g) && Shaped(w.g) && u < |w.g.vars|
    requires w.g.vars[w.g.funcs[Last(w.pending)].outputs[0]].grad.Some?
    ensures Step(w, retain).1.None? && Touches(w.g, Last(w.pending), u, retain) ==>
              Step(w, retain).0.g.vars[u].grad.Some?
  {
    var f := Last(w.pending);
    var fn := w.g.funcs[f];
    if Step(w, retain).1.None? && Touches(w.g, f, u, retain) {
      StepEffect(w, retain);
      RulePresent(w.g, f);
      var gxs := Rule(w.g, f).value;
      ContributionsPresent(u, fn.inputs, gxs);
      if u in fn.inputs {
        InputNotOutput(w.g, f, u);
      } else {
        assert u == fn.outputs[0];
      }
      SumPresent(w.g.vars[u].grad, Contributions(u, fn.inputs, gxs));
    }
  }

  /** What a completed pass does for Variables' gradients: each Variable
      its Function touches holds one afterwards, and so does each that held
      one before and is not cleared. */
  predicate Passed(w: Walk, s: Walk, retain: bool)
    requires Indexed(w) && |w.pending| > 0 && |s.g.vars| == |w.g.vars|
  {
    forall u :: 0 <= u < |w.g.vars| ==>
      (Touches(w.g, Last(w.pending), u, retain) || (w.g.vars[u].grad.Some? && Kept(w.g, [Last(w.pending)], u, retain))) ==>
        s.g.vars[u].grad.Some?
  }

  lemma StepPasses(w: Walk, retain: bool)
    requires WalkInv(w) && |w.pending| > 0 && Consistent(w.g) && Shaped(w.g)
    requires w.g.vars[w.g.funcs[Last(w.pending)].outputs[0]].grad.Some?
    ensures Step(w, retain).1.None? ==> Passed(w, Step(w, retain).0, retain)
  {
    forall u | 0 <= u < |w.g.vars|
      ensures Step(w, retain).1.None? && Touches(w.g, Last(w.pending), u, retain) ==> Step(w, retain).0.g.vars[u].grad.Some?
      ensures Step(w, retain).1.None? && w.g.vars[u].grad.Some? && Kept(w.g, [Last(w.pending)], u, retain) ==>
                Step(w, retain).0.g.vars[u].grad.Some?
    {
      StepFeeds(w, retain, u);
      StepKeepsPresent(w, retain, u);
    }
  }

  /** After a completed pass, the output of a Function pending before and
      still pending holds the gradient it had: it is no output of the
      Function that ran, so it is not cleared. */
  lemma StillReady(w: Walk, s: Walk, retain: bool, j: nat)
    requires Indexed(w) && |w.pending| > 0 && NoDup(w.pending) && |s.g.vars| == |w.g.vars|
    requires Shaped(w.g) && Ready(w) && Passed(w, s, retain) && j < |w.pending| - 1
    ensures s.g.vars[w.g.funcs[w.pending[j]].outputs[0]].grad.Some?
  {
    var f := Last(w.pending);
    var p := w.pending[j];
    var o := w.g.funcs[p].outputs[0];
    assert w.g.vars[o].grad.Some?;
    assert p != f by {
      assert w.pending[|w.pending| - 1] == f;
    }
    assert o !in w.g.funcs[f].outputs by {
      assert w.g.funcs[f].outputs == [w.g.funcs[f].outputs[0]];
      assert w.g.funcs[p].outputs == [o];
      assert w.g.funcs[f].outputs != w.g.funcs[p].outputs;
    }
    assert Kept(w.g, [f], o, retain) by {
      assert [f][0] == f;
    }
  }

  /** After a completed pass, the output of a Function that created one of
      the inputs of the Function that ran has just received a gradient. */
  lemma NewlyReady(w: Walk, s: Walk, retain: bool, p: nat)
    requires Indexed(w) && |w.pending| > 0 && |s.g.vars| == |w.g.vars|
    requires Consistent(w.g) && Shaped(w.g) && Passed(w, s, retain)
    requires CreatesInput(w.g, w.g.funcs[Last(w.pending)].inputs, p)
    ensures p < |w.g.funcs| && s.g.vars[w.g.funcs[p].outputs[0]].grad.Some?
  {
    var f := Last(w.pending);
    var j :| 0 <= j < |w.g.funcs[f].inputs| && w.g.vars[w.g.funcs[f].inputs[j]].creator == Some(p);
    var x := w.g.funcs[f].inputs[j];
    assert x in w.g.funcs[p].outputs by {
      assert CreatorStamps(w.g);
    }
    assert p < |w.g.funcs| && |w.g.funcs[p].outputs| == 1;
    assert w.g.funcs[p].outputs == [w.g.funcs[p].outputs[0]];
    assert Touches(w.g, f, x, retain) by {
      assert x in w.g.funcs[f].inputs;
    }
  }

  /** After a completed pass, the output of the `i`th pending Function
      holds a gradient. */
  lemma PendingReady(w: Walk, s: Walk, retain: bool, i: nat)
    requires Indexed(w) && Indexed(s) && |w.pending| > 0 && NoDup(w.pending)
    requires Consistent(w.g) && Shaped(w.g) && Ready(w)
    requires Follows(w, s) && Passed(w, s, retain) && i < |s.pending|
    ensures forall k :: 0 <= k < |s.g.funcs[s.pending[i]].outputs| ==> s.g.vars[s.g.funcs[s.pending[i]].outputs[k]].grad.Some?
  {
    var n := |w.pending| - 1;
    var p := s.pending[i];
    assert p in s.pending;
    assert s.g.funcs[p].outputs == [w.g.funcs[p].outputs[0]];
    if p in w.pending[..n] {
      var j :| 0 <= j < n && w.pending[j] == p;
      StillReady(w, s, retain, j);
    } else {
      NewlyReady(w, s, retain, p);
    }
  }

  /** A completed pass keeps the output of every pending Function holding a
      gradient. */
  lemma StepKeepsReady(w: Walk, retain: bool)
    requires WalkInv(w) && |w.pending| > 0 && Consistent(w.g) && Shaped(w.g) && Ready(w)
    ensures Step(w, retain).1.None? ==> Ready(Step(w, retain).0)
  {
    var s := Step(w, retain);
    assert w.g.vars[w.g.funcs[Last(w.pending)].outputs[0]].grad.Some? by {
      assert w.pending[|w.pending| - 1] == Last(w.pending);
    }
    StepPasses(w, retain);
    if s.1.None? {
      forall i, k | 0 <= i < |s.0.pending| && 0 <= k < |s.0.g.funcs[s.0.pending[i]].outputs|
        ensures s.0.g.vars[s.0.g.funcs[s.0.pending[i]].outputs[k]].grad.Some?
      {
        PendingReady(w, s.0, retain, i);
      }
    }
  }

  /** From any state whose pending Functions' outputs hold gradients, a
      completed loop leaves a gradient on every Variable that a Function it
      runs touches, unless a Function that ran clears it as its output. */
  lemma {:induction false} DrainFeeds(w: Walk, retain: bool, u: nat)
    requires WalkInv(w) && u < |w.g.vars| && Consistent(w.g) && Shaped(w.g) && Ready(w)
    ensures var d := Drain(w, retain);
            d.1.None? && Kept(w.g, d.0.trace, u, retain) && Fed(w.g, d.0.trace, |w.trace|, u, retain) ==>
              d.0.g.vars[u].grad.Some?
    decreases |Range(|w.g.funcs|) - w.seen|, |w.pending|
  {
    var d := Drain(w, retain);
    if |w.pending| > 0 && d.1.None? && Kept(w.g, d.0.trace, u, retain) && Fed(w.g, d.0.trace, |w.trace|, u, retain) {
      var s := Step(w, retain).0;
      StepProgresses(w, retain);
      FeedsTurn(w, retain, u);
      if s.g.vars[u].grad.Some? {
        DrainKeepsPresent(s, retain, u);
      } else {
        DrainFeeds(s, retain, u);
      }
    }
  }

  /** The first turn of a completed loop that clears nothing of `u`'s and
      in which some Function touching `u` runs: it keeps the walk's
      invariants, and either `u` now holds a gradient or a Function touching
      `u` runs later. */
  lemma FeedsTurn(w: Walk, retain: bool, u: nat)
    requires WalkInv(w) && |w.pending| > 0 && u < |w.g.vars| && Consistent(w.g) && Shaped(w.g) && Ready(w)
    requires Drain(w, retain).1.None? && Kept(w.g, Drain(w, retain).0.trace, u, retain)
    requires Fed(w.g, Drain(w, retain).0.trace, |w.trace|, u, retain)
    ensures var s := Step(w, retain).0;
            && Drain(w, retain) == Drain(s, retain)
            && WalkInv(s) && u < |s.g.vars| && Consistent(s.g) && Shaped(s.g) && Ready(s)
            && Kept(s.g, Drain(s, retain).0.trace, u, retain)
            && (s.g.vars[u].grad.Some? || Fed(s.g, Drain(s, retain).0.trace, |s.trace|, u, retain))
  {
    KeptHead(w, retain, u);
    StepExtends(w, retain);
    StepKeepsReady(w, retain);
    FeedsHead(w, retain, u);
  }

  /** In the first turn of a completed loop in which some Function touching
      `u` runs, either that Function runs now and `u` receives a gradient,
      or it runs later. */
  lemma FeedsHead(w: Walk, retain: bool, u: nat)
    requires WalkInv(w) && |w.pending| > 0 && u < |w.g.vars| && Consistent(w.g) && Shaped(w.g) && Ready(w)
    requires Step(w, retain).1.None? && Drain(w, retain) == Drain(Step(w, retain).0, retain)
    requires Fed(w.g, Drain(w, retain).0.trace, |w.trace|, u, retain)
    ensures Step(w, retain).0.g.vars[u].grad.Some? ||
            Fed(Step(w, retain).0.g, Drain(Step(w, retain).0, retain).0.trace, |Step(w, retain).0.trace|, u, retain)
  {
    var d := Drain(w, retain);
    var s := Step(w, retain).0;
    var f := Last(w.pending);
    var i :| |w.trace| <= i < |d.0.trace| && Touches(w.g, d.0.trace[i], u, retain);
    if i == |w.trace| {
      assert Extended(s.trace, d.0.trace) && s.trace[|w.trace|] == f;
      ExtendedAt(s.trace, d.0.trace, |w.trace|);
      assert w.g.vars[w.g.funcs[f].outputs[0]].grad.Some? by {
        assert w.pending[|w.pending| - 1] == f;
      }
      StepFeeds(w, retain, u);
    } else {
      assert Touches(s.g, d.0.trace[i], u, retain);
    }
  }

  /** Before the loop the one pending Function is `v`'s creator, and its
      one output is `v`, which is seeded. */
  lemma StartReady(g: Graph, v: nat)
    requires Valid(g) && Consistent(g) && Shaped(g) && v < |g.vars| && g.vars[v].creator.Some?
    ensures Ready(Start(g, v))
  {
    var f := g.vars[v].creator.value;
    var w := Start(g, v);
    assert v in g.funcs[f].outputs;
    assert g.funcs[f].outputs == [v] by {
      assert g.funcs[f].outputs == [g.funcs[f].outputs[0]];
    }
    assert w.g.funcs == g.funcs && w.pending == [f] && w.g.vars[v].grad.Some?;
    forall i, k | 0 <= i < |w.pending| && 0 <= k < |w.g.funcs[w.pending[i]].outputs|
      ensures w.g.vars[w.g.funcs[w.pending[i]].outputs[k]].grad.Some?
    {
      assert w.pending[i] == f && g.funcs[f].outputs[k] == v;
    }
  }

  /** Whether Functions keep their shape and touch or clear a Variable
      depends on the Functions alone. */
  lemma SameFuncs(g: Graph, h: Graph, fs: seq<nat>, u: nat, retain: bool)
    requires h.funcs == g.funcs && Refs(fs, |g.funcs|)
    ensures Shaped(g) == Shaped(h)
    ensures Kept(g, fs, u, retain) == Kept(h, fs, u, retain)
    ensures Fed(g, fs, 0, u, retain) == Fed(h, fs, 0, u, retain)
  {
  }

  /** A completed loop from a fresh walk over a copy of `g` whose pending
      Functions' outputs hold gradients feeds every Variable its Functions
      touch and do not clear. */
  lemma FeedsFrom(g: Graph, w0: Walk, retain: bool, u: nat)
    requires u < |g.vars| && WalkInv(w0) && w0.g.funcs == g.funcs && |w0.g.vars| == |g.vars|
    requires Consistent(w0.g) && Shaped(w0.g) && Ready(w0) && w0.trace == []
    ensures var d := Drain(w0, retain);
            d.1.None? && Kept(g, d.0.trace, u, retain) && Fed(g, d.0.trace, 0, u, retain) ==> d.0.g.vars[u].grad.Some?
  {
    var d := Drain(w0, retain);
    SameFuncs(g, w0.g, d.0.trace, u, retain);
    DrainFeeds(w0, retain, u);
  }

  /** After a completed `backward()` on a graph of recorded Functions, every
      Variable a Function that ran touches holds a gradient: each input, and
      with `retain_grad` each output, unless a Function that ran clears it as
      its output. */
  lemma BackwardFeeds(g: Graph, v: nat, retain: bool, u: nat)
    requires Valid(g) && Consistent(g) && Shaped(g) && v < |g.vars| && u < |g.vars|
    ensures var r := BackwardSpec(g, v, retain);
            r.error.None? && Kept(g, r.trace, u, retain) && Fed(g, r.trace, 0, u, retain) ==> r.g.vars[u].grad.Some?
  {
    if g.vars[v].creator.Some? {
      var w0 := Start(g, v);
      StartReady(g, v);
      GradsDoNotMatter(g, w0.g);
      SameFuncs(g, w0.g, [], u, retain);
      FeedsFrom(g, w0, retain, u);
    }
  }

  /** A root input, the output of no Function, of a Function that ran holds
      a gradient (it is not `None`) after a completed `backward()`. */
  lemma RootInputsReceive(g: Graph, v: nat, retain: bool, u: nat)
    requires Valid(g) && Consistent(g) && Shaped(g) && v < |g.vars| && u < |g.vars|
    requires forall f :: 0 <= f < |g.funcs| ==> u !in g.funcs[f].outputs
    ensures var r := BackwardSpec(g, v, retain);
            r.error.None? && (exists i :: 0 <= i < |r.trace| && u in g.funcs[r.trace[i]].inputs) ==> r.g.vars[u].grad.Some?
  {
    var r := BackwardSpec(g, v, retain);
    if r.error.None? && exists i :: 0 <= i < |r.trace| && u in g.funcs[r.trace[i]].inputs {
      var i :| 0 <= i < |r.trace| && u in g.funcs[r.trace[i]].inputs;
      assert Touches(g, r.trace[i], u, retain);
      BackwardFeeds(g, v, retain, u);
    }
  }

  /** With `retain_grad`, after a completed `backward()` on a graph of
      recorded Functions, every input and output of a Function that ran
      holds a gradient. */
  lemma RetainFeedsAll(g: Graph, v: nat)
    requires Valid(g) && Consistent(g) && Shaped(g) && v < |g.vars|
    ensures var r := BackwardSpec(g, v, true);
            r.error.None? ==> forall i, u :: 0 <= i < |r.trace| && 0 <= u < |g.vars| && Touches(g, r.trace[i], u, true) ==>
              r.g.vars[u].grad.Some?
  {
    var r := BackwardSpec(g, v, true);
    forall i, u | r.error.None? && 0 <= i < |r.trace| && 0 <= u < |g.vars| && Touches(g, r.trace[i], u, true)
      ensures r.g.vars[u].grad.Some?
    {
      BackwardFeeds(g, v, true, u);
    }
  }

  /** Function `p` is `c`, the Function `backward()` starts from, or it
      created an input of one of the first `n` Functions of `fs`. */
  predicate Sourced(g: Graph, c: nat, fs: seq<nat>, n: nat, p: nat)
    requires Valid(g) && Refs(fs, |g.funcs|) && n <= |fs|
  {
    p == c || exists i :: 0 <= i < n && CreatesInput(g, g.funcs[fs[i]].inputs, p)
  }

  /** Every Function of the walk was reached from `c`: each that ran
      through the Functions that ran before it, each pending one through
      those that ran. */
  predicate Reached(g: Graph, c: nat, w: Walk)
    requires Valid(g) && Refs(w.trace, |g.funcs|)
  {
    && (forall i :: 0 <= i < |w.trace| ==> Sourced(g, c, w.trace, i, w.trace[i]))
    && (forall i :: 0 <= i < |w.pending| ==> Sourced(g, c, w.trace, |w.trace|, w.pending[i]))
  }

  /** Appending to the Functions that ran keeps what they reach. */
  lemma SourcedStays(g: Graph, c: nat, a: seq<nat>, b: seq<nat>, n: nat, m: nat, p: nat)
    requires Valid(g) && Refs(a, |g.funcs|) && Refs(b, |g.funcs|) && Extended(a, b) && n <= m <= |a|
    ensures Sourced(g, c, a, n, p) ==> Sourced(g, c, b, m, p)
  {
    if p != c && Sourced(g, c, a, n, p) {
      var i :| 0 <= i < n && CreatesInput(g, g.funcs[a[i]].inputs, p);
      ExtendedAt(a, b, i);
    }
  }

  /** A step keeps every Function of the walk reached from `c`: the one it
      runs was pending, and the ones it queues created its inputs. */
  lemma StepKeepsReached(g: Graph, c: nat, w: Walk, retain: bool)
    requires Valid(g) && WalkInv(w) && |w.pending| > 0 && OnlyGradsDiffer(g, w.g) && Reached(g, c, w)
    ensures Reached(g, c, Step(w, retain).0)
  {
    var s := Step(w, retain).0;
    var f := Last(w.pending);
    assert Sourced(g, c, w.trace, |w.trace|, w.pending[|w.pending| - 1]);
    TraceSourced(g, c, w.trace, f);
    forall i | 0 <= i < |s.pending|
      ensures Sourced(g, c, s.trace, |s.trace|, s.pending[i])
    {
      NewSourced(g, c, w, s, s.pending[i]);
    }
  }

  /** Running a Function reached from what ran before keeps every Function
      of the trace reached. */
  lemma TraceSourced(g: Graph, c: nat, t: seq<nat>, f: nat)
    requires Valid(g) && Refs(t, |g.funcs|) && f < |g.funcs|
    requires forall i :: 0 <= i < |t| ==> Sourced(g, c, t, i, t[i])
    requires Sourced(g, c, t, |t|, f)
    ensures forall i :: 0 <= i < |t + [f]| ==> Sourced(g, c, t + [f], i, (t + [f])[i])
  {
    var s := t + [f];
    assert Extended(t, s) by {
      assert s[..|t|] == t;
    }
    forall i | 0 <= i < |s|
      ensures Sourced(g, c, s, i, s[i])
    {
      if i < |t| {
        ExtendedAt(t, s, i);
        SourcedStays(g, c, t, s, i, i, t[i]);
      } else {
        SourcedStays(g, c, t, s, |t|, |t|, f);
      }
    }
  }

  /** Everything pending after a step following `w` is reached from `c`. */
  lemma NewSourced(g: Graph, c: nat, w: Walk, s: Walk, p: nat)
    requires Valid(g) && Indexed(w) && Indexed(s) && |w.pending| > 0 && OnlyGradsDiffer(g, w.g)
    requires Reached(g, c, w) && Follows(w, s) && p in s.pending
    ensures Sourced(g, c, s.trace, |s.trace|, p)
  {
    var f := Last(w.pending);
    var n := |w.trace|;
    assert Extended(w.trace, s.trace) by {
      assert s.trace[..n] == w.trace;
    }
    if p in w.pending[..|w.pending| - 1] {
      var j :| 0 <= j < |w.pending| - 1 && w.pending[j] == p;
      assert Sourced(g, c, w.trace, n, w.pending[j]);
      SourcedStays(g, c, w.trace, s.trace, n, n, p);
    } else {
      var j :| 0 <= j < |w.g.funcs[f].inputs| && w.g.vars[w.g.funcs[f].inputs[j]].creator == Some(p);
      assert g.vars[g.funcs[s.trace[n]].inputs[j]].creator == Some(p);
      assert CreatesInput(g, g.funcs[s.trace[n]].inputs, p);
    }
  }

  /** The whole loop keeps every Function of the walk reached from `c`. */
  lemma {:induction false} DrainKeepsReached(g: Graph, c: nat, w: Walk, retain: bool)
    requires Valid(g) && WalkInv(w) && OnlyGradsDiffer(g, w.g) && Reached(g, c, w)
    ensures Reached(g, c, Drain(w, retain).0)
    decreases |Range(|w.g.funcs|) - w.seen|, |w.pending|
  {
    if |w.pending| > 0 {
      var s := Step(w, retain);
      StepProgresses(w, retain);
      StepKeepsReached(g, c, w, retain);
      DrainUnfolds(w, retain);
      if s.1.None? {
        GradsOnlyTrans(g, w.g, s.0.g);
        DrainKeepsReached(g, c, s.0, retain);
      }
    }
  }

  /** `backward()` from `v` runs `v`'s creator first and then only
      Functions that created an input of a Function that ran before them:
      it reaches the graph through creator links alone. */
  lemma BackwardReaches(g: Graph, v: nat, retain: bool)
    requires Valid(g) && v < |g.vars|
    ensures var r := BackwardSpec(g, v, retain);
            g.vars[v].creator.Some? ==> forall i :: 0 <= i < |r.trace| ==> Sourced(g, g.vars[v].creator.value, r.trace, i, r.trace[i])
  {
    if g.vars[v].creator.Some? {
      var c := g.vars[v].creator.value;
      var w0 := Start(g, v);
      assert Reached(g, c, w0);
      DrainKeepsReached(g, c, w0, retain);
    }
  }

  /** After `a.unchain()`, a backward pass from any Variable never runs the
      Function that had created `a`, in a graph of recorded Functions: that
      Function's one output is `a`, so no Variable names it as its creator
      any more, and the walk reaches Functions through creators alone. */
  lemma UnchainPrunes(g: Graph, a: nat, v: nat, retain: bool, f: nat)
    requires Valid(g) && Consistent(g) && Shaped(g) && a < |g.vars| && v < |g.vars|
    requires g.vars[a].creator == Some(f)
    ensures f !in BackwardSpec(UnchainAt(g, a), v, retain).trace
  {
    var h := UnchainAt(g, a);
    assert a in g.funcs[f].outputs;
    assert g.funcs[f].outputs == [a] by {
      assert g.funcs[f].outputs == [g.funcs[f].outputs[0]];
    }
    forall u | 0 <= u < |h.vars|
      ensures h.vars[u].creator != Some(f)
    {
      assert u != a ==> g.vars[u].creator.Some? ==> u in g.funcs[g.vars[u].creator.value].outputs;
    }
    Unreached(h, v, retain, f);
  }

  /** A Function no Variable names as its creator never runs. */
  lemma Unreached(g: Graph, v: nat, retain: bool, f: nat)
    requires Valid(g) && v < |g.vars|
    requires forall u :: 0 <= u < |g.vars| ==> g.vars[u].creator != Some(f)
    ensures f !in BackwardSpec(g, v, retain).trace
  {
    var r := BackwardSpec(g, v, retain);
    if g.vars[v].creator.Some? {
      var c := g.vars[v].creator.value;
      BackwardReaches(g, v, retain);
      forall i | 0 <= i < |r.trace|
        ensures r.trace[i] != f
      {
        assert Sourced(g, c, r.trace, i, r.trace[i]);
        NotSourced(g, c, r.trace, i, f);
      }
    }
  }

  /** A Function no Variable names as its creator, other than the start,
      is reached from nothing. */
  lemma NotSourced(g: Graph, c: nat, fs: seq<nat>, n: nat, f: nat)
    requires Valid(g) && Refs(fs, |g.funcs|) && n <= |fs| && f != c
    requires forall u :: 0 <= u < |g.vars| ==> g.vars[u].creator != Some(f)
    ensures !Sourced(g, c, fs, n, f)
  {
    forall i | 0 <= i < n
      ensures !CreatesInput(g, g.funcs[fs[i]].inputs, f)
    {
    }
  }
}
