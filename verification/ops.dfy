/** What each operation computes on its inputs' data (`forward`) and the
    local gradient rule it applies during the backward pass (`backward`),
    for Add, Sub, Neg, Mul, Div, Pow and Reshape. Arrays are uniform (see
    `Arena.Tensor`), so every rule acts on one real per operand. */
module Ops {
  import opened Wrappers
  import opened Errors
  import opened Arena

  /** `x ** n` for a natural exponent. */
  function NatPower(x: real, n: nat): real {
    if n == 0 then 1.0 else x * NatPower(x, n - 1)
  }

  lemma {:induction false} NatPowerNonZero(x: real, n: nat)
    requires x != 0.0
    ensures NatPower(x, n) != 0.0
  {
    if n > 0 {
      NatPowerNonZero(x, n - 1);
      MulNonZero(x, NatPower(x, n - 1));
    }
  }

  lemma MulNonZero(a: real, b: real)
    requires a != 0.0 && b != 0.0
    ensures a * b != 0.0
  {
  }

  /** `x ** n` for an integer exponent; zero has no negative powers. */
  function Power(x: real, n: int): real
    requires x != 0.0 || n >= 0
  {
    if n >= 0 then NatPower(x, n)
    else
      NatPowerNonZero(x, -n);
      1.0 / NatPower(x, -n)
  }

  /** The number of operands `forward` takes. */
  function Arity(k: Kind): nat {
    match k
    case Add => 2
    case Sub => 2
    case Mul => 2
    case Div => 2
    case _ => 1
  }

  /** The Functions `__call__` records: each has as many inputs as its
      operation takes and one output, and no two share an output. */
  predicate Shaped(g: Graph) {
    && (forall f :: 0 <= f < |g.funcs| ==> |g.funcs[f].inputs| == Arity(g.funcs[f].kind) && |g.funcs[f].outputs| == 1)
    && (forall f1, f2 :: 0 <= f1 < |g.funcs| && 0 <= f2 < |g.funcs| && g.funcs[f1].outputs == g.funcs[f2].outputs ==> f1 == f2)
  }

  predicate AllSome(xs: seq<Option<Tensor>>) {
    forall i :: 0 <= i < |xs| ==> xs[i].Some?
  }

  /** The values of present data. */
  function Values(xs: seq<Option<Tensor>>): (vs: seq<real>)
    requires AllSome(xs)
    ensures |vs| == |xs|
    ensures forall i :: 0 <= i < |xs| ==> vs[i] == xs[i].value.value
  {
    if |xs| == 0 then [] else [xs[0].value.value] + Values(xs[1..])
  }

  /** The operation's value is a finite real: no division by zero, no
      negative power of zero. */
  predicate Defined(k: Kind, vs: seq<real>)
    requires |vs| == Arity(k)
  {
    match k
    case Div => vs[1] != 0.0
    case Pow(c) => vs[0] != 0.0 || c >= 0
    case _ => true
  }

  /** The value each operation computes. */
  function Eval(k: Kind, vs: seq<real>): real
    requires |vs| == Arity(k) && Defined(k, vs)
  {
    match k
    case Add => vs[0] + vs[1]
    case Sub => vs[0] - vs[1]
    case Neg => -vs[0]
    case Mul => MulForward(vs[0], vs[1])
    case Div => DivForward(vs[0], vs[1])
    case Pow(c) => Power(vs[0], c)
    case Reshape(_) => vs[0]
  }

  /** `Mul.forward`. */
  function MulForward(x0: real, x1: real): real {
    x0 * x1
  }

  /** `Div.forward`. */
  function DivForward(x0: real, x1: real): real
    requires x1 != 0.0
  {
    x0 / x1
  }

  /** The partial derivatives are finite reals. */
  predicate DiffDefined(k: Kind, vs: seq<real>)
    requires |vs| == Arity(k)
  {
    match k
    case Div => vs[1] != 0.0
    case Pow(c) => vs[0] != 0.0 || c >= 1
    case _ => true
  }

  /** The partial derivative of `Eval(k, vs)` in operand `i`, written out
      from calculus. */
  function Partial(k: Kind, vs: seq<real>, i: nat): real
    requires |vs| == Arity(k) && DiffDefined(k, vs) && i < Arity(k)
  {
    match k
    case Add => 1.0
    case Sub => if i == 0 then 1.0 else -1.0
    case Neg => -1.0
    case Mul => MulPartial(vs[0], vs[1], i)
    case Div => DivPartial(vs[0], vs[1], i)
    case Pow(c) => PowPartial(c, vs[0])
    case Reshape(_) => 1.0
  }

  /** The partial derivatives of `x0 * x1`: `x1` and `x0`. */
  function MulPartial(x0: real, x1: real, i: nat): real {
    if i == 0 then x1 else x0
  }

  /** The partial derivatives of `x0 / x1`: `1 / x1` and `-x0 / x1 ** 2`. */
  function DivPartial(x0: real, x1: real, i: nat): real
    requires x1 != 0.0
  {
    if i == 0 then 1.0 / x1 else -x0 / (x1 * x1)
  }

  /** The derivative of `x ** c`: `c * x ** (c - 1)`. */
  function PowPartial(c: int, x: real): real
    requires x != 0.0 || c >= 1
  {
    (c as real) * Power(x, c - 1)
  }

  /** The numpy broadcast of two shapes: aligned from the right, each pair of
      dimensions must agree or one of them be 1. */
  function Broadcast(a: seq<nat>, b: seq<nat>): (r: Result<seq<nat>, Error>)
    ensures a == b ==> r == Success(a)
    ensures r.Success? ==> |r.value| == if |a| >= |b| then |a| else |b|
    ensures r.Failure? ==> r.error == ValueError
    decreases |a|
  {
    if |a| == 0 then Success(b)
    else if |b| == 0 then Success(a)
    else
      var x := a[|a| - 1];
      var y := b[|b| - 1];
      if x == y || x == 1 || y == 1 then
        match Broadcast(a[..|a| - 1], b[..|b| - 1])
        case Success(p) =>
          assert a == b ==> a[..|a| - 1] == b[..|b| - 1] && p == a[..|a| - 1];
          assert a == a[..|a| - 1] + [x];
          Success(p + [if x == 1 then y else x])
        case Failure(e) => Failure(e)
      else Failure(ValueError)
  }

  function Product(s: seq<nat>): nat {
    if |s| == 0 then 1 else s[0] * Product(s[1..])
  }

  /** `forward` of each operation on its operands' data. A call with the
      wrong number of operands raises TypeError. Add reads `.shape` of its
      operands first, so `None` data raises AttributeError there; the other
      arithmetic raises TypeError on `None`. Shapes that do not broadcast, or
      a reshape that changes the element count, raise ValueError. */
  function Forward(k: Kind, xs: seq<Option<Tensor>>): (r: Result<seq<Tensor>, Error>)
    ensures |xs| != Arity(k) ==> r == Failure(TypeError)
    ensures r.Success? ==>
              && |xs| == Arity(k) && AllSome(xs) && Defined(k, Values(xs))
              && |r.value| == 1
              && r.value[0].value == Eval(k, Values(xs))
    ensures |xs| == Arity(k) && !AllSome(xs) ==> r.Failure? && r.error == (if k.Add? || k.Reshape? then AttributeError else TypeError)
    ensures |xs| == Arity(k) && AllSome(xs) && !Defined(k, Values(xs)) ==> r.Failure?
    ensures Arity(k) == 2 && |xs| == 2 && AllSome(xs) && xs[0].value.shape == xs[1].value.shape && Defined(k, Values(xs)) ==>
              r == Success([Tensor(Eval(k, Values(xs)), xs[0].value.shape)])
    ensures Arity(k) == 1 && |xs| == 1 && AllSome(xs) && Defined(k, Values(xs)) && r.Success? ==>
              r.value[0].shape == if k.Reshape? then k.shape else xs[0].value.shape
    ensures k.Reshape? && |xs| == 1 && AllSome(xs) ==> (r.Success? <==> Product(xs[0].value.shape) == Product(k.shape))
  {
    if |xs| != Arity(k) then Failure(TypeError)
    else if !AllSome(xs) then
      Failure(if k.Add? || k.Reshape? then AttributeError else TypeError)
    else
      var vs := Values(xs);
      match k
      case Reshape(s) =>
        if Product(xs[0].value.shape) != Product(s) then Failure(ValueError)
        else Success([Tensor(Eval(k, vs), s)])
      case Neg => Success([Tensor(Eval(k, vs), xs[0].value.shape)])
      case Pow(c) =>
        if !Defined(k, vs) then Failure(NonFinite)
        else Success([Tensor(Eval(k, vs), xs[0].value.shape)])
      case _ =>
        match Broadcast(xs[0].value.shape, xs[1].value.shape)
        case Failure(e) => Failure(e)
        case Success(s) =>
          if !Defined(k, vs) then Failure(NonFinite)
          else Success([Tensor(Eval(k, vs), s)])
  }

  /** `backward` of each operation: given one output gradient `gy` (a
      Python call with any other number is a TypeError) and the data of the
      Function's inputs, one gradient per input.
      Add hands `gy` through as it is, so a missing `gy` comes back as two
      missing gradients; Reshape reads `gy.shape`, so a missing `gy` raises
      AttributeError there; every other rule computes with `gy` and raises
      TypeError when it is `None`. When everything is present, the gradient
      of input `i` is `gy` times the partial derivative in operand `i`: the
      rules are the chain rule for these operations. */
  function LocalGradient(k: Kind, xs: seq<Option<Tensor>>, gys: seq<Option<real>>): (r: Result<seq<Option<real>>, Error>)
    ensures |gys| != 1 ==> r == Failure(TypeError)
    ensures r.Success? ==> |r.value| == Arity(k)
    ensures |gys| == 1 && gys[0].Some? && |xs| == Arity(k) && AllSome(xs) && DiffDefined(k, Values(xs)) ==> r.Success?
    ensures |gys| == 1 && gys[0].None? ==>
              if k.Add? then r == Success([None, None])
              else if k.Reshape? then r == Failure(AttributeError)
              else r.Failure?
    ensures |gys| == 1 && gys[0].Some? && r.Success? ==> forall i :: 0 <= i < |r.value| ==> r.value[i].Some?
  {
    if |gys| != 1 then Failure(TypeError)
    else
      var gy := gys[0];
      match k
      case Add => Success([gy, gy])
      case Reshape(_) => if gy.None? then Failure(AttributeError) else Success([gy])
      case Neg => if gy.None? then Failure(TypeError) else Success([Some(-gy.value)])
      case Sub => if gy.None? then Failure(TypeError) else Success([gy, Some(-gy.value)])
      case Mul =>
        if |xs| != 2 then Failure(ValueError)
        else if gy.None? || xs[0].None? || xs[1].None? then Failure(TypeError)
        else Success(MulBackward(gy.value, xs[0].value.value, xs[1].value.value))
      case Div =>
        if |xs| != 2 then Failure(ValueError)
        else if gy.None? || xs[0].None? || xs[1].None? then Failure(TypeError)
        else if xs[1].value.value == 0.0 then Failure(NonFinite)
        else Success(DivBackward(gy.value, xs[0].value.value, xs[1].value.value))
      case Pow(c) =>
        if |xs| == 0 then Failure(IndexError)
        else if xs[0].None? then Failure(TypeError)
        else if xs[0].value.value == 0.0 && c - 1 < 0 then Failure(NonFinite)
        else if gy.None? then Failure(TypeError)
        else Success(PowBackward(c, xs[0].value.value, gy.value))
  }

  /** `Mul.backward`: `(gy * x1, gy * x0)`. */
  function MulBackward(gy: real, x0: real, x1: real): seq<Option<real>> {
    [Some(gy * x1), Some(gy * x0)]
  }

  /** `Div.backward`: `(gy / x1, gy * (-x0) / x1 ** 2)`. */
  function DivBackward(gy: real, x0: real, x1: real): seq<Option<real>>
    requires x1 != 0.0
  {
    [Some(gy / x1), Some(gy * (-x0) / (x1 * x1))]
  }

  /** `Pow.backward`: `c * x ** (c - 1) * gy`. */
  function PowBackward(c: int, x: real, gy: real): seq<Option<real>>
    requires x != 0.0 || c >= 1
  {
    [Some((c as real) * Power(x, c - 1) * gy)]
  }

  lemma MulChain(gy: real, x0: real, x1: real)
    ensures |MulBackward(gy, x0, x1)| == 2
    ensures MulBackward(gy, x0, x1)[0] == Some(gy * MulPartial(x0, x1, 0))
    ensures MulBackward(gy, x0, x1)[1] == Some(gy * MulPartial(x0, x1, 1))
  {
    assert MulBackward(gy, x0, x1)[0].value == gy * MulPartial(x0, x1, 0);
    assert MulBackward(gy, x0, x1)[1].value == gy * MulPartial(x0, x1, 1);
  }

  lemma DivChain(gy: real, x0: real, x1: real)
    requires x1 != 0.0
    ensures DivBackward(gy, x0, x1) == [Some(gy * DivPartial(x0, x1, 0)), Some(gy * DivPartial(x0, x1, 1))]
  {
    NegatedQuotient(gy, x0, x1 * x1);
    Reciprocal(gy, x1);
    assert DivBackward(gy, x0, x1)[0].value == gy * DivPartial(x0, x1, 0);
    assert DivBackward(gy, x0, x1)[1].value == gy * DivPartial(x0, x1, 1);
  }

  lemma Reciprocal(g: real, d: real)
    requires d != 0.0
    ensures g / d == g * (1.0 / d)
  {
  }

  lemma NegatedQuotient(g: real, a: real, d: real)
    requires d != 0.0
    ensures g * (-a) / d == g * (-a / d)
  {
  }

  lemma PowChain(c: int, x: real, gy: real)
    requires x != 0.0 || c >= 1
    ensures PowBackward(c, x, gy) == [Some(gy * PowPartial(c, x))]
  {
    Commute3(c as real, Power(x, c - 1), gy);
    assert PowBackward(c, x, gy)[0].value == gy * PowPartial(c, x);
  }

  lemma Commute3(a: real, b: real, g: real)
    ensures a * b * g == g * (a * b)
  {
  }

  /** When the output gradient and every input's data are present, each rule
      returns, for input `i`, the output gradient times the partial
      derivative of the operation in operand `i`: the rules are the chain
      rule for these operations. */
  lemma {:induction false} LocalGradientIsChainRule(k: Kind, xs: seq<Option<Tensor>>, gy: real)
    requires |xs| == Arity(k) && AllSome(xs) && DiffDefined(k, Values(xs))
    ensures LocalGradient(k, xs, [Some(gy)]).Success?
    ensures forall i :: 0 <= i < Arity(k) ==>
              && LocalGradient(k, xs, [Some(gy)]).value[i].Some?
              && LocalGradient(k, xs, [Some(gy)]).value[i].value == gy * Partial(k, Values(xs), i)
  {
    var vs := Values(xs);
    match k
    case Add =>
    case Sub =>
    case Neg =>
    case Reshape(_) =>
    case Mul =>
      MulGradient(xs, gy);
    case Div =>
      DivChain(gy, xs[0].value.value, xs[1].value.value);
    case Pow(c) =>
      PowChain(c, xs[0].value.value, gy);
  }

  lemma MulGradient(xs: seq<Option<Tensor>>, gy: real)
    requires |xs| == 2 && AllSome(xs)
    ensures LocalGradient(Mul, xs, [Some(gy)]).Success?
    ensures forall i :: 0 <= i < 2 ==>
              && LocalGradient(Mul, xs, [Some(gy)]).value[i].Some?
              && LocalGradient(Mul, xs, [Some(gy)]).value[i].value == gy * Partial(Mul, Values(xs), i)
  {
    var vs := Values(xs);
    var a, b := vs[0], vs[1];
    MulChain(gy, a, b);
    assert MulBackward(gy, a, b)[0].value == gy * Partial(Mul, vs, 0);
    assert MulBackward(gy, a, b)[1].value == gy * Partial(Mul, vs, 1);
    assert LocalGradient(Mul, xs, [Some(gy)]) == Success(MulBackward(gy, a, b));
  }

  /** `vs` with `h` added to operand `i`. */
  function Bump(vs: seq<real>, i: nat, h: real): (ws: seq<real>)
    requires i < |vs|
    ensures |ws| == |vs| && ws[i] == vs[i] + h
    ensures forall j :: 0 <= j < |vs| && j != i ==> ws[j] == vs[j]
  {
    vs[i := vs[i] + h]
  }

  /** The second-order remainder of `(x + h) ** n` around `x`. */
  function PowRemainder(x: real, h: real, n: nat): real {
    if n <= 1 then 0.0
    else (x + h) * PowRemainder(x, h, n - 1) + ((n - 1) as real) * NatPower(x, n - 2)
  }

  lemma ExpansionStep(x: real, h: real, p: real, q: real, m: real, a: real, b: real, c: real, d: real, e: real, k: real)
    requires a == d + h * m * p + h * h * q
    requires b == (x + h) * a
    requires c == x * d
    requires d == x * p
    requires e == (x + h) * q + m * p
    requires k == m + 1.0
    ensures b == c + h * k * d + h * h * e
  {
  }

  /** The binomial expansion of `(x + h) ** n` to first order. */
  lemma {:induction false} PowExpansion(x: real, h: real, n: nat)
    requires n >= 1
    ensures NatPower(x + h, n) == NatPower(x, n) + h * (n as real) * NatPower(x, n - 1) + h * h * PowRemainder(x, h, n)
  {
    if n > 1 {
      PowExpansion(x, h, n - 1);
      ExpansionUnfolds(x, h, n);
      ExpansionStep(x, h, NatPower(x, n - 2), PowRemainder(x, h, n - 1), (n - 1) as real, NatPower(x + h, n - 1),
        NatPower(x + h, n), NatPower(x, n), NatPower(x, n - 1), PowRemainder(x, h, n), n as real);
    }
  }

  /** One unfolding of each power and of the remainder. */
  lemma ExpansionUnfolds(x: real, h: real, n: nat)
    requires n > 1
    ensures NatPower(x + h, n) == (x + h) * NatPower(x + h, n - 1)
    ensures NatPower(x, n) == x * NatPower(x, n - 1) && NatPower(x, n - 1) == x * NatPower(x, n - 2)
    ensures PowRemainder(x, h, n) == (x + h) * PowRemainder(x, h, n - 1) + ((n - 1) as real) * NatPower(x, n - 2)
    ensures n as real == ((n - 1) as real) + 1.0
  {
  }

  /** The residual of the first-order approximation, divided by `h * h`. */
  function Remainder(k: Kind, vs: seq<real>, i: nat, h: real): real
    requires |vs| == Arity(k) && i < Arity(k)
    requires k.Div? ==> vs[1] != 0.0 && (i == 1 ==> vs[1] + h != 0.0)
  {
    match k
    case Div => if i == 0 then 0.0 else DivRemainder(vs[0], vs[1], h)
    case Pow(c) => if c >= 0 then PowRemainder(vs[0], h, c) else 0.0
    case _ => 0.0
  }

  /** The second-order remainder of `x0 / (x1 + h)` around `x1`. */
  function DivRemainder(x0: real, x1: real, h: real): real
    requires x1 != 0.0 && x1 + h != 0.0
  {
    CubeNonZero(x1, x1 + h);
    x0 / Cube(x1, x1 + h)
  }

  /** `a * a * b`, kept behind a function so that the solver treats it as
      one quantity. */
  function Cube(a: real, b: real): real {
    a * a * b
  }

  lemma CubeUnfold(a: real, b: real)
    ensures Cube(a, b) == a * a * b
  {
  }

  lemma CubeNonZero(a: real, b: real)
    requires a != 0.0 && b != 0.0
    ensures Cube(a, b) != 0.0
  {
    CubeUnfold(a, b);
    if Cube(a, b) == 0.0 {
      ZeroProduct(a * a, b);
      ZeroProduct(a, a);
      assert false;
    }
  }

  lemma ZeroProduct(p: real, q: real)
    requires p * q == 0.0
    ensures p == 0.0 || q == 0.0
  {
  }

  lemma CubeMultiples(x0: real, a: real, b: real)
    requires a != 0.0 && b != 0.0
    ensures Cube(a, b) != 0.0
    ensures (x0 / b) * Cube(a, b) == x0 * a * a
    ensures (x0 / a) * Cube(a, b) == x0 * a * b
    ensures (-x0 / (a * a)) * Cube(a, b) == -x0 * b
    ensures (x0 / Cube(a, b)) * Cube(a, b) == x0
  {
    CubeNonZero(a, b);
  }

  lemma Cancel(e: real, d: real)
    requires d != 0.0 && e * d == 0.0
    ensures e == 0.0
  {
  }

  lemma DivResidual(u: real, v: real, w: real, z: real, d: real, x0: real, a: real, b: real, h: real)
    requires b == a + h
    requires u * d == x0 * a * a
    requires v * d == x0 * a * b
    requires w * d == -x0 * b
    requires z * d == x0
    ensures (u - v - (h * w + h * h * z)) * d == 0.0
  {
    calc {
      (u - v - (h * w + h * h * z)) * d;
      u * d - v * d - h * (w * d) - h * h * (z * d);
      x0 * a * a - x0 * a * b - h * (-x0 * b) - h * h * x0;
      0.0;
    }
  }

  /** Moving the divisor of `x0 / a` to `b`. */
  lemma DivisorDerivative(x0: real, a: real, b: real, h: real)
    requires a != 0.0 && b != 0.0 && b == a + h
    ensures Cube(a, b) != 0.0
    ensures x0 / b - x0 / a == h * (-x0 / (a * a)) + h * h * (x0 / Cube(a, b))
  {
    CubeMultiples(x0, a, b);
    DivResidual(x0 / b, x0 / a, -x0 / (a * a), x0 / Cube(a, b), Cube(a, b), x0, a, b, h);
    Cancel(x0 / b - x0 / a - (h * (-x0 / (a * a)) + h * h * (x0 / Cube(a, b))), Cube(a, b));
  }

  lemma MulDerivative(x0: real, x1: real, h: real)
    ensures (x0 + h) * x1 - x0 * x1 == h * x1
    ensures x0 * (x1 + h) - x0 * x1 == h * x0
  {
  }

  lemma PowDerivative(x: real, h: real, c: nat)
    requires c >= 1
    ensures Power(x + h, c) - Power(x, c) == h * ((c as real) * Power(x, c - 1)) + h * h * PowRemainder(x, h, c)
  {
    PowExpansion(x, h, c);
    var n := NatPower(x, c - 1);
    assert h * (c as real) * n == h * ((c as real) * n);
  }

  /** Moving operand `i` of `vs` by `h` moves the value of `k` by `h` times
      the partial derivative, plus `h * h` times the remainder. */
  predicate FirstOrder(k: Kind, vs: seq<real>, i: nat, h: real)
    requires |vs| == Arity(k) && i < Arity(k)
    requires Defined(k, vs) && DiffDefined(k, vs) && Defined(k, Bump(vs, i, h))
    requires k.Div? ==> i == 1 ==> vs[1] + h != 0.0
  {
    Eval(k, Bump(vs, i, h)) - Eval(k, vs) == h * Partial(k, vs, i) + h * h * Remainder(k, vs, i, h)
  }

  lemma LinearDerivativeAt(k: Kind, vs: seq<real>, i: nat, h: real)
    requires k.Add? || k.Sub? || k.Neg? || k.Reshape?
    requires |vs| == Arity(k) && i < Arity(k)
    ensures FirstOrder(k, vs, i, h)
  {
    assert Remainder(k, vs, i, h) == 0.0;
  }

  lemma MulDerivativeAt(vs: seq<real>, i: nat, h: real)
    requires |vs| == 2 && i < 2
    ensures FirstOrder(Mul, vs, i, h)
  {
    MulDerivative(vs[0], vs[1], h);
  }

  lemma DivDerivativeAt(vs: seq<real>, i: nat, h: real)
    requires |vs| == 2 && i < 2
    requires vs[1] != 0.0 && Bump(vs, i, h)[1] != 0.0
    ensures FirstOrder(Div, vs, i, h)
  {
    if i == 1 {
      assert Bump(vs, i, h) == [vs[0], vs[1] + h];
      assert Eval(Div, Bump(vs, i, h)) == DivForward(vs[0], vs[1] + h);
      assert Eval(Div, vs) == DivForward(vs[0], vs[1]);
      assert Partial(Div, vs, i) == DivPartial(vs[0], vs[1], 1);
      assert Remainder(Div, vs, i, h) == DivRemainder(vs[0], vs[1], h);
      DivisorDerivative(vs[0], vs[1], vs[1] + h, h);
    } else {
      DivNumerator(vs[0], vs[1], h);
    }
  }

  lemma DivNumerator(x0: real, x1: real, h: real)
    requires x1 != 0.0
    ensures (x0 + h) / x1 - x0 / x1 == h * (1.0 / x1)
  {
  }

  lemma PowDerivativeAt(vs: seq<real>, c: int, h: real)
    requires |vs| == 1 && c >= 0
    requires DiffDefined(Pow(c), vs) && Defined(Pow(c), Bump(vs, 0, h))
    ensures FirstOrder(Pow(c), vs, 0, h)
  {
    var ws := Bump(vs, 0, h);
    assert ws[0] == vs[0] + h;
    assert Eval(Pow(c), ws) == Power(vs[0] + h, c) && Eval(Pow(c), vs) == Power(vs[0], c);
    assert Remainder(Pow(c), vs, 0, h) == PowRemainder(vs[0], h, c);
    if c == 0 {
      PowZeroDerivative(vs[0], h);
    } else {
      assert Partial(Pow(c), vs, 0) == (c as real) * Power(vs[0], c - 1);
      PowDerivative(vs[0], h, c);
    }
  }

  /** `x ** 0` is one whatever `x`, so its derivative is zero. */
  lemma PowZeroDerivative(x: real, h: real)
    requires x != 0.0
    ensures Power(x + h, 0) - Power(x, 0) == h * PowPartial(0, x) + h * h * PowRemainder(x, h, 0)
  {
    assert Power(x + h, 0) == 1.0 && Power(x, 0) == 1.0;
    assert PowPartial(0, x) == 0.0 && PowRemainder(x, h, 0) == 0.0;
  }

  /** Each local gradient rule is the derivative of its forward computation:
      moving operand `i` by `h` moves the value by `h` times the partial
      derivative, up to a term of order `h * h`. (Pow is covered for the
      non-negative exponents.) */
  lemma {:induction false} PartialIsDerivative(k: Kind, vs: seq<real>, i: nat, h: real)
    requires |vs| == Arity(k) && i < Arity(k)
    requires Defined(k, vs) && DiffDefined(k, vs) && Defined(k, Bump(vs, i, h))
    requires k.Pow? ==> k.c >= 0
    ensures FirstOrder(k, vs, i, h)
  {
    match k
    case Add => LinearDerivativeAt(k, vs, i, h);
    case Sub => LinearDerivativeAt(k, vs, i, h);
    case Neg => LinearDerivativeAt(k, vs, i, h);
    case Reshape(_) => LinearDerivativeAt(k, vs, i, h);
    case Mul => MulDerivativeAt(vs, i, h);
    case Div => DivDerivativeAt(vs, i, h);
    case Pow(c) => PowDerivativeAt(vs, c, h);
  }
}
