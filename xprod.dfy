/** The scalar-product program that motivates the evaluator:

      def xprod(a, b)
        i, prod = 0, 0
        while i < a.size
          prod += a[i] * b[i]
          i += 1
        end
        return prod
      end

    as the parser hands it over, and the proof that calling it on two arrays
    of fixnums yields their dot product, or raises "Array bounds" when the
    second array is the shorter one. */
module Xprod {
  import opened Syntax
  import opened Values
  import opened Semantics

  /** `a[i]` and `b[i]`. */
  function At(x: Name): Node
  {
    Call(LVar(x), "[]", [LVar("i")])
  }

  /** Both properties of the loop's parts at once. */
  ghost predicate LoopParts(c: Node, bd: Node, a: seq<int>, b: seq<int>, fuel: nat)
  {
    TestsBound(c, a, fuel) && BodyAdds(bd, a, b, fuel)
  }

  /** `i < a.size` */
  const Cond: Node := Call(LVar("i"), "<", [Call(LVar("a"), "size", [])])

  /** `a[i] * b[i]` */
  const Product: Node := Call(At("a"), "*", [At("b")])

  /** `prod += a[i] * b[i]`, which arrives as `prod = prod + a[i] * b[i]`. */
  const AddProduct: Node := LAsgn("prod", Call(LVar("prod"), "+", [Product]))

  /** `i += 1`, which arrives as `i = i + 1`. */
  const Advance: Node := LAsgn("i", Call(LVar("i"), "+", [Lit(1)]))

  const Body: Node := Block([AddProduct, Advance])

  /** `i, prod = 0, 0` */
  const Prologue: Node := MAsgn(["i", "prod"], [Lit(0), Lit(0)])

  /** `return prod` */
  const Epilogue: Node := Return(LVar("prod"))

  const XprodMethod: Method := Method(["a", "b"], Scope([Block([Prologue, While(Cond, Body), Epilogue])]))

  const XprodProgram: Node := Defn("xprod", XprodMethod.params, XprodMethod.body)

  /** The dot product of a with the first |a| elements of b. */
  function Dot(a: seq<int>, b: seq<int>): int
    requires |a| <= |b|
  {
    if |a| == 0 then 0 else Dot(a[..|a| - 1], b) + a[|a| - 1] * b[|a| - 1]
  }

  /** An array of fixnums, as the host builds it. */
  function Fixes(xs: seq<int>): (r: seq<Value>)
    ensures |r| == |xs|
    ensures forall i :: 0 <= i < |xs| ==> r[i] == Fix(xs[i])
  {
    seq(|xs|, i requires 0 <= i < |xs| => Fix(xs[i]))
  }

  /** The four variables the loop works on. */
  predicate LoopVars(env: Env, a: seq<int>, b: seq<int>, k: int, p: int)
  {
    && Lookup(env, "a") == Arr(Fixes(a))
    && Lookup(env, "b") == Arr(Fixes(b))
    && Lookup(env, "i") == Fix(k)
    && Lookup(env, "prod") == Fix(p)
  }

  /** The condition, evaluated with i == k, compares k with the size of a
      and changes nothing. */
  ghost predicate CondTest(c: Node, env: Env, a: seq<int>, k: int, fuel: nat)
  {
    EvalNode(c, env, fuel) == Step(Ok(Bool(k < |a|)), env)
  }

  /** The condition does so whenever a and i are set. */
  ghost predicate TestsBound(c: Node, a: seq<int>, fuel: nat)
  {
    forall env, k {:trigger CondTest(c, env, a, k, fuel)} ::
      Lookup(env, "a") == Arr(Fixes(a)) && Lookup(env, "i") == Fix(k) ==> CondTest(c, env, a, k, fuel)
  }

  /** One run of the body from i == k: prod grows by a[k] * b[k] and i by
      one, or the read of b[k] fails when b is too short. */
  ghost predicate BodyTurn(bd: Node, env: Env, a: seq<int>, b: seq<int>, k: int, p: int, fuel: nat)
    requires 0 <= k < |a|
  {
    var s := EvalNode(bd, env, fuel);
    if k < |b| then s.result.Ok? && LoopVars(s.env, a, b, k + 1, p + a[k] * b[k])
    else s.result == Err(ArrayBounds)
  }

  /** The body makes that turn whenever the loop variables hold. */
  ghost predicate BodyAdds(bd: Node, a: seq<int>, b: seq<int>, fuel: nat)
  {
    forall env, k, p {:trigger BodyTurn(bd, env, a, b, k, p, fuel)} :: LoopVars(env, a, b, k, p) && 0 <= k < |a| ==> BodyTurn(bd, env, a, b, k, p, fuel)
  }

  /** `i < a.size` */
  lemma CondValue(env: Env, a: seq<int>, k: int, fuel: nat)
    requires Lookup(env, "a") == Arr(Fixes(a)) && Lookup(env, "i") == Fix(k)
    ensures CondTest(Cond, env, a, k, fuel)
  {
    var size := Call(LVar("a"), "size", []);
    assert EvalNode(LVar("a"), env, fuel) == Step(Ok(Arr(Fixes(a))), env);
    assert EvalArgs([], env, fuel, []) == Step(Ok([]), env);
    assert EvalNode(size, env, fuel) == Step(Ok(Fix(|a|)), env);
    assert EvalArgs([size], env, fuel, []) == Step(Ok([Fix(|a|)]), env);
    assert EvalNode(LVar("i"), env, fuel) == Step(Ok(Fix(k)), env);
  }

  lemma AtValue(x: Name, xs: seq<int>, env: Env, k: int, fuel: nat)
    requires Lookup(env, x) == Arr(Fixes(xs)) && Lookup(env, "i") == Fix(k)
    ensures EvalNode(At(x), env, fuel)
         == Step(if 0 <= k < |xs| then Ok(Fix(xs[k])) else Err(ArrayBounds), env)
  {
    assert EvalNode(LVar(x), env, fuel) == Step(Ok(Arr(Fixes(xs))), env);
    assert EvalArgs([LVar("i")], env, fuel, []) == Step(Ok([Fix(k)]), env);
  }

  lemma ProductValue(env: Env, a: seq<int>, b: seq<int>, k: int, p: int, fuel: nat)
    requires LoopVars(env, a, b, k, p) && 0 <= k < |a|
    ensures EvalNode(Product, env, fuel)
         == Step(if k < |b| then Ok(Fix(a[k] * b[k])) else Err(ArrayBounds), env)
  {
    AtValue("a", a, env, k, fuel);
    AtValue("b", b, env, k, fuel);
    if k < |b| {
      assert EvalArgs([At("b")], env, fuel, []) == Step(Ok([Fix(b[k])]), env);
    }
  }

  /** `prod + a[i] * b[i]` */
  lemma SumValue(env: Env, a: seq<int>, b: seq<int>, k: int, p: int, fuel: nat)
    requires LoopVars(env, a, b, k, p) && 0 <= k < |a|
    ensures EvalNode(Call(LVar("prod"), "+", [Product]), env, fuel)
         == Step(if k < |b| then Ok(Fix(p + a[k] * b[k])) else Err(ArrayBounds), env)
  {
    ProductValue(env, a, b, k, p, fuel);
    assert EvalNode(LVar("prod"), env, fuel) == Step(Ok(Fix(p)), env);
    if k < |b| {
      assert EvalArgs([Product], env, fuel, []) == Step(Ok([Fix(a[k] * b[k])]), env);
    } else {
      assert EvalArgs([Product], env, fuel, []) == Step(Err(ArrayBounds), env);
    }
  }

  /** `prod += a[i] * b[i]` adds the product to prod, or fails reading b[i]. */
  lemma AddProductStep(env: Env, a: seq<int>, b: seq<int>, k: int, p: int, fuel: nat)
    requires LoopVars(env, a, b, k, p) && 0 <= k < |a|
    ensures k < |b| ==>
              EvalNode(AddProduct, env, fuel) == Step(Ok(Fix(p + a[k] * b[k])), Assign(env, "prod", Fix(p + a[k] * b[k])))
    ensures |b| <= k ==> EvalNode(AddProduct, env, fuel) == Step(Err(ArrayBounds), env)
  {
    SumValue(env, a, b, k, p, fuel);
  }

  /** `i += 1` adds one to i. */
  lemma AdvanceStep(env: Env, k: int, fuel: nat)
    requires Lookup(env, "i") == Fix(k)
    ensures EvalNode(Advance, env, fuel) == Step(Ok(Fix(k + 1)), Assign(env, "i", Fix(k + 1)))
  {
    var incr := Call(LVar("i"), "+", [Lit(1)]);
    assert EvalNode(LVar("i"), env, fuel) == Step(Ok(Fix(k)), env);
    assert EvalArgs([Lit(1)], env, fuel, []) == Step(Ok([Fix(1)]), env);
    assert EvalNode(incr, env, fuel) == Step(Ok(Fix(k + 1)), env);
  }

  /** One run of the loop body: prod grows by a[k] * b[k] and i by one, or
      the read of b[k] fails when b is too short. */
  lemma BodyStep(env: Env, a: seq<int>, b: seq<int>, k: int, p: int, fuel: nat)
    requires LoopVars(env, a, b, k, p) && 0 <= k < |a|
    ensures BodyTurn(Body, env, a, b, k, p, fuel)
  {
    AddProductStep(env, a, b, k, p, fuel);
    if k < |b| {
      var env1 := Assign(env, "prod", Fix(p + a[k] * b[k]));
      AdvanceStep(env1, k, fuel);
      var env2 := Assign(env1, "i", Fix(k + 1));
      assert EvalSeq([Advance], env1, fuel, Fix(p + a[k] * b[k])) == Step(Ok(Fix(k + 1)), env2);
      assert LoopVars(env2, a, b, k + 1, p + a[k] * b[k]);
    }
  }

  lemma DotStep(a: seq<int>, b: seq<int>, k: nat)
    requires k < |a| && k < |b|
    ensures Dot(a[..k + 1], b) == Dot(a[..k], b) + a[k] * b[k]
  {
    assert a[..k + 1][..k] == a[..k];
  }

  /** The loop of xprod has both properties. */
  lemma LoopPartsHold(a: seq<int>, b: seq<int>, fuel: nat)
    ensures LoopParts(Cond, Body, a, b, fuel)
  {
    forall env, k | Lookup(env, "a") == Arr(Fixes(a)) && Lookup(env, "i") == Fix(k)
      ensures CondTest(Cond, env, a, k, fuel)
    {
      CondValue(env, a, k, fuel);
    }
    forall env, k, p | LoopVars(env, a, b, k, p) && 0 <= k < |a|
      ensures BodyTurn(Body, env, a, b, k, p, fuel)
    {
      BodyStep(env, a, b, k, p, fuel);
    }
  }

  /** The loop ends when i reaches the size of a ... */
  lemma LoopExit(c: Node, bd: Node, env: Env, a: seq<int>, b: seq<int>, p: int, fuel: nat, j: nat)
    requires TestsBound(c, a, fuel)
    requires LoopVars(env, a, b, |a|, p)
    ensures Loop(c, bd, env, fuel, j) == Step(Ok(QNil), env)
  {
    assert CondTest(c, env, a, |a|, fuel);
  }

  /** ... fails when i reaches the size of b first ... */
  lemma LoopOverrun(c: Node, bd: Node, env: Env, a: seq<int>, b: seq<int>, p: int, fuel: nat, j: nat)
    requires LoopParts(c, bd, a, b, fuel)
    requires LoopVars(env, a, b, |b|, p) && |b| < |a| && j > 0
    ensures Loop(c, bd, env, fuel, j).result == Err(ArrayBounds)
  {
    assert CondTest(c, env, a, |b|, fuel);
    assert BodyTurn(bd, env, a, b, |b|, p, fuel);
  }

  /** ... and otherwise turns once more with prod and i advanced. */
  lemma LoopTurn(c: Node, bd: Node, env: Env, a: seq<int>, b: seq<int>, k: int, p: int, fuel: nat, j: nat) returns (next: Env)
    requires LoopParts(c, bd, a, b, fuel)
    requires LoopVars(env, a, b, k, p) && 0 <= k < |a| && k < |b| && j > 0
    ensures LoopVars(next, a, b, k + 1, p + a[k] * b[k])
    ensures Loop(c, bd, env, fuel, j) == Loop(c, bd, next, fuel, j - 1)
  {
    assert CondTest(c, env, a, k, fuel);
    assert BodyTurn(bd, env, a, b, k, p, fuel);
    next := EvalNode(bd, env, fuel).env;
  }

  /** One turn of the loop keeps prod equal to the dot product of the
      elements i has passed. */
  lemma LoopTurnDot(c: Node, bd: Node, env: Env, a: seq<int>, b: seq<int>, k: nat, fuel: nat, j: nat) returns (next: Env)
    requires LoopParts(c, bd, a, b, fuel)
    requires k < |a| <= |b| && j > 0 && LoopVars(env, a, b, k, Dot(a[..k], b))
    ensures LoopVars(next, a, b, k + 1, Dot(a[..k + 1], b))
    ensures Loop(c, bd, env, fuel, j) == Loop(c, bd, next, fuel, j - 1)
  {
    next := LoopTurn(c, bd, env, a, b, k, Dot(a[..k], b), fuel, j);
    DotStep(a, b, k);
  }

  /** The loop finished normally with i == |a| and prod holding the whole
      dot product. */
  predicate EndsWithDot(s: Step<Value>, a: seq<int>, b: seq<int>)
    requires |a| <= |b|
  {
    s.result == Ok(QNil) && LoopVars(s.env, a, b, |a|, Dot(a, b))
  }

  /** Once i reaches |a|, prod holds the whole dot product. */
  lemma LoopExitDot(c: Node, bd: Node, env: Env, a: seq<int>, b: seq<int>, fuel: nat, j: nat)
    requires TestsBound(c, a, fuel)
    requires |a| <= |b| && LoopVars(env, a, b, |a|, Dot(a[..|a|], b))
    ensures EndsWithDot(Loop(c, bd, env, fuel, j), a, b)
  {
    assert a[..|a|] == a;
    LoopExit(c, bd, env, a, b, Dot(a, b), fuel, j);
  }

  /** The loop from i == k with prod holding the dot product of the first k
      elements, when b is at least as long as a: it ends with i == |a| and
      prod holding the whole dot product. */
  lemma {:induction false} LoopComputesDot(c: Node, bd: Node, env: Env, a: seq<int>, b: seq<int>, k: nat, fuel: nat, j: nat)
    requires LoopParts(c, bd, a, b, fuel)
    requires |a| <= |b| && k <= |a| && j >= |a| - k
    requires LoopVars(env, a, b, k, Dot(a[..k], b))
    ensures EndsWithDot(Loop(c, bd, env, fuel, j), a, b)
    decreases |a| - k
  {
    if k == |a| {
      LoopExitDot(c, bd, env, a, b, fuel, j);
    } else {
      var next := LoopTurnDot(c, bd, env, a, b, k, fuel, j);
      LoopComputesDot(c, bd, next, a, b, k + 1, fuel, j - 1);
      assert Loop(c, bd, env, fuel, j) == Loop(c, bd, next, fuel, j - 1);
    }
  }

  /** The loop from any i == k up to |b|, when b is shorter than a: it raises
      "Array bounds" once i reaches |b|, whatever prod holds. */
  lemma {:induction false} LoopFailsOnShortB(c: Node, bd: Node, env: Env, a: seq<int>, b: seq<int>, k: nat, p: int, fuel: nat, j: nat)
    requires LoopParts(c, bd, a, b, fuel)
    requires |b| < |a| && k <= |b| && j >= |a| - k
    requires LoopVars(env, a, b, k, p)
    ensures Loop(c, bd, env, fuel, j).result == Err(ArrayBounds)
    decreases |b| - k
  {
    if k == |b| {
      LoopOverrun(c, bd, env, a, b, p, fuel, j);
    } else {
      var next := LoopTurn(c, bd, env, a, b, k, p, fuel, j);
      LoopFailsOnShortB(c, bd, next, a, b, k + 1, p + a[k] * b[k], fuel, j - 1);
      assert Loop(c, bd, env, fuel, j) == Loop(c, bd, next, fuel, j - 1);
    }
  }

  /** Defining the program stores the method under the name xprod. */
  lemma ProgramDefinesXprod(env: Env, fuel: nat)
    ensures var s := EvalNode(XprodProgram, env, fuel);
            s.result.Ok? && Find(s.env, "xprod") == Some(XprodMethod)
  {
  }

  /** Invoking xprod binds a and b and runs the three statements of its body. */
  lemma XprodBody(env: Env, args: seq<Value>, fuel: nat)
    ensures Invoke(XprodMethod, args, env, fuel)
         == EvalSeq([Prologue, While(Cond, Body), Epilogue], env.(vars := Bind(env.vars, ["a", "b"], args, 2)), fuel, Nil)
  {
    var bound := env.(vars := Bind(env.vars, ["a", "b"], args, 2));
    var block := Block([Prologue, While(Cond, Body), Epilogue]);
    assert EvalNode(block, bound, fuel) == EvalSeq([Prologue, While(Cond, Body), Epilogue], bound, fuel, Nil);
    assert Invoke(XprodMethod, args, env, fuel) == EvalNode(Scope([block]), bound, fuel);
  }

  /** `i, prod = 0, 0` starts the loop with i == 0 and prod == 0. */
  lemma PrologueStep(env: Env, a: seq<int>, b: seq<int>, fuel: nat) returns (next: Env)
    requires Lookup(env, "a") == Arr(Fixes(a)) && Lookup(env, "b") == Arr(Fixes(b))
    ensures EvalNode(Prologue, env, fuel) == Step(Ok(Pairs(["i", "prod"], [Lit(0), Lit(0)])), next)
    ensures LoopVars(next, a, b, 0, 0)
  {
    next := Assign(Assign(env, "i", Fix(0)), "prod", Fix(0));
    assert AssignPairs(["prod"], [Lit(0)], Assign(env, "i", Fix(0)), fuel) == Step(Ok(()), next);
    assert AssignPairs(["i", "prod"], [Lit(0), Lit(0)], env, fuel) == Step(Ok(()), next);
    assert [Lit(0), Lit(0)][..2] == [Lit(0), Lit(0)];
    assert Lookup(next, "a") == Lookup(env, "a") && Lookup(next, "b") == Lookup(env, "b");
  }

  /** After the prologue: run the loop, then return prod. */
  lemma LoopThenReturn(env: Env, fuel: nat, last: Value)
    ensures var l := Loop(Cond, Body, env, fuel, fuel);
            EvalSeq([While(Cond, Body), Epilogue], env, fuel, last).result
              == (if l.result.Err? then l.result else Ok(Lookup(l.env, "prod")))
  {
    var l := Loop(Cond, Body, env, fuel, fuel);
    assert EvalNode(While(Cond, Body), env, fuel) == l;
    assert EvalSeq([Epilogue], l.env, fuel, QNil).result == Ok(Lookup(l.env, "prod"));
  }

  /** Calling xprod on two fixnum arrays yields their dot product when b is at
      least as long as a, and raises "Array bounds" when b is shorter; `fuel`
      only has to cover the |a| runs of the loop body. */
  lemma XprodComputesDot(env: Env, a: seq<int>, b: seq<int>, fuel: nat)
    requires Find(env, "xprod") == Some(XprodMethod)
    requires fuel >= |a|
    ensures var r := CallNamed(env, "xprod", [Arr(Fixes(a)), Arr(Fixes(b))], fuel).result;
            if |a| <= |b| then r == Ok(Fix(Dot(a, b))) else r == Err(ArrayBounds)
  {
    var args := [Arr(Fixes(a)), Arr(Fixes(b))];
    XprodBody(env, args, fuel);
    var bound := env.(vars := Bind(env.vars, ["a", "b"], args, 2));
    assert Lookup(bound, "a") == Arr(Fixes(a)) && Lookup(bound, "b") == Arr(Fixes(b));
    var start := PrologueStep(bound, a, b, fuel);
    assert a[..0] == [];
    LoopPartsHold(a, b, fuel);
    if |a| <= |b| {
      LoopComputesDot(Cond, Body, start, a, b, 0, fuel, fuel);
    } else {
      LoopFailsOnShortB(Cond, Body, start, a, b, 0, 0, fuel, fuel);
    }
    LoopThenReturn(start, fuel, Pairs(["i", "prod"], [Lit(0), Lit(0)]));
  }

  /** 1 + 2 + 3 + 4 + 5 */
  lemma DotOfOnes()
    ensures Dot([1, 2, 3, 4, 5], [1, 1, 1, 1, 1]) == 15
  {
    var ones := [1, 1, 1, 1, 1];
    assert Dot([1], ones) == 1 by { assert [1][..0] == []; }
    assert Dot([1, 2], ones) == 3 by { assert [1, 2][..1] == [1]; }
    assert Dot([1, 2, 3], ones) == 6 by { assert [1, 2, 3][..2] == [1, 2]; }
    assert Dot([1, 2, 3, 4], ones) == 10 by { assert [1, 2, 3, 4][..3] == [1, 2, 3]; }
    assert [1, 2, 3, 4, 5][..4] == [1, 2, 3, 4];
  }

  /** The two worked examples and the failing one: [] . [] is 0,
      [1, 2, 3, 4, 5] . [1, 1, 1, 1, 1] is 15, and [1] . [] raises. */
  lemma XprodExamples(env: Env)
    requires Find(env, "xprod") == Some(XprodMethod)
    ensures CallNamed(env, "xprod", [Arr(Fixes([])), Arr(Fixes([]))], 0).result == Ok(Fix(0))
    ensures CallNamed(env, "xprod", [Arr(Fixes([1, 2, 3, 4, 5])), Arr(Fixes([1, 1, 1, 1, 1]))], 5).result == Ok(Fix(15))
    ensures CallNamed(env, "xprod", [Arr(Fixes([1])), Arr(Fixes([]))], 1).result == Err(ArrayBounds)
  {
    XprodComputesDot(env, [], [], 0);
    XprodComputesDot(env, [1, 2, 3, 4, 5], [1, 1, 1, 1, 1], 5);
    DotOfOnes();
    XprodComputesDot(env, [1], [], 1);
  }
}
