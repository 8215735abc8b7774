/** What the evaluator promises, stated over the pure semantics (and so,
    through the ensures clauses of module Interp, over the imperative
    evaluator too). */
module Properties {
  import opened Syntax
  import opened Values
  import opened Semantics

  // ---------------------------------------------------------------- :block

  /** An empty block yields nil and touches nothing. */
  lemma EmptyBlockIsNil(env: Env, fuel: nat)
    ensures EvalNode(Block([]), env, fuel) == Step(Ok(Nil), env)
  {
  }

  lemma {:induction false} EvalSeqSnoc(cs: seq<Node>, c: Node, env: Env, fuel: nat, last: Value)
    ensures EvalSeq(cs + [c], env, fuel, last)
         == (var s := EvalSeq(cs, env, fuel, last);
             if s.result.Err? then s else EvalNode(c, s.env, fuel))
  {
    if cs == [] {
      assert cs + [c] == [c];
      assert [c][1..] == [];
    } else {
      assert (cs + [c])[0] == cs[0];
      assert (cs + [c])[1..] == cs[1..] + [c];
      var s := EvalNode(cs[0], env, fuel);
      if s.result.Ok? {
        EvalSeqSnoc(cs[1..], c, s.env, fuel, s.result.value);
      }
    }
  }

  /** A block runs its children in order and yields the value of the last one:
      a block ending in c behaves as the block before c followed by c. */
  lemma BlockYieldsLastChild(cs: seq<Node>, c: Node, env: Env, fuel: nat)
    ensures EvalNode(Block(cs + [c]), env, fuel)
         == (var s := EvalNode(Block(cs), env, fuel);
             if s.result.Err? then s else EvalNode(c, s.env, fuel))
  {
    EvalSeqSnoc(cs, c, env, fuel, Nil);
  }

  // ---------------------------------------------------------------- variables

  /** :lasgn yields its expression's value and stores it; reading the name
      back yields the same value; no other variable changes. */
  lemma AssignThenRead(x: Name, e: Node, y: Name, env: Env, fuel: nat)
    ensures var s := EvalNode(LAsgn(x, e), env, fuel);
            var se := EvalNode(e, env, fuel);
            && s.result == se.result
            && (s.result.Ok? ==> EvalNode(LVar(x), s.env, fuel) == Step(s.result, s.env))
            && (s.result.Ok? && y != x ==> Lookup(s.env, y) == Lookup(se.env, y))
            && (s.result.Err? ==> s.env == se.env)
  {
  }

  /** A name never assigned reads as nil. */
  lemma UnsetVariableIsNil(x: Name, env: Env, fuel: nat)
    requires x !in env.vars
    ensures EvalNode(LVar(x), env, fuel) == Step(Ok(Nil), env)
  {
  }

  // ---------------------------------------------------------------- :masgn

  /** The assignments `t_i = e_i` a multiple assignment stands for. */
  function LAsgns(ts: seq<Name>, es: seq<Node>): (r: seq<Node>)
    requires |ts| <= |es|
    ensures |r| == |ts|
    ensures forall i :: 0 <= i < |ts| ==> r[i] == LAsgn(ts[i], es[i])
  {
    if ts == [] then [] else [LAsgn(ts[0], es[0])] + LAsgns(ts[1..], es[1..])
  }

  lemma {:induction false} AssignPairsAsLAsgns(ts: seq<Name>, es: seq<Node>, env: Env, fuel: nat, last: Value)
    requires |ts| <= |es|
    ensures var a := AssignPairs(ts, es, env, fuel);
            var b := EvalSeq(LAsgns(ts, es), env, fuel, last);
            && a.env == b.env
            && (a.result.Ok? <==> b.result.Ok?)
            && (a.result.Err? ==> a.result.error == b.result.error)
  {
    if ts != [] {
      var l := LAsgns(ts, es);
      assert l[0] == LAsgn(ts[0], es[0]);
      assert l[1..] == LAsgns(ts[1..], es[1..]);
      var s := EvalNode(es[0], env, fuel);
      if s.result.Ok? {
        AssignPairsAsLAsgns(ts[1..], es[1..], Assign(s.env, ts[0], s.result.value), fuel, s.result.value);
      }
    }
  }

  /** `t_1, ..., t_n = e_1, ..., e_n` has the effect of the n assignments
      `t_i = e_i` run one after another: each right-hand side is evaluated
      after the previous name was bound, and the first failure stops it. */
  lemma MAsgnIsSequential(ts: seq<Name>, es: seq<Node>, env: Env, fuel: nat)
    requires |ts| <= |es|
    ensures var m := EvalNode(MAsgn(ts, es), env, fuel);
            var b := EvalNode(Block(LAsgns(ts, es)), env, fuel);
            && m.env == b.env
            && (m.result.Ok? <==> b.result.Ok?)
            && (m.result.Err? ==> m.result.error == b.result.error)
  {
    AssignPairsAsLAsgns(ts, es, env, fuel, Nil);
  }

  lemma {:induction false} AssignPairsIgnoresSurplus(ts: seq<Name>, es: seq<Node>, extra: seq<Node>, env: Env, fuel: nat)
    requires |ts| <= |es|
    ensures AssignPairs(ts, es + extra, env, fuel) == AssignPairs(ts, es, env, fuel)
  {
    if ts != [] {
      assert (es + extra)[0] == es[0];
      assert (es + extra)[1..] == es[1..] + extra;
      var s := EvalNode(es[0], env, fuel);
      if s.result.Ok? {
        AssignPairsIgnoresSurplus(ts[1..], es[1..], extra, Assign(s.env, ts[0], s.result.value), fuel);
      }
    }
  }

  /** Right-hand sides beyond the last target are never evaluated: appending
      any expressions there changes neither the outcome nor the tables. */
  lemma MAsgnIgnoresSurplus(ts: seq<Name>, es: seq<Node>, extra: seq<Node>, env: Env, fuel: nat)
    requires |ts| <= |es|
    ensures EvalNode(MAsgn(ts, es + extra), env, fuel) == EvalNode(MAsgn(ts, es), env, fuel)
  {
    AssignPairsIgnoresSurplus(ts, es, extra, env, fuel);
    assert (es + extra)[..|ts|] == es[..|ts|];
  }

  /** More targets than right-hand sides always fails: the padding nil is
      evaluated and rejected. */
  lemma MAsgnShortFails(ts: seq<Name>, es: seq<Node>, env: Env, fuel: nat)
    requires |es| < |ts|
    ensures EvalNode(MAsgn(ts, es), env, fuel).result.Err?
  {
  }

  /** Because each pair is bound before the next right-hand side is read,
      `a, b = b, a` does not swap: both names end up holding the old `b`,
      every other variable keeps its value and no method changes. */
  lemma MAsgnDoesNotSwap(env: Env, fuel: nat)
    ensures var s := EvalNode(MAsgn(["a", "b"], [LVar("b"), LVar("a")]), env, fuel);
            s.result.Ok? && Lookup(s.env, "a") == Lookup(env, "b") && Lookup(s.env, "b") == Lookup(env, "b")
    ensures var s := EvalNode(MAsgn(["a", "b"], [LVar("b"), LVar("a")]), env, fuel);
            s.env.methods == env.methods && forall y :: y != "a" && y != "b" ==> Lookup(s.env, y) == Lookup(env, y)
  {
    var e1 := Assign(env, "a", Lookup(env, "b"));
    assert AssignPairs(["a", "b"], [LVar("b"), LVar("a")], env, fuel)
        == AssignPairs(["b"], [LVar("a")], e1, fuel);
  }

  // ---------------------------------------------------------------- :while

  lemma {:induction false} LoopYieldsQNil(c: Node, b: Node, env: Env, fuel: nat, k: nat)
    ensures Loop(c, b, env, fuel, k).result.Ok? ==> Loop(c, b, env, fuel, k).result.value == QNil
    decreases k
  {
    var sc := EvalNode(c, env, fuel);
    if sc.result.Ok? && Truthy(sc.result.value) && k > 0 {
      var sb := EvalNode(b, sc.env, fuel);
      if sb.result.Ok? {
        LoopYieldsQNil(c, b, sb.env, fuel, k - 1);
      }
    }
  }

  /** A while loop that finishes always yields QNil, never its body's value. */
  lemma WhileYieldsQNil(c: Node, b: Node, env: Env, fuel: nat)
    ensures EvalNode(While(c, b), env, fuel).result.Ok? ==> EvalNode(While(c, b), env, fuel).result.value == QNil
  {
    LoopYieldsQNil(c, b, env, fuel, fuel);
  }

  /** A falsy condition ends the loop at once, without running the body. */
  lemma WhileStopsOnFalsy(c: Node, b: Node, env: Env, fuel: nat)
    requires EvalNode(c, env, fuel).result.Ok? && !Truthy(EvalNode(c, env, fuel).result.value)
    ensures EvalNode(While(c, b), env, fuel) == Step(Ok(QNil), EvalNode(c, env, fuel).env)
  {
  }

  /** A truthy condition runs the body once and then tests the condition again. */
  lemma LoopRepeatsOnTruthy(c: Node, b: Node, env: Env, fuel: nat, k: nat)
    requires EvalNode(c, env, fuel).result.Ok? && Truthy(EvalNode(c, env, fuel).result.value)
    requires k > 0
    requires EvalNode(b, EvalNode(c, env, fuel).env, fuel).result.Ok?
    ensures Loop(c, b, env, fuel, k) == Loop(c, b, EvalNode(b, EvalNode(c, env, fuel).env, fuel).env, fuel, k - 1)
  {
  }

  // ---------------------------------------------------------------- :call

  lemma {:induction false} EvalArgsSnoc(args: seq<Node>, a: Node, env: Env, fuel: nat, acc: seq<Value>)
    ensures EvalArgs(args + [a], env, fuel, acc)
         == (var s := EvalArgs(args, env, fuel, acc);
             if s.result.Err? then s
             else
               var t := EvalNode(a, s.env, fuel);
               if t.result.Err? then Step(Err(t.result.error), t.env)
               else Step(Ok(s.result.value + [t.result.value]), t.env))
  {
    if args == [] {
      assert args + [a] == [a];
      assert [a][1..] == [];
    } else {
      assert (args + [a])[0] == args[0];
      assert (args + [a])[1..] == args[1..] + [a];
      var s := EvalNode(args[0], env, fuel);
      if s.result.Ok? {
        EvalArgsSnoc(args[1..], a, s.env, fuel, acc + [s.result.value]);
      }
    }
  }

  /** Arguments are evaluated left to right, each in the tables the previous
      one left, and their values are collected in that order. */
  lemma ArgumentsLeftToRight(args: seq<Node>, a: Node, env: Env, fuel: nat)
    ensures EvalArgs(args + [a], env, fuel, [])
         == (var s := EvalArgs(args, env, fuel, []);
             if s.result.Err? then s
             else
               var t := EvalNode(a, s.env, fuel);
               if t.result.Err? then Step(Err(t.result.error), t.env)
               else Step(Ok(s.result.value + [t.result.value]), t.env))
  {
    EvalArgsSnoc(args, a, env, fuel, []);
  }

  /** The receiver is evaluated before anything else: when it fails, no
      argument is evaluated and no method is dispatched. */
  lemma ReceiverFirst(r: Node, m: Name, args: seq<Node>, env: Env, fuel: nat)
    requires EvalNode(r, env, fuel).result.Err?
    ensures EvalNode(Call(r, m, args), env, fuel) == EvalNode(r, env, fuel)
  {
  }

  /** Once receiver and arguments are values, the receiver's native `apply` decides. */
  lemma CallDispatches(r: Node, m: Name, args: seq<Node>, env: Env, fuel: nat)
    requires EvalNode(r, env, fuel).result.Ok?
    requires EvalArgs(args, EvalNode(r, env, fuel).env, fuel, []).result.Ok?
    ensures var sa := EvalArgs(args, EvalNode(r, env, fuel).env, fuel, []);
            EvalNode(Call(r, m, args), env, fuel)
            == Step(Send(EvalNode(r, env, fuel).result.value, m, sa.result.value), sa.env)
  {
  }

  /** A call written without a receiver (a call of a user method from inside
      the program) has a nil receiver node, which is a parse error. */
  lemma NoReceiverIsParseError(m: Name, args: seq<Node>, env: Env, fuel: nat)
    ensures EvalNode(Call(Absent, m, args), env, fuel) == Step(Err(ParseError(Absent)), env)
  {
    assert EvalNode(Absent, env, fuel) == Step(Err(ParseError(Absent)), env);
  }

  // ---------------------------------------------------------------- natives

  /** Fixnum `+`, `*` and `<` on a fixnum argument; extra arguments are ignored. */
  lemma FixnumArithmetic(a: int, b: int, rest: seq<Value>)
    ensures Send(Fix(a), "+", [Fix(b)] + rest) == Ok(Fix(a + b))
    ensures Send(Fix(a), "*", [Fix(b)] + rest) == Ok(Fix(a * b))
    ensures Send(Fix(a), "<", [Fix(b)] + rest) == Ok(Bool(a < b))
  {
  }

  /** Array `[]` fails with "Array bounds" exactly when the index is negative
      or not below the size, and otherwise yields that element. */
  lemma ArrayIndex(elems: seq<Value>, i: int, rest: seq<Value>)
    ensures Send(Arr(elems), "[]", [Fix(i)] + rest)
         == if i < 0 || i >= |elems| then Err(ArrayBounds) else Ok(elems[i])
    ensures Send(Arr(elems), "size", rest) == Ok(Fix(|elems|))
  {
  }

  // ---------------------------------------------------------------- tags

  /** A tag the evaluator does not know, or a missing sub-tree, is a parse error. */
  lemma UnknownTagIsParseError(t: Name, env: Env, fuel: nat)
    ensures EvalNode(Other(t), env, fuel) == Step(Err(ParseError(Other(t))), env)
    ensures EvalNode(Absent, env, fuel) == Step(Err(ParseError(Absent)), env)
  {
  }

  /** A scope must hold exactly one child; with one it is transparent. */
  lemma ScopeNeedsOneChild(cs: seq<Node>, env: Env, fuel: nat)
    ensures |cs| != 1 ==> EvalNode(Scope(cs), env, fuel) == Step(Err(ScopeArity(|cs|)), env)
    ensures |cs| == 1 ==> EvalNode(Scope(cs), env, fuel) == EvalNode(cs[0], env, fuel)
  {
  }

  // ---------------------------------------------------------------- methods

  /** Defining a name twice keeps only the second definition. */
  lemma RedefinitionWins(name: Name, p1: seq<Name>, b1: Node, p2: seq<Name>, b2: Node, env: Env, fuel: nat)
    ensures var e1 := EvalNode(Defn(name, p1, b1), env, fuel).env;
            Find(EvalNode(Defn(name, p2, b2), e1, fuel).env, name) == Some(Method(p2, b2))
  {
  }

  /** Calling a name nobody defined fails and changes nothing. */
  lemma UndefinedMethodFails(name: Name, args: seq<Value>, env: Env, fuel: nat)
    requires name !in env.methods
    ensures CallNamed(env, name, args, fuel) == Step(Err(NoMethodError("call")), env)
  {
  }

  /** The body of a called method runs in the shared table with each parameter
      bound to the argument at its position (nil when missing). */
  lemma CallBindsPositionally(name: Name, args: seq<Value>, env: Env, fuel: nat)
    requires name in env.methods
    ensures var m := env.methods[name];
            var vars := Bind(env.vars, m.params, args, |m.params|);
            && CallNamed(env, name, args, fuel) == EvalNode(m.body, Env(env.methods, vars), fuel)
            && (forall i :: 0 <= i < |m.params| && (forall j :: i < j < |m.params| ==> m.params[j] != m.params[i]) ==>
                  Lookup(Env(env.methods, vars), m.params[i]) == ArgAt(args, i))
            && (forall x :: x !in m.params ==> Lookup(Env(env.methods, vars), x) == Lookup(env, x))
  {
    var m := env.methods[name];
    BindPositional(env.vars, m.params, args, |m.params|);
    BindKeeps(env.vars, m.params, args, |m.params|);
    BindKeys(env.vars, m.params, args, |m.params|);
    assert m.params[..|m.params|] == m.params;
  }

  /** Binding reads only as many arguments as there are parameters. */
  lemma {:induction false} BindIgnoresSurplus(vars: map<Name, Value>, params: seq<Name>, args: seq<Value>, extra: seq<Value>, n: nat)
    requires n <= |params| && |params| <= |args|
    ensures Bind(vars, params, args + extra, n) == Bind(vars, params, args, n)
  {
    if n > 0 {
      BindIgnoresSurplus(vars, params, args, extra, n - 1);
      assert ArgAt(args + extra, n - 1) == ArgAt(args, n - 1);
    }
  }

}
