/** The meaning of a program tree as pure functions: each one takes the
    context's two tables (an Env) and returns the outcome together with the
    tables as the evaluation left them. The imperative evaluator in module
    Interp is proved to compute exactly these functions.

    `fuel` bounds how many times any single while loop may run its body;
    the host interpreter has no such bound. */
module Semantics {
  import opened Syntax
  import opened Values

  /** The state of a RuContext: its method table and its one flat variable table. */
  datatype Env = Env(methods: map<Name, Method>, vars: map<Name, Value>)

  /** An outcome and the tables after it. On an error the tables keep every
      write made before the raise. */
  datatype Step<T> = Step(result: Result<T>, env: Env)

  datatype Option<T> = None | Some(value: T)

  /** The tables only grow: no name is ever removed from either of them. */
  predicate Extends(before: Env, after: Env)
  {
    before.vars.Keys <= after.vars.Keys && before.methods.Keys <= after.methods.Keys
  }

  /** RuContext#get_variable: a set name reads as its stored value, an unset
      one as nil (the host hash has no default). */
  function Lookup(env: Env, x: Name): (r: Value)
    ensures x in env.vars ==> r == env.vars[x]
    ensures x !in env.vars ==> r == Nil
  {
    if x in env.vars then env.vars[x] else Nil
  }

  /** RuContext#set_variable: the name reads back as the value, it is the
      only name added, and the method table is untouched. */
  function Assign(env: Env, x: Name, v: Value): (r: Env)
    ensures Lookup(r, x) == v
    ensures r.vars.Keys == env.vars.Keys + {x} && r.methods == env.methods
  {
    env.(vars := env.vars[x := v])
  }

  /** RuContext#define_method: a later definition replaces an earlier one;
      every other name finds what it found before, and the variables are
      untouched. */
  function Define(env: Env, name: Name, m: Method): (r: Env)
    ensures Find(r, name) == Some(m)
    ensures forall n :: n != name ==> Find(r, n) == Find(env, n)
    ensures r.methods.Keys == env.methods.Keys + {name} && r.vars == env.vars
  {
    env.(methods := env.methods[name := m])
  }

  /** RuContext#find_method: a defined name finds its stored method, an
      undefined one finds nothing. */
  function Find(env: Env, name: Name): (r: Option<Method>)
    ensures r.Some? <==> name in env.methods
    ensures r.Some? ==> r.value == env.methods[name]
  {
    if name in env.methods then Some(env.methods[name]) else None
  }

  /** Ruru#eval. */
  function EvalNode(n: Node, env: Env, fuel: nat): (r: Step<Value>)
    ensures Extends(env, r.env)
    decreases Size(n), 0
  {
    match n
    case Defn(name, params, body) =>
      var m := Method(params, body);
      Step(Ok(MethodObj(m)), Define(env, name, m))
    case Scope(cs) =>
      if |cs| != 1 then Step(Err(ScopeArity(|cs|)), env)
      else assert SizeSeq(cs) == Size(cs[0]) + SizeSeq(cs[1..]); EvalNode(cs[0], env, fuel)
    case Block(cs) =>
      EvalSeq(cs, env, fuel, Nil)
    case Lit(k) =>
      Step(Ok(Fix(k)), env)
    case LVar(x) =>
      Step(Ok(Lookup(env, x)), env)
    case LAsgn(x, e) =>
      var s := EvalNode(e, env, fuel);
      if s.result.Err? then s else Step(s.result, Assign(s.env, x, s.result.value))
    case MAsgn(ts, es) =>
      var s := AssignPairs(ts, es, env, fuel);
      if s.result.Err? then Step(Err(s.result.error), s.env)
      else Step(Ok(Pairs(ts, es[..|ts|])), s.env)
    case While(c, b) =>
      Loop(c, b, env, fuel, fuel)
    case Call(r, m, args) =>
      ApplyNode(r, m, args, env, fuel)
    case Return(e) =>
      EvalNode(e, env, fuel)
    case Absent =>
      Step(Err(ParseError(n)), env)
    case Other(_) =>
      Step(Err(ParseError(n)), env)
  }

  /** The :block loop: each child in turn, keeping the last value (nil at first). */
  function EvalSeq(cs: seq<Node>, env: Env, fuel: nat, last: Value): (r: Step<Value>)
    ensures Extends(env, r.env)
    decreases SizeSeq(cs), 1
  {
    if cs == [] then Step(Ok(last), env)
    else
      var s := EvalNode(cs[0], env, fuel);
      if s.result.Err? then s else EvalSeq(cs[1..], s.env, fuel, s.result.value)
  }

  /** The :masgn loop over the zipped pairs: evaluate the right-hand side,
      then bind it, pair by pair. Zip pads a short right-hand list with nil,
      and evaluating nil is a parse error; surplus right-hand sides are never
      reached. */
  function AssignPairs(ts: seq<Name>, es: seq<Node>, env: Env, fuel: nat): (r: Step<()>)
    ensures r.result.Ok? ==> |ts| <= |es|
    ensures Extends(env, r.env)
    decreases SizeSeq(es), 1
  {
    if ts == [] then Step(Ok(()), env)
    else if es == [] then Step(Err(ParseError(Absent)), env)
    else
      var s := EvalNode(es[0], env, fuel);
      if s.result.Err? then Step(Err(s.result.error), s.env)
      else AssignPairs(ts[1..], es[1..], Assign(s.env, ts[0], s.result.value), fuel)
  }

  /** The :while loop with k body runs left: condition, then body, while the
      condition is truthy; a falsy condition ends it with QNil. */
  function Loop(c: Node, b: Node, env: Env, fuel: nat, k: nat): (r: Step<Value>)
    ensures Extends(env, r.env)
    decreases Size(c) + Size(b), 1, k
  {
    var sc := EvalNode(c, env, fuel);
    if sc.result.Err? then sc
    else if !Truthy(sc.result.value) then Step(Ok(QNil), sc.env)
    else if k == 0 then Step(Err(OutOfFuel), sc.env)
    else
      var sb := EvalNode(b, sc.env, fuel);
      if sb.result.Err? then sb else Loop(c, b, sb.env, fuel, k - 1)
  }

  /** Ruru#apply: the receiver first, then the arguments left to right, then
      the receiver's native `apply`. */
  function ApplyNode(r: Node, m: Name, args: seq<Node>, env: Env, fuel: nat): (s: Step<Value>)
    ensures Extends(env, s.env)
    decreases Size(r) + SizeSeq(args), 1
  {
    var sr := EvalNode(r, env, fuel);
    if sr.result.Err? then sr
    else
      var sa := EvalArgs(args, sr.env, fuel, []);
      if sa.result.Err? then Step(Err(sa.result.error), sa.env)
      else Step(Send(sr.result.value, m, sa.result.value), sa.env)
  }

  /** `args.map { |x| eval(x) }`, appending to the values gathered so far. */
  function EvalArgs(args: seq<Node>, env: Env, fuel: nat, acc: seq<Value>): (r: Step<seq<Value>>)
    ensures r.result.Ok? ==> |r.result.value| == |acc| + |args| && r.result.value[..|acc|] == acc
    ensures Extends(env, r.env)
    decreases SizeSeq(args), 1
  {
    if args == [] then Step(Ok(acc), env)
    else
      var s := EvalNode(args[0], env, fuel);
      if s.result.Err? then Step(Err(s.result.error), s.env)
      else EvalArgs(args[1..], s.env, fuel, acc + [s.result.value])
  }

  /** The first n parameters bound, in order, into the variable table: the
      loop of RuMethod#call. */
  function Bind(vars: map<Name, Value>, params: seq<Name>, args: seq<Value>, n: nat): (r: map<Name, Value>)
    requires n <= |params|
    ensures vars.Keys <= r.Keys
    ensures forall i :: 0 <= i < n ==> params[i] in r
  {
    if n == 0 then vars else Bind(vars, params, args, n - 1)[params[n - 1] := ArgAt(args, n - 1)]
  }

  /** Binding adds exactly the bound parameters to the table's names. */
  lemma {:induction false} BindKeys(vars: map<Name, Value>, params: seq<Name>, args: seq<Value>, n: nat)
    requires n <= |params|
    ensures forall x :: x in Bind(vars, params, args, n) <==> x in vars || x in params[..n]
  {
    if n > 0 {
      BindKeys(vars, params, args, n - 1);
      assert params[..n] == params[..n - 1] + [params[n - 1]];
    }
  }

  /** Every variable that is not a bound parameter keeps its value. */
  lemma {:induction false} BindKeeps(vars: map<Name, Value>, params: seq<Name>, args: seq<Value>, n: nat)
    requires n <= |params|
    ensures forall x :: x in vars && x !in params[..n] ==>
              x in Bind(vars, params, args, n) && Bind(vars, params, args, n)[x] == vars[x]
  {
    if n > 0 {
      BindKeeps(vars, params, args, n - 1);
      assert params[..n] == params[..n - 1] + [params[n - 1]];
    }
  }

  /** Positional binding: every parameter is bound to the argument at its own
      position, or to nil when the call site supplied fewer arguments (the last
      occurrence wins for a repeated name). */
  lemma {:induction false} BindPositional(vars: map<Name, Value>, params: seq<Name>, args: seq<Value>, n: nat)
    requires n <= |params|
    ensures forall i :: 0 <= i < n && (forall j :: i < j < n ==> params[j] != params[i]) ==>
              params[i] in Bind(vars, params, args, n) && Bind(vars, params, args, n)[params[i]] == ArgAt(args, i)
  {
    if n > 0 {
      BindPositional(vars, params, args, n - 1);
      var before := Bind(vars, params, args, n - 1);
      assert Bind(vars, params, args, n) == before[params[n - 1] := ArgAt(args, n - 1)];
    }
  }

  /** RuMethod#call: bind the parameters into the shared table, then evaluate
      the body in that same context. Nothing is restored afterwards. */
  function Invoke(m: Method, args: seq<Value>, env: Env, fuel: nat): (r: Step<Value>)
    ensures Extends(env, r.env)
    ensures forall p :: p in m.params ==> p in r.env.vars
  {
    BindKeys(env.vars, m.params, args, |m.params|);
    assert m.params[..|m.params|] == m.params;
    EvalNode(m.body, env.(vars := Bind(env.vars, m.params, args, |m.params|)), fuel)
  }

  /** Ruru#call: look the method up by name and invoke it; an undefined name
      leaves the host calling `call` on nil. */
  function CallNamed(env: Env, name: Name, args: seq<Value>, fuel: nat): (r: Step<Value>)
    ensures Extends(env, r.env)
    ensures name in env.methods ==> forall p :: p in env.methods[name].params ==> p in r.env.vars
  {
    match Find(env, name)
    case None => Step(Err(NoMethodError("call")), env)
    case Some(m) => Invoke(m, args, env, fuel)
  }
}
