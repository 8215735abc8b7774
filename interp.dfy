/** The evaluator as the source runs it: a context object whose two tables
    are updated in place, and an evaluator object that walks the tree and
    writes into that context. Every method is proved to compute the pure
    semantics of module Semantics on the context's state. */
module Interp {
  import opened Syntax
  import opened Values
  import opened Semantics

  /** RuContext: the method table and the single flat variable table. */
  class Context {
    var methods: map<Name, Method>
    var variables: map<Name, Value>

    /** The two tables as a value. */
    function State(): Env
      reads this
    {
      Env(methods, variables)
    }

    constructor ()
      ensures State() == Env(map[], map[])
    {
      methods := map[];
      variables := map[];
    }

    /** define_method: stores a method under its name, replacing any earlier one,
        and returns it. */
    method DefineMethod(name: Name, params: seq<Name>, body: Node) returns (m: Method)
      modifies this
      ensures m == Method(params, body)
      ensures State() == Define(old(State()), name, m)
    {
      m := Method(params, body);
      methods := methods[name := m];
    }

    /** find_method: the method stored under a name, if any. */
    function FindMethod(name: Name): (m: Option<Method>)
      reads this
      ensures m.Some? <==> name in State().methods
      ensures m.Some? ==> m.value == State().methods[name]
    {
      if name in methods then Some(methods[name]) else None
    }

    /** set_variable: stores a value under a name and returns the value. */
    method SetVariable(x: Name, v: Value) returns (r: Value)
      modifies this
      ensures r == v
      ensures State() == Assign(old(State()), x, v)
    {
      variables := variables[x := v];
      r := v;
    }

    /** get_variable: the value stored under a name, nil when there is none. */
    function GetVariable(x: Name): (v: Value)
      reads this
      ensures v == Lookup(State(), x)
    {
      if x in variables then variables[x] else Nil
    }
  }

  /** Ruru: an evaluator over one context and one parsed tree. */
  class Ruru {
    const context: Context
    const parsed: Node

    constructor (code: Node, context: Context)
      ensures this.context == context && parsed == code
    {
      this.context := context;
      parsed := code;
    }

    /** eval: dispatch on the tag of the node. */
    method Eval(n: Node, fuel: nat) returns (r: Result<Value>)
      modifies context
      ensures Step(r, context.State()) == EvalNode(n, old(context.State()), fuel)
      decreases Size(n), 0
    {
      match n
      case Defn(name, params, body) =>
        var m := context.DefineMethod(name, params, body);
        r := Ok(MethodObj(m));
      case Scope(cs) =>
        if |cs| != 1 {
          r := Err(ScopeArity(|cs|));
        } else {
          SizeElem(cs, 0);
          r := Eval(cs[0], fuel);
        }
      case Block(cs) =>
        r := EvalBlock(cs, fuel);
      case Lit(k) =>
        r := Ok(Fix(k));
      case LVar(x) =>
        r := Ok(context.GetVariable(x));
      case LAsgn(x, e) =>
        r := Eval(e, fuel);
        if r.Ok? {
          var _ := context.SetVariable(x, r.value);
        }
      case MAsgn(ts, es) =>
        r := EvalMAsgn(ts, es, fuel);
      case While(c, b) =>
        r := EvalWhile(c, b, fuel);
      case Call(recv, name, args) =>
        r := Apply(recv, name, args, fuel);
      case Return(e) =>
        r := Eval(e, fuel);
      case Absent =>
        r := Err(ParseError(n));
      case Other(_) =>
        r := Err(ParseError(n));
    }

    /** The :block case: evaluate each child, keep the last value. */
    method EvalBlock(cs: seq<Node>, fuel: nat) returns (r: Result<Value>)
      modifies context
      ensures Step(r, context.State()) == EvalSeq(cs, old(context.State()), fuel, Nil)
      decreases SizeSeq(cs), 1
    {
      var last := Nil;
      var i := 0;
      while i < |cs|
        invariant 0 <= i <= |cs|
        invariant EvalSeq(cs[i..], context.State(), fuel, last) == EvalSeq(cs, old(context.State()), fuel, Nil)
      {
        SizeElem(cs, i);
        assert cs[i..][1..] == cs[i + 1..];
        var v := Eval(cs[i], fuel);
        if v.Err? {
          return v;
        }
        last := v.value;
        i := i + 1;
      }
      r := Ok(last);
    }

    /** The :masgn case: walk the targets paired with the right-hand sides,
        evaluating and binding one pair at a time. */
    method EvalMAsgn(ts: seq<Name>, es: seq<Node>, fuel: nat) returns (r: Result<Value>)
      modifies context
      ensures Step(r, context.State()) == EvalNode(MAsgn(ts, es), old(context.State()), fuel)
      decreases SizeSeq(es), 1
    {
      var i := 0;
      while i < |ts|
        invariant 0 <= i <= |ts| && i <= |es|
        invariant AssignPairs(ts[i..], es[i..], context.State(), fuel) == AssignPairs(ts, es, old(context.State()), fuel)
      {
        if i == |es| {
          // zip pads the right-hand side with nil, and eval(nil) is a parse error
          return Err(ParseError(Absent));
        }
        SizeElem(es, i);
        assert ts[i..][1..] == ts[i + 1..] && es[i..][1..] == es[i + 1..];
        var v := Eval(es[i], fuel);
        if v.Err? {
          return v;
        }
        var _ := context.SetVariable(ts[i], v.value);
        i := i + 1;
      }
      r := Ok(Pairs(ts, es[..|ts|]));
    }

    /** The :while case: test the condition, run the body, repeat while the
        condition is truthy; at most `fuel` runs of the body. */
    method EvalWhile(c: Node, b: Node, fuel: nat) returns (r: Result<Value>)
      modifies context
      ensures Step(r, context.State()) == Loop(c, b, old(context.State()), fuel, fuel)
      decreases Size(c) + Size(b), 1
    {
      var k := fuel;
      while true
        invariant Loop(c, b, context.State(), fuel, k) == Loop(c, b, old(context.State()), fuel, fuel)
        decreases k
      {
        var v := Eval(c, fuel);
        if v.Err? {
          return v;
        }
        if !Truthy(v.value) {
          return Ok(QNil);
        }
        if k == 0 {
          return Err(OutOfFuel);
        }
        v := Eval(b, fuel);
        if v.Err? {
          return v;
        }
        k := k - 1;
      }
    }

    /** apply: the receiver first, then each argument left to right, then the
        receiver's native `apply`. */
    method Apply(recv: Node, name: Name, args: seq<Node>, fuel: nat) returns (r: Result<Value>)
      modifies context
      ensures Step(r, context.State()) == ApplyNode(recv, name, args, old(context.State()), fuel)
      decreases Size(recv) + SizeSeq(args), 1
    {
      var obj := Eval(recv, fuel);
      if obj.Err? {
        return obj;
      }
      ghost var afterRecv := context.State();
      var vals: seq<Value> := [];
      var i := 0;
      while i < |args|
        invariant 0 <= i <= |args|
        invariant EvalArgs(args[i..], context.State(), fuel, vals) == EvalArgs(args, afterRecv, fuel, [])
      {
        SizeElem(args, i);
        assert args[i..][1..] == args[i + 1..];
        var v := Eval(args[i], fuel);
        if v.Err? {
          return Err(v.error);
        }
        vals := vals + [v.value];
        i := i + 1;
      }
      r := Send(obj.value, name, vals);
    }

    /** call: find a method by name and run it with already-evaluated arguments. */
    method Call(name: Name, args: seq<Value>, fuel: nat) returns (r: Result<Value>)
      modifies context
      ensures Step(r, context.State()) == CallNamed(old(context.State()), name, args, fuel)
    {
      var found := context.FindMethod(name);
      if found.None? {
        return Err(NoMethodError("call"));
      }
      r := RunMethod(found.value, context, args, fuel);
    }
  }

  /** RuMethod#call: bind the parameters positionally into the context's
      variable table, then evaluate the body with a fresh evaluator over the
      same context. */
  method RunMethod(m: Method, context: Context, args: seq<Value>, fuel: nat) returns (r: Result<Value>)
    modifies context
    ensures Step(r, context.State()) == Invoke(m, args, old(context.State()), fuel)
  {
    BindParams(context, m.params, args);
    var evaluator := new Ruru(m.body, context);
    r := evaluator.Eval(evaluator.parsed, fuel);
  }

  /** The binding loop of RuMethod#call: `params.zip(args)`, each pair stored
      with set_variable, so a missing argument stores nil. */
  method BindParams(context: Context, params: seq<Name>, args: seq<Value>)
    modifies context
    ensures context.State() == old(context.State()).(vars := Bind(old(context.variables), params, args, |params|))
  {
    ghost var before := context.State();
    var i := 0;
    while i < |params|
      invariant 0 <= i <= |params|
      invariant context.State() == before.(vars := Bind(before.vars, params, args, i))
    {
      assert Bind(before.vars, params, args, i + 1) == Bind(before.vars, params, args, i)[params[i] := ArgAt(args, i)];
      var _ := context.SetVariable(params[i], ArgAt(args, i));
      i := i + 1;
    }
  }
}
