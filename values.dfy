/** Runtime values and the native operations of the two built-in classes
    (interp/ruru.rb: RuFixnum, RuArray, and the Qnil object). */
module Values {
  import opened Syntax

  /** A user method: its parameter list and its unevaluated body (RuMethod).
      The context it was defined in is always the one it is called in, so it
      is not stored. */
  datatype Method = Method(params: seq<Name>, body: Node)

  datatype Value =
    | Nil                                        // host nil: an unset variable, an empty block
    | QNil                                       // the interpreter's own nil object, result of :while
    | Bool(b: bool)                              // host true/false, result of Fixnum `<`
    | Fix(n: int)                                // RuFixnum
    | Arr(elems: seq<Value>)                     // RuArray
    | MethodObj(m: Method)                       // the RuMethod a :defn returns
    | Pairs(targets: seq<Name>, exprs: seq<Node>) // the zipped host array a :masgn returns

  /** Why an evaluation raised. */
  datatype Error =
    | ParseError(node: Node)      // "Parse error for ...": unknown tag or missing sub-tree
    | ScopeArity(count: nat)      // the :scope assertion: a scope needs exactly one child
    | NoMethodError(name: Name) // the host raised: the value has no such host method
    | MethodMissing(name: Name) // "Method ...": a native class does not know the name
    | ArrayBounds                 // "Array bounds"
    | OutOfFuel                   // a while loop ran its body more often than the fuel allows

  datatype Result<T> = Ok(value: T) | Err(error: Error)

  /** The host's truth test: only nil and false are falsy. The interpreter's
      QNil is an ordinary object, so the host treats it as true. */
  predicate Truthy(v: Value)
    ensures !Truthy(v) ==> v == Nil || v == Bool(false)
    ensures v == QNil || v == Bool(true) || v.Fix? || v.Arr? ==> Truthy(v)
  {
    !(v.Nil? || v == Bool(false))
  }

  /** The argument at position i, or nil when the call site supplied fewer. */
  function ArgAt(args: seq<Value>, i: nat): (r: Value)
    ensures i < |args| ==> r == args[i]
    ensures r in args || r == Nil
  {
    if i < |args| then args[i] else Nil
  }

  /** RuFixnum#apply. The method name is dispatched first; only then is the
      first argument unwrapped, which fails when it is not a fixnum. */
  function FixnumApply(n: int, op: Name, args: seq<Value>): (r: Result<Value>)
    ensures op !in {"<", "+", "*"} ==> r == Err(MethodMissing(op))
    ensures op in {"<", "+", "*"} ==> (r.Ok? <==> ArgAt(args, 0).Fix?)
  {
    var arg := ArgAt(args, 0);
    if op == "<" then
      if arg.Fix? then Ok(Bool(n < arg.n)) else Err(NoMethodError("__val"))
    else if op == "+" then
      if arg.Fix? then Ok(Fix(n + arg.n)) else Err(NoMethodError("__val"))
    else if op == "*" then
      if arg.Fix? then Ok(Fix(n * arg.n)) else Err(NoMethodError("__val"))
    else
      Err(MethodMissing(op))
  }

  /** RuArray#apply: `size`, and `[]` with a bounds check. */
  function ArrayApply(elems: seq<Value>, op: Name, args: seq<Value>): (r: Result<Value>)
    ensures op != "size" && op != "[]" ==> r == Err(MethodMissing(op))
    ensures op == "size" ==> r == Ok(Fix(|elems|))
    ensures op == "[]" && ArgAt(args, 0).Fix? ==>
              (r == Err(ArrayBounds) <==> !(0 <= ArgAt(args, 0).n < |elems|))
    ensures op == "[]" && ArgAt(args, 0).Fix? && 0 <= ArgAt(args, 0).n < |elems| ==>
              r == Ok(elems[ArgAt(args, 0).n])
    ensures op == "[]" && r.Ok? ==>
              ArgAt(args, 0).Fix? && 0 <= ArgAt(args, 0).n < |elems| && r.value == elems[ArgAt(args, 0).n]
  {
    if op == "size" then
      Ok(Fix(|elems|))
    else if op == "[]" then
      var arg := ArgAt(args, 0);
      if !arg.Fix? then Err(NoMethodError("__val"))
      else if arg.n < 0 || arg.n >= |elems| then Err(ArrayBounds)
      else Ok(elems[arg.n])
    else
      Err(MethodMissing(op))
  }

  /** `obj.apply(method, args)`: only fixnums and arrays answer `apply`; any
      other value makes the host raise. */
  function Send(recv: Value, op: Name, args: seq<Value>): (r: Result<Value>)
    ensures !(recv.Fix? || recv.Arr?) ==> r == Err(NoMethodError("apply"))
  {
    match recv
    case Fix(n) => FixnumApply(n, op, args)
    case Arr(elems) => ArrayApply(elems, op, args)
    case _ => Err(NoMethodError("apply"))
  }
}
