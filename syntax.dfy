/** The already-parsed program tree the evaluator walks.
    The parser front end produces tagged s-expressions; this datatype keeps
    the ten tags the evaluator understands, plus the two shapes it rejects:
    a missing sub-tree (the host's `nil`) and a node with any other tag. */
module Syntax {

  /** Method and variable names (the parser's symbols). */
  type Name = string

  datatype Node =
    | Defn(name: Name, params: seq<Name>, body: Node)  // (:defn name (:args p...) body)
    | Scope(children: seq<Node>)                       // (:scope child...)
    | Block(children: seq<Node>)                       // (:block stmt...)
    | Lit(n: int)                                      // (:lit n)
    | LVar(name: Name)                                 // (:lvar name)
    | LAsgn(name: Name, expr: Node)                    // (:lasgn name expr)
    | MAsgn(targets: seq<Name>, exprs: seq<Node>)      // (:masgn (:array (:lasgn t)...) (:array e...))
    | While(cond: Node, body: Node)                    // (:while cond body)
    | Call(recv: Node, name: Name, args: seq<Node>)    // (:call recv name (:arglist a...))
    | Return(expr: Node)                               // (:return expr)
    | Absent                                           // no sub-tree at all (host nil)
    | Other(tag: Name)                                 // any tag the evaluator does not know

  /** A size measure used only to prove that evaluation terminates. */
  function Size(n: Node): (s: nat)
    ensures s >= 1
  {
    match n
    case Defn(_, _, body) => 1 + Size(body)
    case Scope(cs) => 1 + SizeSeq(cs)
    case Block(cs) => 1 + SizeSeq(cs)
    case Lit(_) => 1
    case LVar(_) => 1
    case LAsgn(_, e) => 1 + Size(e)
    case MAsgn(_, es) => 1 + SizeSeq(es)
    case While(c, b) => 1 + Size(c) + Size(b)
    case Call(r, _, args) => 1 + Size(r) + SizeSeq(args)
    case Return(e) => 1 + Size(e)
    case Absent => 1
    case Other(_) => 1
  }

  function SizeSeq(cs: seq<Node>): nat
  {
    if cs == [] then 0 else Size(cs[0]) + SizeSeq(cs[1..])
  }

  /** Every child weighs no more than the sequence it sits in. */
  lemma {:induction false} SizeElem(cs: seq<Node>, i: nat)
    requires i < |cs|
    ensures Size(cs[i]) <= SizeSeq(cs)
  {
    if i > 0 {
      SizeElem(cs[1..], i - 1);
    }
  }
}
