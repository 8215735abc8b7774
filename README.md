# ruru evaluator core in Dafny

ruru is a small interpreter for a subset of Ruby, written in Ruby. This
project models its evaluator, `interp/ruru.rb`. The evaluator takes a parse
tree that has already been built and walks it. It keeps one `RuContext` with
a method table and a single flat variable table, and two native value
classes: `RuFixnum` and `RuArray`.

The model has two layers, and a proof ties them together:

- **`Semantics`** is a pure big-step semantics. `EvalNode`, `EvalSeq`,
  `AssignPairs`, `Loop`, `ApplyNode`, `EvalArgs`, `Invoke` and `CallNamed`
  each take the context's two tables (an `Env`) and return the outcome
  together with the tables as the evaluation left them.
- **`Interp`** is the evaluator written the way the source is written:
  - class `Context` holds the two tables and updates them in place;
  - class `Ruru` walks the tree with `Eval` and writes into that context;
  - `RunMethod` is `RuMethod#call`.

  Every method of `Interp` is proved to leave the context in exactly the
  state the pure semantics describes, and to return exactly the result the
  pure semantics describes.
- **`Values`** holds the runtime values, the errors, and the native `apply`
  of fixnums and arrays.
- **`Properties`** holds the behavioural lemmas.
- **`Xprod`** builds the parse tree of the scalar-product program from
  `spec/xprod_spec.rb`. It proves that calling it on two fixnum arrays
  returns their dot product, or raises "Array bounds" when the second array
  is shorter.

Each raise of the source is an `Err` of a specific kind:

| error | raised when |
|---|---|
| `ParseError` | unknown tag, or a missing sub-tree |
| `ScopeArity` | the `:scope` assertion fails |
| `NoMethodError` | the host itself raises because a value lacks `apply`, `__val` or `call` |
| `MethodMissing` | `"Method ..."` |
| `ArrayBounds` | `"Array bounds"` |

Writes made before a raise stay in the tables, as they do in the mutable
context.

Some points where the model follows the code rather than the intended design:

- **`:masgn` is not a parallel assignment.** The right-hand sides are
  evaluated and bound pair by pair (`interp/ruru.rb:63`), so `a, b = b, a`
  does not swap. `Properties.MAsgnDoesNotSwap` states this.
- **Calls do not get their own frame.** A call binds its parameters into the
  one shared variable table and never restores it (`interp/ruru.rb:130-135`).
  `Semantics.Invoke` and `Semantics.CallNamed` state this.
- **Integers are unbounded.** The host's integers are arbitrary precision, so
  `+` and `*` never wrap.
- **Classes and receivers are not in this source.** Receiver-based dispatch,
  classes, eigenclasses and `super` do not appear in `interp/ruru.rb`, so they
  are not part of this model.

Only `:while` can run without end: a program cannot call a user method,
because a call without a receiver has a nil receiver node and is a parse
error. So evaluation takes a `fuel` bound: each loop may run its body at most
`fuel` times, and beyond that the result is `OutOfFuel`. The host interpreter
has no such bound.

## Model

| member | source | states |
|---|---|---|
| Interp.Context.constructor | interp/ruru.rb:99-102 | a new context has an empty method table and an empty variable table |
| Interp.Context.DefineMethod | interp/ruru.rb:104-106 | returns a method holding the given parameters and body; the method table maps the name to it, replacing any earlier method; the variable table is unchanged |
| Interp.Context.FindMethod | interp/ruru.rb:108-110 | finds a method exactly when the name is in the method table, and the one found is the stored one |
| Interp.Context.SetVariable | interp/ruru.rb:112-114 | returns the stored value; only that name of the variable table changes |
| Interp.Context.GetVariable | interp/ruru.rb:116-118 | the value stored under the name, or nil when the name is unset |
| Interp.Ruru.constructor | interp/ruru.rb:26-34 | the evaluator keeps the given context and tree |
| Interp.Ruru.Eval | interp/ruru.rb:37-78 | dispatching on the tag yields exactly the result and the new tables of the pure semantics `EvalNode` |
| Interp.Ruru.EvalBlock | interp/ruru.rb:45-50 | running the children in order and keeping the last value (nil at first) matches `EvalSeq`, including stopping at the first raise |
| Interp.Ruru.EvalMAsgn | interp/ruru.rb:59-63 | the pairwise evaluate-then-bind loop matches `EvalNode` on the `:masgn` node; too few right-hand sides give the parse error of evaluating nil |
| Interp.Ruru.EvalWhile | interp/ruru.rb:64-69 | the condition/body loop matches `Loop` with the whole fuel, ending in QNil |
| Interp.Ruru.Apply | interp/ruru.rb:81-85 | the receiver, then the arguments left to right, then the native `apply`: matches `ApplyNode` |
| Interp.Ruru.Call | interp/ruru.rb:87-89 | looking up and running a user method matches `CallNamed`; an unknown name raises and changes nothing |
| Interp.RunMethod | interp/ruru.rb:130-135 | binding the parameters, then evaluating the body over the same context, matches `Invoke` |
| Interp.BindParams | interp/ruru.rb:131-133 | the zip loop leaves the variable table equal to `Bind` of the old table, and the method table unchanged |
| Values.FixnumApply | interp/ruru.rb:147-159 | any name other than `<`, `+` and `*` raises "Method"; for those three, the call succeeds exactly when the first argument is a fixnum |
| Values.ArrayApply | interp/ruru.rb:167-179 | `size` is the element count; `[]` with a fixnum index raises "Array bounds" exactly when the index is negative or not below the size, and otherwise returns that element; any other name raises "Method" |
| Values.Send | interp/ruru.rb:84 | a receiver that is neither a fixnum nor an array has no `apply`, and the host raises |
| Semantics.AssignPairs | interp/ruru.rb:59-63 | a multiple assignment can only succeed when there are at least as many right-hand sides as targets; it removes no name from either table |
| Semantics.EvalArgs | interp/ruru.rb:83 | on success there is one value per argument, appended after the values already collected; evaluating the arguments removes no name from either table |
| Semantics.Lookup | interp/ruru.rb:116-118 | a set name reads as its stored value, an unset name as nil |
| Semantics.Assign | interp/ruru.rb:112-114 | the name reads back as the assigned value, it is the only name added to the variable table, and the method table is unchanged |
| Semantics.Define | interp/ruru.rb:104-106 | the name finds the new method, replacing any earlier one; every other name finds what it found before; it is the only name added, and the variables are unchanged |
| Semantics.Find | interp/ruru.rb:108-110 | a method is found exactly when the name is in the method table, and it is the stored one |
| Semantics.EvalNode | interp/ruru.rb:37-78 | no evaluation of any node removes a variable or a method: both tables only grow, whether the evaluation succeeds or raises |
| Semantics.EvalSeq | interp/ruru.rb:45-50 | running a block's children, up to the first raise, only grows the tables |
| Semantics.Loop | interp/ruru.rb:64-69 | running a loop, whatever the number of turns, only grows the tables |
| Semantics.ApplyNode | interp/ruru.rb:81-85 | evaluating the receiver and the arguments and dispatching only grows the tables |
| Semantics.Invoke | interp/ruru.rb:130-135 | running a method only grows the caller's tables, and afterwards, whether the body succeeded or raised, every parameter is set in the shared variable table (nothing is restored) |
| Semantics.CallNamed | interp/ruru.rb:87-89 | a call only grows the tables; when the name is defined, every parameter of its method is still set in the caller's variable table afterwards |
| Semantics.Bind | interp/ruru.rb:131-133 | binding keeps every name the table had and sets each of the bound parameters |
| Values.Truthy | interp/ruru.rb:66 | only nil and false are falsy; QNil (the value of a finished loop), true, every fixnum including 0 and every array are truthy |
| Values.ArgAt | interp/ruru.rb:148 | a passed argument is read as itself; a missing one reads as nil, so the result is always an argument or nil |
| Semantics.BindKeys | interp/ruru.rb:130-133 | after binding, the variable table holds exactly its old names plus the parameters |
| Semantics.BindKeeps | interp/ruru.rb:130-133 | binding changes no variable that is not a parameter |
| Semantics.BindPositional | interp/ruru.rb:130-133 | each parameter (its last occurrence when repeated) holds the argument at its own position, or nil when the caller passed fewer arguments |
| Properties.EmptyBlockIsNil | interp/ruru.rb:45-50 | an empty block yields nil and changes nothing |
| Properties.EvalSeqSnoc | interp/ruru.rb:47-49 | running children followed by one more child is the same as running the children and then, if they all succeeded, that last child |
| Properties.BlockYieldsLastChild | interp/ruru.rb:45-50 | a block ending in c yields what c yields after the rest of the block; the first raise stops it |
| Properties.AssignThenRead | interp/ruru.rb:55-58 | `:lasgn` yields its expression's value; reading the name back gives that value; other names keep what the expression left; a raise binds nothing |
| Properties.UnsetVariableIsNil | interp/ruru.rb:53-54 | reading a name that was never assigned yields nil |
| Properties.AssignPairsAsLAsgns | interp/ruru.rb:63 | the pair loop leaves the same tables and the same success or error as the sequence of single assignments |
| Properties.MAsgnIsSequential | interp/ruru.rb:59-63 | `t1, ..., tn = e1, ..., en` has the effect of the n assignments `ti = ei` run in order |
| Properties.AssignPairsIgnoresSurplus | interp/ruru.rb:63 | right-hand sides beyond the last target do not affect the pair loop |
| Properties.MAsgnIgnoresSurplus | interp/ruru.rb:63 | extra right-hand sides are never evaluated; appending them changes neither the result nor the tables |
| Properties.MAsgnShortFails | interp/ruru.rb:63 | with fewer right-hand sides than targets, the assignment always raises |
| Properties.MAsgnDoesNotSwap | interp/ruru.rb:63 | in any tables, `a, b = b, a` succeeds and leaves both names holding the old value of `b`; every other variable and every method keeps its value |
| Properties.LoopYieldsQNil | interp/ruru.rb:64-69 | a loop that ends without a raise yields QNil, whatever the body yields |
| Properties.WhileYieldsQNil | interp/ruru.rb:64-69 | a `:while` that ends without a raise yields QNil |
| Properties.WhileStopsOnFalsy | interp/ruru.rb:66 | a falsy condition ends the loop without running the body; the loop yields QNil and the tables the condition left |
| Properties.LoopRepeatsOnTruthy | interp/ruru.rb:66-68 | a truthy condition runs the body once, and then the loop starts again from the tables the body left |
| Properties.EvalArgsSnoc | interp/ruru.rb:83 | the arguments are evaluated left to right, each in the tables the one before it left, and the values are collected in that order |
| Properties.ArgumentsLeftToRight | interp/ruru.rb:83 | the same, for a call's argument list from the start |
| Properties.ReceiverFirst | interp/ruru.rb:82 | when the receiver raises, no argument is evaluated and nothing is dispatched |
| Properties.CallDispatches | interp/ruru.rb:81-84 | once the receiver and the arguments are values, the result is the receiver's native `apply` and the tables are the ones the arguments left |
| Properties.NoReceiverIsParseError | interp/ruru.rb:70-77 | a call with no receiver node raises a parse error for nil |
| Properties.FixnumArithmetic | interp/ruru.rb:147-155 | `+` and `*` return the sum and the product as fixnums; `<` yields the host boolean; extra arguments are ignored |
| Properties.ArrayIndex | interp/ruru.rb:167-175 | `[]` raises "Array bounds" exactly when `i < 0 or i >= size` and otherwise yields element `i`; `size` yields the count |
| Properties.UnknownTagIsParseError | interp/ruru.rb:75-76 | an unknown tag or a missing sub-tree raises a parse error and changes nothing |
| Properties.ScopeNeedsOneChild | interp/ruru.rb:42-44 | a scope with a number of children other than one fails its assertion; with exactly one child it evaluates as that child |
| Properties.RedefinitionWins | interp/ruru.rb:104-106 | defining a name twice leaves the second definition in the method table |
| Properties.UndefinedMethodFails | interp/ruru.rb:87-89 | calling an undefined name raises and leaves both tables as they were |
| Properties.CallBindsPositionally | interp/ruru.rb:130-135 | a call evaluates the body over the shared table in which each parameter holds the argument at its position (nil when missing) and every other name keeps its value |
| Properties.BindIgnoresSurplus | interp/ruru.rb:131 | arguments beyond the parameter list are never looked at |
| Xprod.ProgramDefinesXprod | spec/xprod_spec.rb:10-21 | evaluating the `def xprod` tree succeeds and stores that method under `xprod` |
| Xprod.XprodBody | spec/xprod_spec.rb:12-19 | invoking xprod binds `a` and `b` and runs its three statements in order |
| Xprod.PrologueStep | spec/xprod_spec.rb:13 | `i, prod = 0, 0` sets i and prod to 0 and keeps the two arrays |
| Xprod.CondValue | spec/xprod_spec.rb:14 | the loop condition yields `i < a.size` and changes nothing |
| Xprod.AddProductStep | spec/xprod_spec.rb:15 | `prod += a[i] * b[i]` adds the product to prod, or raises "Array bounds" when `i >= b.size` |
| Xprod.AdvanceStep | spec/xprod_spec.rb:16 | `i += 1` adds one to i |
| Xprod.BodyStep | spec/xprod_spec.rb:15-16 | one run of the body advances i by one and prod by `a[i] * b[i]`, or raises "Array bounds" |
| Xprod.LoopComputesDot | spec/xprod_spec.rb:14-17 | when b is at least as long as a, the loop started at i = k with prod equal to the dot product of the first k elements ends at i = size of a, with prod equal to the whole dot product |
| Xprod.LoopFailsOnShortB | spec/xprod_spec.rb:14-17 | when b is shorter than a, the loop raises "Array bounds" |
| Xprod.LoopThenReturn | spec/xprod_spec.rb:14-18 | after the loop, `return prod` yields prod, or the loop's error |
| Xprod.XprodComputesDot | spec/xprod_spec.rb:10-41 | calling xprod on two fixnum arrays yields their dot product when b is at least as long as a, and otherwise raises "Array bounds" |
| Xprod.XprodExamples | spec/xprod_spec.rb:31-41 | `[]·[]` is 0, `[1,2,3,4,5]·[1,1,1,1,1]` is 15, and `[1]·[]` raises "Array bounds" |

## Left out

- Parsing source text with `RubyParser` (`interp/ruru.rb:28-33`) is left out. The model takes the tree as already built; the parser is a foreign library.
- The `ruru(...)` entry helper (`interp/ruru.rb:92-96`) is host plumbing.
- The `assert` patch on `Object` (`interp/ruru.rb:5-13`, `interp/patch.rb`) is host plumbing. The failed `:scope` assertion it raises is modelled as `ScopeArity`.
- The identities of `Qnil`, `Qtrue` and `Qfalse` as `RuObj` instances are left out. `QNil` is one distinguished value. `Qtrue` and `Qfalse` are never produced by the evaluator.
- A `:lit` node is modelled with integers only. Other literal kinds would reach the same `RuFixnum.new` wrapper, but the xprod program never uses them.
- A `:masgn` target is modelled as a plain name: the `l[1]` of its `(:lasgn name)` node.
- Sub-trees that the evaluator ignores are not represented. These are the extra flag of a `:while` node and any children of a `:return` node beyond its first.
- The "Simple classes" examples of `spec/interpreter_spec.rb` are left out. They call `new_object` and `instance_eval`, which the evaluator does not define.
- Host error messages are modelled only by their kind, not by their text.
- Semantics.Loop: `fuel` bounds each while loop; a loop that would run its body more often ends in `OutOfFuel` instead of running on, so the model does not capture non-terminating programs.
- Semantics.EvalNode: inherits the same `fuel` bound through every `:while` node it reaches.
- Interp.Ruru.Eval: inherits the same `fuel` bound, being proved equal to `Semantics.EvalNode`.
- Interp.Ruru.EvalWhile: inherits the same `fuel` bound, being proved equal to `Semantics.Loop` with the whole fuel.
- Aliasing of the tree is not modelled. The source copies a method body with `dup` when it is defined; the model's trees are values.
