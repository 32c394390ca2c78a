/** The syntax tree the build-time rewrite pass works on (index.ts), reduced to the
    node shapes the pass inspects. Every other expression is `Opaque` or, when it holds
    statements (a function expression, a block-bodied arrow, a class body), `Func`; every
    other statement is `Compound`. Each keeps its children: the pass has no rule of its own
    for these nodes but descends into their children, where its rules apply as anywhere
    else. */
module Ast {
  import opened Base

  datatype Expr =
    | Ident(name: string)
    | Member(obj: Expr, prop: Expr, computed: bool)
    | Call(callee: Expr, args: seq<Expr>)
    | StrLit(value: string)
    | NullLit
    | Spread(arg: Expr)                        // `...x` in an argument list: not an Expression
    | Assign(left: Expr, right: Expr)
    | Arrow(body: Expr)                        // `() => body`
    | Opaque(kind: string, parts: seq<Expr>)   // any other expression, with its child expressions
    | Func(kind: string, parts: seq<Expr>, stmts: seq<Stmt>)
                                               // an expression holding statements: its child
                                               // expressions, then its statement list

  /** Babel's `isExpression()`: every node above except a spread argument. */
  predicate IsExpression(e: Expr) {
    !e.Spread?
  }

  /** Destructuring targets of a variable declarator. */
  datatype Pattern =
    | PIdent(name: string)
    | PObject(props: seq<PatProp>)
    | PArray(elems: seq<ArrayElem>)
    | POther                                   // default values, member targets: opaque to the pass

  datatype PatProp = Prop(key: string, value: Pattern) | Rest(arg: Pattern)

  datatype ArrayElem = Hole | Elem(pat: Pattern) | RestElem(arg: Pattern)

  /** `ref` identifies the declarator; scope bindings point back to it. */
  datatype Declarator = Declarator(ref: nat, target: Pattern, init: Option<Expr>)

  datatype Stmt =
    | ExprStmt(expr: Expr)
    | VarDecl(decls: seq<Declarator>)
    | Block(body: seq<Stmt>)
    | Compound(kind: string, exprs: seq<Expr>, body: seq<Stmt>)  // `if`, `return`, a function declaration, ...:
                                                                  // its expressions, then its nested statements

  /** The size of the expression layer, the measure the reference tracer descends by. The
      statements of a `Func` body are not counted: the tracer never enters them. */
  function Size(e: Expr): (n: nat)
    ensures n >= 1
  {
    match e
    case Ident(_) => 1
    case Member(o, p, _) => 1 + Size(o) + Size(p)
    case Call(c, args) => 1 + Size(c) + SizeAll(args)
    case StrLit(_) => 1
    case NullLit => 1
    case Spread(a) => 1 + Size(a)
    case Assign(t, v) => 1 + Size(t) + Size(v)
    case Arrow(b) => 1 + Size(b)
    case Opaque(_, parts) => 1 + SizeAll(parts)
    case Func(_, parts, _) => 1 + SizeAll(parts)
  }

  function SizeAll(es: seq<Expr>): (n: nat)
    ensures forall i :: 0 <= i < |es| ==> Size(es[i]) <= n
  {
    if es == [] then 0 else Size(es[0]) + SizeAll(es[1..])
  }

  /** `propertyChain(a, b, c)` builds `a.b.c` by a left fold of non-computed member accesses. */
  function PropertyChain(names: seq<string>): (e: Expr)
    requires |names| > 0
    ensures |names| == 1 <==> e.Ident?
    ensures |names| > 1 ==> e.Member? && !e.computed && e.prop == Ident(names[|names| - 1])
  {
    if |names| == 1 then Ident(names[0])
    else Member(PropertyChain(names[..|names| - 1]), Ident(names[|names| - 1]), false)
  }

  /** `getRootObject`: follow the object of member accesses down to the first node
      that is not a member access. */
  function Root(e: Expr): (r: Expr)
    ensures !r.Member?
    ensures Size(r) <= Size(e)
    ensures !e.Member? ==> r == e
  {
    if e.Member? then Root(e.obj) else e
  }

  /** The root of a property chain is the identifier it starts from. */
  lemma {:induction false} RootOfPropertyChain(names: seq<string>)
    requires |names| > 0
    ensures Root(PropertyChain(names)) == Ident(names[0])
  {
    if |names| > 1 {
      var prefix := names[..|names| - 1];
      RootOfPropertyChain(prefix);
      assert prefix[0] == names[0];
    }
  }
}
