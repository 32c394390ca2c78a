/** The alias-following tracer `originatesFromBdApi` (index.ts:89-113): does an
    expression statically derive from the global `BdApi` object? */
module Origin {
  import opened Base
  import opened Ast

  const GlobalName := "BdApi"
  const InteropHelper := "_interopDefaultLegacy"

  /** What declared a name: a variable declarator (with its initialiser, if any),
      a function parameter, or anything else (function, class, import, ...). */
  datatype BindingKind = DeclaredBy(decl: nat, init: Option<Expr>) | Param | OtherBinding

  /** A scope entry; `referenced` is the snapshot taken when the scope was crawled. */
  datatype Binding = Binding(kind: BindingKind, referenced: bool)

  /** The bindings visible at the point being rewritten, by name. */
  type Scope = map<string, Binding>

  /** The outcome of one turn of the tracer's loop: success, failure, the TypeError
      of reading the first argument of an argument-less call, or a continuation on
      `next` (through the alias `alias` when an identifier binding was followed). */
  datatype Step = Found | Fails | Throws | Via(next: Expr, alias: Option<string>)

  function StepOf(scope: Scope, e: Expr): (s: Step)
    ensures s.Via? && s.alias.None? ==> Size(s.next) < Size(e)
    ensures s.Via? && s.alias.Some? ==>
              s.alias.value in scope && scope[s.alias.value].kind.DeclaredBy?
              && scope[s.alias.value].kind.init == Some(s.next)
    ensures s == Found <==> Root(e) == Ident(GlobalName) && GlobalName !in scope
  {
    var root := Root(e);
    if root.Call? then
      if !root.callee.Ident? || root.callee.name != InteropHelper then Fails
      else if |root.args| == 0 then Throws
      else if !IsExpression(root.args[0]) then Fails
      else Via(root.args[0], None)
    else if !root.Ident? then Fails
    else if root.name == GlobalName && GlobalName !in scope then Found
    else if root.name !in scope then Fails
    else match scope[root.name].kind
      case DeclaredBy(_, Some(init)) => if IsExpression(init) then Via(init, Some(root.name)) else Fails
      case _ => Fails
  }

  /** The tracer as written. `seen` holds the aliases already followed: meeting one
      again means the source's `while (true)` would never end, and the model answers
      `false` there. A call to the interop helper with no argument makes the source
      throw (index.ts:98-99). */
  function Trace(scope: Scope, e: Expr, seen: set<string>): Completion<bool>
    decreases |scope.Keys - seen|, Size(e)
  {
    match StepOf(scope, e)
    case Found => Normal(true)
    case Fails => Normal(false)
    case Throws => TypeError
    case Via(next, None) => Trace(scope, next, seen)
    case Via(next, Some(x)) =>
      if x in seen then Normal(false)
      else
        assert scope.Keys - (seen + {x}) == (scope.Keys - seen) - {x};
        Trace(scope, next, seen + {x})
  }

  /** Reference definition: `e` reaches an unshadowed `BdApi` in exactly `n` steps. */
  predicate ReachesIn(scope: Scope, e: Expr, n: nat)
    decreases n
  {
    match StepOf(scope, e)
    case Found => n == 0
    case Via(next, _) => n > 0 && ReachesIn(scope, next, n - 1)
    case _ => false
  }

  /** The tracer used by the rewrite rules: the as-written trace, with the TypeError
      of an argument-less interop call read as "does not originate". */
  function Originates(scope: Scope, e: Expr): (r: bool)
    ensures r <==> exists n: nat :: ReachesIn(scope, e, n)
    ensures Trace(scope, e, {}) == Normal(true) ==> r
    ensures Trace(scope, e, {}) == Normal(false) ==> !r
  {
    OriginatesIffReaches(scope, e);
    Trace(scope, e, {}) == Normal(true)
  }

  /** The expression reached after `k` continuation steps (or where stepping stopped). */
  function After(scope: Scope, e: Expr, k: nat): Expr
    decreases k
  {
    if k == 0 then e
    else match StepOf(scope, e)
      case Via(next, _) => After(scope, next, k - 1)
      case _ => e
  }

  /** The alias followed by step `k`, if that step followed one. */
  function AliasAt(scope: Scope, e: Expr, k: nat): Option<string> {
    var s := StepOf(scope, After(scope, e, k));
    if s.Via? then s.alias else None
  }

  ghost predicate AliasesAvoid(scope: Scope, e: Expr, n: nat, seen: set<string>) {
    forall k :: 0 <= k < n && AliasAt(scope, e, k).Some? ==> AliasAt(scope, e, k).value !in seen
  }

  /** The number of steps to `BdApi` is determined by the start expression. */
  lemma {:induction false} ReachesUnique(scope: Scope, e: Expr, n: nat, m: nat)
    requires ReachesIn(scope, e, n) && ReachesIn(scope, e, m)
    ensures n == m
    decreases n
  {
    match StepOf(scope, e)
    case Found =>
    case Via(next, _) => ReachesUnique(scope, next, n - 1, m - 1);
  }

  lemma {:induction false} ReachesAfter(scope: Scope, e: Expr, n: nat, k: nat)
    requires ReachesIn(scope, e, n) && k <= n
    ensures ReachesIn(scope, After(scope, e, k), n - k)
    decreases k
  {
    if k > 0 {
      match StepOf(scope, e)
      case Via(next, _) => ReachesAfter(scope, next, n - 1, k - 1);
    }
  }

  lemma {:induction false} AfterSucc(scope: Scope, e: Expr, k: nat)
    requires StepOf(scope, After(scope, e, k)).Via?
    ensures After(scope, e, k + 1) == StepOf(scope, After(scope, e, k)).next
    decreases k
  {
    if k > 0 {
      match StepOf(scope, e)
      case Via(next, _) => AfterSucc(scope, next, k - 1);
    }
  }

  /** A trace that reaches `BdApi` and follows none of the aliases in `seen`
      succeeds: along a successful chain no alias is followed twice. */
  lemma {:induction false} Complete(scope: Scope, e: Expr, n: nat, seen: set<string>)
    requires ReachesIn(scope, e, n)
    requires AliasesAvoid(scope, e, n, seen)
    ensures Trace(scope, e, seen) == Normal(true)
    decreases n
  {
    match StepOf(scope, e)
    case Found =>
    case Via(next, a) =>
      assert AliasAt(scope, e, 0) == a;
      forall k | 0 <= k < n - 1
        ensures AliasAt(scope, next, k) == AliasAt(scope, e, k + 1)
      {
        assert After(scope, e, k + 1) == After(scope, next, k);
      }
      match a
      case None =>
        Complete(scope, next, n - 1, seen);
      case Some(x) =>
        forall k | 0 <= k < n - 1 && AliasAt(scope, next, k).Some?
          ensures AliasAt(scope, next, k).value !in seen + {x}
        {
          assert AliasAt(scope, e, k + 1) == AliasAt(scope, next, k);
          if AliasAt(scope, next, k) == Some(x) {
            AfterSucc(scope, next, k);
            assert After(scope, next, k + 1) == next;
            ReachesAfter(scope, next, n - 1, k + 1);
            ReachesUnique(scope, next, n - 1, n - 2 - k);
            assert false;
          }
        }
        Complete(scope, next, n - 1, seen + {x});
  }

  /** A successful trace exhibits a finite chain to `BdApi`. */
  lemma {:induction false} Sound(scope: Scope, e: Expr, seen: set<string>) returns (n: nat)
    requires Trace(scope, e, seen) == Normal(true)
    ensures ReachesIn(scope, e, n)
    decreases |scope.Keys - seen|, Size(e)
  {
    match StepOf(scope, e)
    case Found => n := 0;
    case Via(next, None) =>
      var m := Sound(scope, next, seen);
      n := m + 1;
    case Via(next, Some(x)) =>
      assert scope.Keys - (seen + {x}) == (scope.Keys - seen) - {x};
      var m := Sound(scope, next, seen + {x});
      n := m + 1;
  }

  /** The tracer accepts exactly the expressions that reach an unshadowed `BdApi`
      through interop-helper arguments and declarator initialisers. */
  lemma OriginatesIffReaches(scope: Scope, e: Expr)
    ensures Trace(scope, e, {}) == Normal(true) <==> exists n: nat :: ReachesIn(scope, e, n)
  {
    if Trace(scope, e, {}) == Normal(true) {
      var steps := Sound(scope, e, {});
      assert ReachesIn(scope, e, steps);
      assert exists n: nat :: ReachesIn(scope, e, n);
    }
    if exists n: nat :: ReachesIn(scope, e, n) {
      var n: nat :| ReachesIn(scope, e, n);
      var none: set<string> := {};
      Complete(scope, e, n, none);
      assert Trace(scope, e, none) == Normal(true);
    }
  }

  /** `BdApi.a.b...` traces when nothing in scope shadows `BdApi`. */
  lemma UnshadowedChainOriginates(scope: Scope, names: seq<string>)
    requires |names| > 0 && names[0] == GlobalName && GlobalName !in scope
    ensures Originates(scope, PropertyChain(names))
  {
    RootOfPropertyChain(names);
    assert ReachesIn(scope, PropertyChain(names), 0);
  }

  /** A `BdApi` bound by a parameter (or by anything but a declarator) never traces,
      however long the member chain hung on it. */
  lemma ShadowedGlobalNeverOriginates(scope: Scope, e: Expr)
    requires Root(e) == Ident(GlobalName)
    requires GlobalName in scope && !scope[GlobalName].kind.DeclaredBy?
    ensures !Originates(scope, e)
  {
    assert StepOf(scope, e) == Fails;
  }

  /** Only calls to the interop helper are looked through; any other call root fails. */
  lemma OtherCallRootFails(scope: Scope, e: Expr)
    requires Root(e).Call? && Root(e).callee != Ident(InteropHelper)
    ensures !Originates(scope, e)
  {
    assert StepOf(scope, e) == Fails;
  }

  /** A root that is neither a call nor an identifier (a literal, an arrow, ...) fails. */
  lemma NonIdentifierRootFails(scope: Scope, e: Expr)
    requires !Root(e).Call? && !Root(e).Ident?
    ensures !Originates(scope, e)
  {
    assert StepOf(scope, e) == Fails;
  }

  /** An identifier with no binding, or one bound by a parameter, another kind of
      declaration or a declarator without initialiser, fails (unless it is an
      unshadowed `BdApi`). */
  lemma UntraceableIdentifierFails(scope: Scope, e: Expr, x: string)
    requires Root(e) == Ident(x) && !(x == GlobalName && GlobalName !in scope)
    requires x !in scope || !scope[x].kind.DeclaredBy? || scope[x].kind.init.None?
    ensures !Originates(scope, e)
  {
    assert StepOf(scope, e) == Fails;
  }

  /** `_interopDefaultLegacy(a, ...)` traces exactly when its first argument does. */
  lemma InteropUnwraps(scope: Scope, e: Expr)
    requires Root(e).Call? && Root(e).callee == Ident(InteropHelper)
    requires |Root(e).args| > 0 && IsExpression(Root(e).args[0])
    ensures Originates(scope, e) == Originates(scope, Root(e).args[0])
  {
    StepsThroughVia(scope, e);
  }

  /** An identifier bound by `const x = init` traces exactly when `init` does. */
  lemma AliasFollowsInit(scope: Scope, e: Expr, x: string, init: Expr)
    requires Root(e) == Ident(x) && x in scope
    requires scope[x].kind.DeclaredBy? && scope[x].kind.init == Some(init) && IsExpression(init)
    ensures Originates(scope, e) == Originates(scope, init)
  {
    StepsThroughVia(scope, e);
  }

  /** A continuation step preserves reachability, one step shorter. */
  lemma StepsThroughVia(scope: Scope, e: Expr)
    requires StepOf(scope, e).Via?
    ensures Originates(scope, e) == Originates(scope, StepOf(scope, e).next)
  {
    var next := StepOf(scope, e).next;
    if Originates(scope, e) {
      var n: nat :| ReachesIn(scope, e, n);
      assert ReachesIn(scope, next, n - 1);
    }
    if Originates(scope, next) {
      var n: nat :| ReachesIn(scope, next, n);
      assert ReachesIn(scope, e, n + 1);
    }
  }

  /** As written, `_interopDefaultLegacy().getModule` makes the tracer throw: the
      destructured first argument is `undefined` and `.isExpression()` is called on it. */
  lemma ArgumentlessInteropThrows(scope: Scope)
    ensures Trace(scope, Member(Call(Ident(InteropHelper), []), Ident("getModule"), false), {}) == TypeError
    ensures !Originates(scope, Member(Call(Ident(InteropHelper), []), Ident("getModule"), false))
  {
  }
}
