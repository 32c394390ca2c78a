/** The traversal of `tranformBdPlugin` (index.ts:164-229): Babel visits each node
    on entry, parent before children, statements in order. A node a rule replaces
    is skipped, so neither it nor its children are visited again; a removed node
    is not descended into. Declarator initialisers rewritten on the way are written
    back into the scope, since later traces read the live tree. */
module Transform {
  import opened Base
  import opened Ast
  import opened Origin
  import opened Rules
  import opened Prune

  /** No node of `e` is one the member rule or the `require` rule rewrites. The target of an
      assignment is never rewritten by the member rule itself, only inside it; a function
      body is judged statement by statement (`InertStmts`). */
  predicate Inert(scope: Scope, plugin: string, e: Expr)
    decreases e, 1
  {
    match e
    case Member(o, p, c) =>
      BindReplacement(scope, plugin, o, p, c).None? && Inert(scope, plugin, o) && Inert(scope, plugin, p)
    case Call(callee, args) =>
      RequireReplacement(scope, callee, args).None? && Inert(scope, plugin, callee) && InertAll(scope, plugin, args)
    case Spread(a) => Inert(scope, plugin, a)
    case Assign(l, r) => InertTarget(scope, plugin, l) && Inert(scope, plugin, r)
    case Arrow(b) => Inert(scope, plugin, b)
    case Opaque(_, parts) => InertAll(scope, plugin, parts)
    case Func(_, parts, body) => InertAll(scope, plugin, parts) && InertStmts(scope, plugin, body)
    case _ => true
  }

  /** The statements of a function body, rewritten; the scope they leave ends with them. */
  function TransformBody(scope: Scope, plugin: string, body: seq<Stmt>): seq<Stmt>
    decreases body, 3
  {
    TransformStmts(scope, plugin, body).0
  }

  /** An assignment target is inert when its parts are: a member access there is left bound. */
  predicate InertTarget(scope: Scope, plugin: string, l: Expr)
    decreases l, 2
  {
    if l.Member? then Inert(scope, plugin, l.obj) && Inert(scope, plugin, l.prop)
    else Inert(scope, plugin, l)
  }

  predicate InertAll(scope: Scope, plugin: string, es: seq<Expr>)
    decreases es, 1
  {
    forall i :: 0 <= i < |es| ==> Inert(scope, plugin, es[i])
  }

  /** No statement of the list is one the pure-call rule removes, and nothing in it is
      rewritten or pruned; each statement is judged under the scope the ones before it
      leave when they are left as they are. */
  predicate InertStmts(scope: Scope, plugin: string, ss: seq<Stmt>)
    decreases ss, 1
  {
    ss == [] ||
    (InertStmt(scope, plugin, ss[0]) && InertStmts(ScopeAfterStmt(scope, ss[0]), plugin, ss[1..]))
  }

  predicate InertStmt(scope: Scope, plugin: string, s: Stmt)
    decreases s, 1
  {
    match s
    case ExprStmt(e) => !RemovesStatement(scope, e) && Inert(scope, plugin, e)
    case VarDecl(ds) => InertDeclarators(scope, plugin, ds)
    case Block(body) => InertStmts(scope, plugin, body)
    case Compound(_, es, body) => InertAll(scope, plugin, es) && InertStmts(scope, plugin, body)
  }

  predicate InertDeclarators(scope: Scope, plugin: string, ds: seq<Declarator>)
    decreases ds, 1
  {
    ds == [] ||
    (InertDeclarator(scope, plugin, ds[0]) &&
     InertDeclarators(Retarget(scope, ds[0].ref, ds[0].init), plugin, ds[1..]))
  }

  /** No removable position of the target holds an unreferenced name, and the initialiser
      is inert. */
  predicate InertDeclarator(scope: Scope, plugin: string, d: Declarator)
    decreases d, 1
  {
    Slots(d.target) * Dead(scope) == {} && (d.init.Some? ==> Inert(scope, plugin, d.init.value))
  }

  /** The scope a statement leaves when nothing in it changes: a declaration points its
      bindings at its own initialisers, a nested list passes on what it leaves. */
  function ScopeAfterStmt(scope: Scope, s: Stmt): Scope
    decreases s
  {
    match s
    case ExprStmt(_) => scope
    case VarDecl(ds) => Declared(scope, ds)
    case Block(body) => ScopeAfterStmts(scope, body)
    case Compound(_, _, body) => ScopeAfterStmts(scope, body)
  }

  function ScopeAfterStmts(scope: Scope, ss: seq<Stmt>): Scope
    decreases ss
  {
    if ss == [] then scope else ScopeAfterStmts(ScopeAfterStmt(scope, ss[0]), ss[1..])
  }

  function Declared(scope: Scope, ds: seq<Declarator>): Scope {
    if ds == [] then scope else Declared(Retarget(scope, ds[0].ref, ds[0].init), ds[1..])
  }

  /** The expression rules applied on the way down: a node a rule rewrites is replaced and not
      entered again; other nodes keep their shape and their children are visited, the
      statements of a function body included. `UnchangedIffInert` shows the expression comes
      back unchanged exactly when no rule fires anywhere inside it. */
  function TransformExpr(scope: Scope, plugin: string, e: Expr): (r: Expr)
    ensures e.Member? && BindReplacement(scope, plugin, e.obj, e.prop, e.computed).Some? ==>
              r == BindReplacement(scope, plugin, e.obj, e.prop, e.computed).value
    ensures e.Call? && RequireReplacement(scope, e.callee, e.args).Some? ==>
              r == RequireReplacement(scope, e.callee, e.args).value
    ensures e.Assign? && e.left.Member? ==> r.Assign? && r.left.Member?
    ensures e.Func? ==> r.Func? && r.kind == e.kind && r.stmts == TransformBody(scope, plugin, e.stmts)
    decreases e, 3
  {
    match e
    case Member(o, p, c) =>
      (match BindReplacement(scope, plugin, o, p, c)
       case Some(r) => r
       case None => Member(TransformExpr(scope, plugin, o), TransformExpr(scope, plugin, p), c))
    case Call(callee, args) =>
      (match RequireReplacement(scope, callee, args)
       case Some(r) => r
       case None => Call(TransformExpr(scope, plugin, callee), TransformExprs(scope, plugin, args)))
    case Spread(a) => Spread(TransformExpr(scope, plugin, a))
    case Assign(l, r) => Assign(TransformTarget(scope, plugin, l), TransformExpr(scope, plugin, r))
    case Arrow(b) => Arrow(TransformExpr(scope, plugin, b))
    case Opaque(k, parts) => Opaque(k, TransformExprs(scope, plugin, parts))
    case Func(k, parts, body) =>
      // the body's own bindings end with it: the scope it leaves is dropped
      Func(k, TransformExprs(scope, plugin, parts), TransformBody(scope, plugin, body))
    case _ => e
  }

  /** An assignment target: a member access keeps its shape, whatever the member rule says,
      and only its object and property are visited. Anything else is visited as usual. */
  function TransformTarget(scope: Scope, plugin: string, l: Expr): (r: Expr)
    ensures l.Member? ==> r.Member? && r.computed == l.computed
    ensures !l.Member? || BindReplacement(scope, plugin, l.obj, l.prop, l.computed).None? ==>
              r == TransformExpr(scope, plugin, l)
    decreases l, 4
  {
    if l.Member? then Member(TransformExpr(scope, plugin, l.obj), TransformExpr(scope, plugin, l.prop), l.computed)
    else TransformExpr(scope, plugin, l)
  }

  /** The assignment as written: the member rule also visits the target, and when it fires
      there `replaceWith` is asked to put a call where the grammar wants an assignable
      expression, which its node validation rejects with a `TypeError`. */
  function AssignAsWritten(scope: Scope, plugin: string, l: Expr, v: Expr): (c: Completion<Expr>)
    ensures c.TypeError? <==> l.Member? && BindReplacement(scope, plugin, l.obj, l.prop, l.computed).Some?
    ensures c.Normal? ==> c.value == TransformExpr(scope, plugin, Assign(l, v))
  {
    var target := TransformExpr(scope, plugin, l);
    if l.Member? && !target.Member? then TypeError
    else Normal(Assign(target, TransformExpr(scope, plugin, v)))
  }

  function TransformExprs(scope: Scope, plugin: string, es: seq<Expr>): (r: seq<Expr>)
    ensures |r| == |es|
    ensures forall i :: 0 <= i < |es| ==> r[i] == TransformExpr(scope, plugin, es[i])
    decreases es, 3
  {
    if es == [] then []
    else [TransformExpr(scope, plugin, es[0])] + TransformExprs(scope, plugin, es[1..])
  }

  /** An expression comes back unchanged exactly when no rule fires anywhere inside it. */
  lemma {:induction false} UnchangedIffInert(scope: Scope, plugin: string, e: Expr)
    ensures TransformExpr(scope, plugin, e) == e <==> Inert(scope, plugin, e)
    decreases e, 1
  {
    match e
    case Member(o, p, c) =>
      if BindReplacement(scope, plugin, o, p, c).None? {
        UnchangedIffInert(scope, plugin, o);
        UnchangedIffInert(scope, plugin, p);
      }
    case Call(callee, args) =>
      var replacement := RequireReplacement(scope, callee, args);
      if replacement.None? {
        UnchangedIffInert(scope, plugin, callee);
        AllUnchangedIffInert(scope, plugin, args);
      } else {
        assert Root(replacement.value) == Ident(GlobalName);
      }
    case Spread(a) => UnchangedIffInert(scope, plugin, a);
    case Assign(l, r) =>
      TargetUnchangedIffInert(scope, plugin, l);
      UnchangedIffInert(scope, plugin, r);
    case Arrow(b) => UnchangedIffInert(scope, plugin, b);
    case Opaque(_, parts) => AllUnchangedIffInert(scope, plugin, parts);
    case Func(_, parts, body) =>
      AllUnchangedIffInert(scope, plugin, parts);
      StmtsUnchangedIffInert(scope, plugin, body);
    case _ =>
  }

  /** An assignment target comes back unchanged exactly when no rule fires inside its parts. */
  lemma {:induction false} TargetUnchangedIffInert(scope: Scope, plugin: string, l: Expr)
    ensures TransformTarget(scope, plugin, l) == l <==> InertTarget(scope, plugin, l)
    decreases l, 2
  {
    if l.Member? {
      UnchangedIffInert(scope, plugin, l.obj);
      UnchangedIffInert(scope, plugin, l.prop);
    } else {
      UnchangedIffInert(scope, plugin, l);
    }
  }

  /** A list comes back unchanged exactly when no rule fires in any of its expressions. */
  lemma {:induction false} AllUnchangedIffInert(scope: Scope, plugin: string, es: seq<Expr>)
    ensures TransformExprs(scope, plugin, es) == es <==> InertAll(scope, plugin, es)
    decreases es, 2
  {
    if es != [] {
      UnchangedIffInert(scope, plugin, es[0]);
      AllUnchangedIffInert(scope, plugin, es[1..]);
      InertAllCons(scope, plugin, es);
      ConsEquals(TransformExpr(scope, plugin, es[0]), TransformExprs(scope, plugin, es[1..]), es);
    }
  }

  lemma InertAllCons(scope: Scope, plugin: string, es: seq<Expr>)
    requires es != []
    ensures InertAll(scope, plugin, es) <==> Inert(scope, plugin, es[0]) && InertAll(scope, plugin, es[1..])
  {
    if Inert(scope, plugin, es[0]) && InertAll(scope, plugin, es[1..]) {
      forall i | 0 <= i < |es| ensures Inert(scope, plugin, es[i]) {
        if i > 0 { assert es[i] == es[1..][i - 1]; }
      }
    }
    if InertAll(scope, plugin, es) {
      forall j | 0 <= j < |es[1..]| ensures Inert(scope, plugin, es[1..][j]) {
        assert es[1..][j] == es[j + 1];
      }
    }
  }

  /** A list built from a head and a tail equals `es` exactly when both parts agree. */
  lemma ConsEquals<T>(head: T, tail: seq<T>, es: seq<T>)
    requires es != []
    ensures [head] + tail == es <==> head == es[0] && tail == es[1..]
  {
    if [head] + tail == es {
      assert ([head] + tail)[0] == head;
      assert ([head] + tail)[1..] == tail;
    }
    if head == es[0] && tail == es[1..] {
      assert es == [es[0]] + es[1..];
    }
  }

  /** Point the bindings of declarator `ref` at its rewritten initialiser; every other
      binding, and every `referenced` flag, stays as it was. */
  function Retarget(scope: Scope, ref: nat, init: Option<Expr>): (r: Scope)
    ensures r.Keys == scope.Keys
    ensures forall n :: n in r ==> r[n].referenced == scope[n].referenced
    ensures forall n :: n in r && scope[n].kind.DeclaredBy? && scope[n].kind.decl == ref ==>
              r[n].kind == DeclaredBy(ref, init)
    ensures forall n :: n in r && !(scope[n].kind.DeclaredBy? && scope[n].kind.decl == ref) ==>
              r[n] == scope[n]
  {
    map n | n in scope ::
      if scope[n].kind.DeclaredBy? && scope[n].kind.decl == ref
      then Binding(DeclaredBy(ref, init), scope[n].referenced)
      else scope[n]
  }

  /** The declarator rule prunes the target first (removed bindings leave the scope),
      then the initialiser is traversed under the pruned scope, and the bindings the
      declarator makes are pointed at the rewritten initialiser. The declarator itself
      always stays. */
  function TransformDeclarator(scope: Scope, plugin: string, d: Declarator): (r: (Declarator, Scope))
    ensures r.0.ref == d.ref
    ensures r.0.target == PrunePattern(scope, d.target).0
    ensures d.init.None? ==> r.0.init.None?
    ensures d.init.Some? ==>
              r.0.init == Some(TransformExpr(scope - (Slots(d.target) * Dead(scope)), plugin, d.init.value))
    ensures r.1.Keys == scope.Keys - (Slots(d.target) * Dead(scope))
    ensures forall n :: n in r.1 ==> r.1[n].referenced == scope[n].referenced
    ensures forall n :: n in r.1 && scope[n].kind.DeclaredBy? && scope[n].kind.decl == d.ref ==>
              r.1[n].kind == DeclaredBy(d.ref, r.0.init)
    ensures forall n :: n in r.1 && !(scope[n].kind.DeclaredBy? && scope[n].kind.decl == d.ref) ==>
              r.1[n] == scope[n]
    decreases d, 1
  {
    var (target, scope1) := PrunePattern(scope, d.target);
    assert scope1 == scope - (Slots(d.target) * Dead(scope)) by { PruneScope(scope, d.target); }
    var init := if d.init.Some? then Some(TransformExpr(scope1, plugin, d.init.value)) else None;
    (Declarator(d.ref, target, init), Retarget(scope1, d.ref, init))
  }

  /** The declarators of one declaration, left to right, each seeing the scope the ones
      before it leave. With `TransformDeclaratorsAppend`, the empty and one-element cases
      determine the whole list. */
  function TransformDeclarators(scope: Scope, plugin: string, ds: seq<Declarator>): (r: (seq<Declarator>, Scope))
    ensures |r.0| == |ds|
    ensures forall i :: 0 <= i < |ds| ==> r.0[i].ref == ds[i].ref && r.0[i].init.Some? == ds[i].init.Some?
    ensures ds == [] ==> r == ([], scope)
    ensures |ds| == 1 ==> r == ([TransformDeclarator(scope, plugin, ds[0]).0], TransformDeclarator(scope, plugin, ds[0]).1)
    ensures |ds| > 0 ==> r.0[0] == TransformDeclarator(scope, plugin, ds[0]).0
    ensures r.1.Keys <= scope.Keys
    decreases ds, 2
  {
    if ds == [] then ([], scope)
    else
      var (d, scope1) := TransformDeclarator(scope, plugin, ds[0]);
      var (rest, scope2) := TransformDeclarators(scope1, plugin, ds[1..]);
      assert |ds| == 1 ==> rest == [] && scope2 == scope1 && [d] + rest == [d];
      ([d] + rest, scope2)
  }

  /** One statement: `[]` when the pure-call rule removes it. A kept expression statement
      carries its rewritten expression and leaves the scope alone; a declaration becomes its
      rewritten declarators, in order, and passes on the scope they leave; a block or any
      other statement keeps its kind, its expressions rewritten under the incoming scope and
      its nested list under the threaded one. */
  function TransformStmt(scope: Scope, plugin: string, s: Stmt): (r: (seq<Stmt>, Scope))
    ensures |r.0| <= 1
    ensures r.0 == [] <==> s.ExprStmt? && RemovesStatement(scope, s.expr)
    ensures r.1.Keys <= scope.Keys
    ensures s.ExprStmt? && !RemovesStatement(scope, s.expr) ==>
              r == ([ExprStmt(TransformExpr(scope, plugin, s.expr))], scope)
    ensures s.ExprStmt? ==> r.1 == scope
    ensures s.VarDecl? ==> r == ([VarDecl(TransformDeclarators(scope, plugin, s.decls).0)], TransformDeclarators(scope, plugin, s.decls).1)
    ensures s.Block? ==> r == ([Block(TransformStmts(scope, plugin, s.body).0)], TransformStmts(scope, plugin, s.body).1)
    ensures s.Compound? ==>
              r == ([Compound(s.kind, TransformExprs(scope, plugin, s.exprs), TransformStmts(scope, plugin, s.body).0)],
                    TransformStmts(scope, plugin, s.body).1)
    decreases s, 3
  {
    match s
    case ExprStmt(e) =>
      if RemovesStatement(scope, e) then ([], scope)
      else ([ExprStmt(TransformExpr(scope, plugin, e))], scope)
    case VarDecl(ds) =>
      var (ds', scope1) := TransformDeclarators(scope, plugin, ds);
      ([VarDecl(ds')], scope1)
    case Block(body) =>
      var (body', scope1) := TransformStmts(scope, plugin, body);
      ([Block(body')], scope1)
    case Compound(k, es, body) =>
      var (body', scope1) := TransformStmts(scope, plugin, body);
      ([Compound(k, TransformExprs(scope, plugin, es), body')], scope1)
  }

  /** A statement list, threading the scope; only expression statements disappear. With
      `TransformStmtsAppend`, the empty and one-statement cases determine the whole list. */
  function TransformStmts(scope: Scope, plugin: string, ss: seq<Stmt>): (r: (seq<Stmt>, Scope))
    ensures |r.0| <= |ss|
    ensures |r.0| == |ss| - Removed(scope, plugin, ss)
    ensures r.1.Keys <= scope.Keys
    ensures ss == [] ==> r == ([], scope)
    ensures |ss| == 1 ==> r == TransformStmt(scope, plugin, ss[0])
    decreases ss, 2
  {
    if ss == [] then ([], scope)
    else
      var (head, scope1) := TransformStmt(scope, plugin, ss[0]);
      var (rest, scope2) := TransformStmts(scope1, plugin, ss[1..]);
      assert |ss| == 1 ==> rest == [] && head + rest == head;
      (head + rest, scope2)
  }

  /** Transforming a list piece by piece, the second piece starting from the scope the first
      one leaves, gives the transform of the whole list. */
  lemma {:induction false} TransformStmtsAppend(scope: Scope, plugin: string, xs: seq<Stmt>, ys: seq<Stmt>)
    ensures var (front, scope1) := TransformStmts(scope, plugin, xs);
            var (back, scope2) := TransformStmts(scope1, plugin, ys);
            TransformStmts(scope, plugin, xs + ys) == (front + back, scope2)
    decreases |xs|
  {
    if xs == [] {
      assert xs + ys == ys;
      var back := TransformStmts(scope, plugin, ys).0;
      assert [] + back == back;
    } else {
      var (head, scope1) := TransformStmt(scope, plugin, xs[0]);
      assert (xs + ys)[0] == xs[0];
      assert (xs + ys)[1..] == xs[1..] + ys;
      TransformStmtsAppend(scope1, plugin, xs[1..], ys);
      var (mid, scope3) := TransformStmts(scope1, plugin, xs[1..]);
      var (back, scope2) := TransformStmts(scope3, plugin, ys);
      assert head + (mid + back) == (head + mid) + back;
    }
  }

  /** The same for the declarators of a declaration. */
  lemma {:induction false} TransformDeclaratorsAppend(scope: Scope, plugin: string, xs: seq<Declarator>, ys: seq<Declarator>)
    ensures var (front, scope1) := TransformDeclarators(scope, plugin, xs);
            var (back, scope2) := TransformDeclarators(scope1, plugin, ys);
            TransformDeclarators(scope, plugin, xs + ys) == (front + back, scope2)
    decreases |xs|
  {
    if xs == [] {
      assert xs + ys == ys;
      var back := TransformDeclarators(scope, plugin, ys).0;
      assert [] + back == back;
    } else {
      var (d, scope1) := TransformDeclarator(scope, plugin, xs[0]);
      assert (xs + ys)[0] == xs[0];
      assert (xs + ys)[1..] == xs[1..] + ys;
      TransformDeclaratorsAppend(scope1, plugin, xs[1..], ys);
      var (mid, scope3) := TransformDeclarators(scope1, plugin, xs[1..]);
      var (back, scope2) := TransformDeclarators(scope3, plugin, ys);
      assert [d] + (mid + back) == ([d] + mid) + back;
    }
  }

  /** A statement list comes back unchanged exactly when it is inert, and then leaves the
      scope an untouched list leaves. */
  lemma {:induction false} StmtsUnchangedIffInert(scope: Scope, plugin: string, ss: seq<Stmt>)
    ensures TransformStmts(scope, plugin, ss).0 == ss <==> InertStmts(scope, plugin, ss)
    ensures InertStmts(scope, plugin, ss) ==> TransformStmts(scope, plugin, ss).1 == ScopeAfterStmts(scope, ss)
    decreases ss, 2
  {
    if ss != [] {
      var (head, scope1) := TransformStmt(scope, plugin, ss[0]);
      StmtUnchangedIffInert(scope, plugin, ss[0]);
      StmtsUnchangedIffInert(scope1, plugin, ss[1..]);
      var rest := TransformStmts(scope1, plugin, ss[1..]).0;
      assert TransformStmts(scope, plugin, ss).0 == head + rest;
      if head == [] {
        assert head + rest == rest;
      } else {
        assert head == [head[0]];
        ConsEquals(head[0], rest, ss);
      }
    }
  }

  /** One statement comes back as itself exactly when it is inert, and then leaves the scope
      an untouched statement leaves. */
  lemma {:induction false} StmtUnchangedIffInert(scope: Scope, plugin: string, s: Stmt)
    ensures TransformStmt(scope, plugin, s).0 == [s] <==> InertStmt(scope, plugin, s)
    ensures InertStmt(scope, plugin, s) ==> TransformStmt(scope, plugin, s).1 == ScopeAfterStmt(scope, s)
    decreases s, 3
  {
    var r := TransformStmt(scope, plugin, s);
    if r.0 != [] {
      assert r.0 == [s] <==> r.0[0] == s;
    }
    match s
    case ExprStmt(e) => UnchangedIffInert(scope, plugin, e);
    case VarDecl(ds) => DeclsUnchangedIffInert(scope, plugin, ds);
    case Block(body) => StmtsUnchangedIffInert(scope, plugin, body);
    case Compound(_, es, body) =>
      AllUnchangedIffInert(scope, plugin, es);
      StmtsUnchangedIffInert(scope, plugin, body);
  }

  /** The declarators of a declaration come back unchanged exactly when they are inert, and
      then leave the scope pointed at their own initialisers. */
  lemma {:induction false} DeclsUnchangedIffInert(scope: Scope, plugin: string, ds: seq<Declarator>)
    ensures TransformDeclarators(scope, plugin, ds).0 == ds <==> InertDeclarators(scope, plugin, ds)
    ensures InertDeclarators(scope, plugin, ds) ==> TransformDeclarators(scope, plugin, ds).1 == Declared(scope, ds)
    decreases ds, 2
  {
    if ds != [] {
      var (d, scope1) := TransformDeclarator(scope, plugin, ds[0]);
      DeclUnchangedIffInert(scope, plugin, ds[0]);
      DeclsUnchangedIffInert(scope1, plugin, ds[1..]);
      var rest := TransformDeclarators(scope1, plugin, ds[1..]).0;
      assert TransformDeclarators(scope, plugin, ds).0 == [d] + rest;
      ConsEquals(d, rest, ds);
    }
  }

  /** A declarator comes back unchanged exactly when nothing is pruned from its target and
      its initialiser is inert; the scope it then leaves only points its bindings at it. */
  lemma {:induction false} DeclUnchangedIffInert(scope: Scope, plugin: string, d: Declarator)
    ensures TransformDeclarator(scope, plugin, d).0 == d <==> InertDeclarator(scope, plugin, d)
    ensures InertDeclarator(scope, plugin, d) ==> TransformDeclarator(scope, plugin, d).1 == Retarget(scope, d.ref, d.init)
    decreases d, 1
  {
    PruneUnchanged(scope, d.target);
    if Slots(d.target) * Dead(scope) == {} {
      assert scope - (Slots(d.target) * Dead(scope)) == scope;
      if d.init.Some? {
        UnchangedIffInert(scope, plugin, d.init.value);
      }
    }
  }

  /** How many statements of the list the pure-call rule removes, in traversal order. */
  function Removed(scope: Scope, plugin: string, ss: seq<Stmt>): (n: nat)
    ensures n <= |ss|
    decreases ss, 1
  {
    if ss == [] then 0
    else
      var (head, scope1) := TransformStmt(scope, plugin, ss[0]);
      (if head == [] then 1 else 0) + Removed(scope1, plugin, ss[1..])
  }

  /** `module.exports = () => exports` */
  const ExportStatement: Stmt :=
    ExprStmt(Assign(Member(Ident("module"), Ident("exports"), false), Arrow(Ident("exports"))))

  /** The Program rule runs on entry, so the export statement is in the body before
      any statement is visited. */
  function TransformProgram(scope: Scope, plugin: string, body: seq<Stmt>): seq<Stmt> {
    TransformStmts(scope, plugin, [ExportStatement] + body).0
  }
}
