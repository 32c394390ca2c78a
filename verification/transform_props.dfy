/** Properties of the whole rewrite pass. */
module TransformProperties {
  import opened Base
  import opened Ast
  import opened Origin
  import opened Rules
  import opened Prune
  import opened Transform

  /** Visiting the inserted export statement changes neither it nor the scope. */
  lemma ExportStatementUnchanged(scope: Scope, plugin: string)
    ensures TransformStmt(scope, plugin, ExportStatement) == ([ExportStatement], scope)
  {
    var lhs := Member(Ident("module"), Ident("exports"), false);
    assert TransformTarget(scope, plugin, lhs) == lhs;
    assert TransformExpr(scope, plugin, Arrow(Ident("exports"))) == Arrow(Ident("exports"));
    assert !RemovesStatement(scope, ExportStatement.expr);
  }

  /** The pass prepends exactly one export statement and then rewrites the body. */
  lemma {:induction false} ProgramPrependsExport(scope: Scope, plugin: string, body: seq<Stmt>)
    ensures TransformProgram(scope, plugin, body) == [ExportStatement] + TransformStmts(scope, plugin, body).0
    ensures |TransformProgram(scope, plugin, body)| == 1 + |body| - Removed(scope, plugin, body)
  {
    ExportStatementUnchanged(scope, plugin);
    assert ([ExportStatement] + body)[0] == ExportStatement;
    assert ([ExportStatement] + body)[1..] == body;
  }

  /** No existing export statement is looked for: a second pass adds a second one. */
  lemma SecondPassDuplicatesExport(scope: Scope, scope': Scope, plugin: string, body: seq<Stmt>)
    ensures |TransformProgram(scope', plugin, TransformProgram(scope, plugin, body))| >= 2
    ensures TransformProgram(scope', plugin, TransformProgram(scope, plugin, body))[..2]
            == [ExportStatement, ExportStatement]
  {
    var once := TransformProgram(scope, plugin, body);
    ProgramPrependsExport(scope, plugin, body);
    var rest := TransformStmts(scope, plugin, body).0;
    assert once == [ExportStatement] + rest;
    ProgramPrependsExport(scope', plugin, once);
    ExportStatementUnchanged(scope', plugin);
    assert once[0] == ExportStatement && once[1..] == rest;
    assert TransformStmts(scope', plugin, once).0 == [ExportStatement] + TransformStmts(scope', plugin, rest).0;
  }

  /** A member the bind rule rewrites is skipped: the bound expression wraps the
      original, unvisited member, so it is not bound twice. */
  lemma BoundMemberNotRevisited(scope: Scope, plugin: string, o: Expr, p: Expr, c: bool)
    requires BindReplacement(scope, plugin, o, p, c).Some?
    ensures TransformExpr(scope, plugin, Member(o, p, c)) == BindCall(Member(o, p, c), plugin)
  {
  }

  /** `BdApi.saveData = f`: the as-written pass binds the target and `replaceWith` throws;
      the pass leaves the target a member access and the assignment as it is. */
  lemma BoundAssignmentTargetThrows(scope: Scope, plugin: string)
    requires GlobalName !in scope
    ensures var target := Member(Ident(GlobalName), Ident("saveData"), false);
            AssignAsWritten(scope, plugin, target, Ident("f")) == TypeError
            && TransformExpr(scope, plugin, Assign(target, Ident("f"))) == Assign(target, Ident("f"))
  {
    var target := Member(Ident(GlobalName), Ident("saveData"), false);
    assert ReachesIn(scope, Ident(GlobalName), 0);
    assert BindReplacement(scope, plugin, Ident(GlobalName), Ident("saveData"), false).Some?;
  }

  /** A local `require` function is never rewritten. */
  lemma ShadowedRequireUntouched(scope: Scope, plugin: string, spec: string)
    requires LoaderName in scope
    ensures TransformExpr(scope, plugin, Call(Ident(LoaderName), [StrLit(spec)]))
            == Call(Ident(LoaderName), [StrLit(spec)])
  {
    assert TransformExprs(scope, plugin, [StrLit(spec)]) == [StrLit(spec)];
  }

  /** With `BdApi` bound locally, no expression traces to it: the tracer only succeeds on
      an unbound `BdApi`, whatever aliases it follows on the way. */
  lemma {:induction false} NothingTracesWhenGlobalBound(scope: Scope, e: Expr, n: nat)
    requires GlobalName in scope
    ensures !ReachesIn(scope, e, n)
    decreases n
  {
    match StepOf(scope, e)
    case Via(next, _) =>
      if n > 0 {
        NothingTracesWhenGlobalBound(scope, next, n - 1);
      }
    case _ =>
  }

  /** With `BdApi` and `require` bound locally, none of the three expression rules fires. */
  lemma RulesIdleWhenShadowed(scope: Scope, plugin: string)
    requires GlobalName in scope && LoaderName in scope
    ensures forall o, p, c :: BindReplacement(scope, plugin, o, p, c).None?
    ensures forall callee, args :: RequireReplacement(scope, callee, args).None?
    ensures forall e :: !RemovesStatement(scope, e)
  {
    forall o, n: nat | true ensures !ReachesIn(scope, o, n) {
      NothingTracesWhenGlobalBound(scope, o, n);
    }
  }

  /** `BdApi` and `require` are bound locally (by parameters, say), and every binding in
      scope is referenced, so that the declarator rule has nothing to prune either. */
  predicate Shadowed(scope: Scope) {
    GlobalName in scope && LoaderName in scope && Dead(scope) == {}
  }

  /** Safety: in a shadowed scope the pass rewrites no expression, function bodies
      included. */
  lemma {:induction false} ShadowedScopeRewritesNothing(scope: Scope, plugin: string, e: Expr)
    requires Shadowed(scope)
    ensures TransformExpr(scope, plugin, e) == e
    decreases e, 1
  {
    RulesIdleWhenShadowed(scope, plugin);
    match e
    case Member(o, p, c) =>
      ShadowedScopeRewritesNothing(scope, plugin, o);
      ShadowedScopeRewritesNothing(scope, plugin, p);
    case Call(callee, args) =>
      ShadowedScopeRewritesNothing(scope, plugin, callee);
      ShadowedScopeRewritesAll(scope, plugin, args);
    case Spread(a) => ShadowedScopeRewritesNothing(scope, plugin, a);
    case Assign(l, r) =>
      if l.Member? {
        ShadowedScopeRewritesNothing(scope, plugin, l.obj);
        ShadowedScopeRewritesNothing(scope, plugin, l.prop);
      } else {
        ShadowedScopeRewritesNothing(scope, plugin, l);
      }
      ShadowedScopeRewritesNothing(scope, plugin, r);
    case Arrow(b) => ShadowedScopeRewritesNothing(scope, plugin, b);
    case Opaque(k, parts) => ShadowedScopeRewritesAll(scope, plugin, parts);
    case Func(k, parts, body) =>
      ShadowedScopeRewritesAll(scope, plugin, parts);
      ShadowedScopeKeepsStmts(scope, plugin, body);
    case _ =>
  }

  lemma {:induction false} ShadowedScopeRewritesAll(scope: Scope, plugin: string, es: seq<Expr>)
    requires Shadowed(scope)
    ensures TransformExprs(scope, plugin, es) == es
    decreases es, 2
  {
    if es != [] {
      ShadowedScopeRewritesNothing(scope, plugin, es[0]);
      ShadowedScopeRewritesAll(scope, plugin, es[1..]);
      assert es == [es[0]] + es[1..];
    }
  }

  /** In a shadowed scope no statement is removed or rewritten, and the scope passed on
      stays shadowed. */
  lemma {:induction false} ShadowedScopeKeepsStmts(scope: Scope, plugin: string, ss: seq<Stmt>)
    requires Shadowed(scope)
    ensures TransformStmts(scope, plugin, ss).0 == ss
    ensures Shadowed(TransformStmts(scope, plugin, ss).1)
    decreases ss, 2
  {
    if ss != [] {
      var (head, scope1) := TransformStmt(scope, plugin, ss[0]);
      ShadowedScopeKeepsStmt(scope, plugin, ss[0]);
      var (rest, scope2) := TransformStmts(scope1, plugin, ss[1..]);
      ShadowedScopeKeepsStmts(scope1, plugin, ss[1..]);
      assert TransformStmts(scope, plugin, ss) == (head + rest, scope2);
      assert head + rest == ss by {
        assert head == [ss[0]] && rest == ss[1..];
        assert ss == [ss[0]] + ss[1..];
      }
    }
  }

  lemma {:induction false} ShadowedScopeKeepsStmt(scope: Scope, plugin: string, s: Stmt)
    requires Shadowed(scope)
    ensures TransformStmt(scope, plugin, s).0 == [s]
    ensures Shadowed(TransformStmt(scope, plugin, s).1)
    decreases s, 3
  {
    RulesIdleWhenShadowed(scope, plugin);
    match s
    case ExprStmt(e) => ShadowedScopeRewritesNothing(scope, plugin, e);
    case VarDecl(ds) => ShadowedScopeKeepsDeclarators(scope, plugin, ds);
    case Block(body) => ShadowedScopeKeepsStmts(scope, plugin, body);
    case Compound(k, es, body) =>
      ShadowedScopeRewritesAll(scope, plugin, es);
      ShadowedScopeKeepsStmts(scope, plugin, body);
  }

  lemma {:induction false} ShadowedScopeKeepsDeclarators(scope: Scope, plugin: string, ds: seq<Declarator>)
    requires Shadowed(scope)
    ensures TransformDeclarators(scope, plugin, ds).0 == ds
    ensures Shadowed(TransformDeclarators(scope, plugin, ds).1)
    decreases ds, 2
  {
    if ds != [] {
      ShadowedScopeKeepsDeclarator(scope, plugin, ds[0]);
      var scope1 := TransformDeclarator(scope, plugin, ds[0]).1;
      ShadowedScopeKeepsDeclarators(scope1, plugin, ds[1..]);
      assert ds == [ds[0]] + ds[1..];
    }
  }

  lemma {:induction false} ShadowedScopeKeepsDeclarator(scope: Scope, plugin: string, d: Declarator)
    requires Shadowed(scope)
    ensures TransformDeclarator(scope, plugin, d).0 == d
    ensures Shadowed(TransformDeclarator(scope, plugin, d).1)
    decreases d, 1
  {
    NothingDeadNothingPruned(scope, d.target);
    var r := TransformDeclarator(scope, plugin, d);
    assert scope - (Slots(d.target) * Dead(scope)) == scope;
    if d.init.Some? {
      ShadowedScopeRewritesNothing(scope, plugin, d.init.value);
    }
    forall n | n in r.1 ensures r.1[n].referenced {
      assert n !in Dead(scope);
    }
    assert Dead(r.1) == {};
  }

  /** `const x = someLocalObject; x.loadData()` is left alone: `x` does not trace. */
  lemma LocalObjectNotBound(plugin: string)
    ensures var scope := map["x" := Binding(DeclaredBy(0, Some(Ident("someLocalObject"))), true)];
            var e := Call(Member(Ident("x"), Ident("loadData"), false), []);
            TransformExpr(scope, plugin, e) == e
  {
    var scope := map["x" := Binding(DeclaredBy(0, Some(Ident("someLocalObject"))), true)];
    assert StepOf(scope, Ident("someLocalObject")) == Fails;
    assert Trace(scope, Ident("someLocalObject"), {"x"}) == Normal(false);
    assert !Originates(scope, Ident("x"));
  }

  /** Two statements are rewritten one after the other, the scope flowing from the first to the second. */
  lemma TwoStatements(scope: Scope, plugin: string, a: Stmt, b: Stmt)
    ensures TransformStmts(scope, plugin, [a, b]).0
            == TransformStmt(scope, plugin, a).0 + TransformStmt(TransformStmt(scope, plugin, a).1, plugin, b).0
  {
    assert [a, b][1..] == [b];
    assert [b][1..] == [];
  }

  /** A two-statement program whose statements each stay one statement. */
  lemma ProgramOfTwo(scope: Scope, plugin: string, a: Stmt, b: Stmt, a': Stmt, b': Stmt, scope1: Scope)
    requires TransformStmt(scope, plugin, a) == ([a'], scope1)
    requires TransformStmt(scope1, plugin, b).0 == [b']
    ensures TransformProgram(scope, plugin, [a, b]) == [ExportStatement, a', b']
  {
    ProgramPrependsExport(scope, plugin, [a, b]);
    TwoStatements(scope, plugin, a, b);
  }

  lemma InjectCssNotPure()
    ensures "injectCSS" !in PureMethods
  {
  }

  function BundledRequire(): Expr { Call(Ident("require"), [StrLit("bdapi")]) }

  function BundledScope(): Scope { map["bdapi" := Binding(DeclaredBy(0, Some(BundledRequire())), true)] }

  function BundledScopeAfter(): Scope { map["bdapi" := Binding(DeclaredBy(0, Some(Ident("BdApi"))), true)] }

  function BundledUse(): Stmt { ExprStmt(Call(Member(Ident("bdapi"), Ident("injectCSS"), false), [Ident("css")])) }

  lemma BundledRequireRewritten()
    ensures TransformExpr(BundledScope(), "Example", BundledRequire()) == Ident("BdApi")
    ensures Retarget(BundledScope(), 0, Some(Ident("BdApi"))) == BundledScopeAfter()
  {
    assert RequireReplacement(BundledScope(), Ident("require"), [StrLit("bdapi")]) == Some(Ident("BdApi"));
  }

  lemma BundledDeclaration()
    ensures TransformStmt(BundledScope(), "Example", VarDecl([Declarator(0, PIdent("bdapi"), Some(BundledRequire()))]))
            == ([VarDecl([Declarator(0, PIdent("bdapi"), Some(Ident("BdApi")))])], BundledScopeAfter())
  {
    var scope := BundledScope();
    BundledRequireRewritten();
    assert Slots(PIdent("bdapi")) == {};
    assert scope - (Slots(PIdent("bdapi")) * Dead(scope)) == scope;
    var d := Declarator(0, PIdent("bdapi"), Some(BundledRequire()));
    var d' := Declarator(0, PIdent("bdapi"), Some(Ident("BdApi")));
    assert TransformDeclarator(scope, "Example", d) == (d', BundledScopeAfter());
  }

  lemma BundledCall()
    ensures TransformStmt(BundledScopeAfter(), "Example", BundledUse())
            == ([ExprStmt(Call(BindCall(Member(Ident("bdapi"), Ident("injectCSS"), false), "Example"), [Ident("css")]))],
                BundledScopeAfter())
  {
    var scope := BundledScopeAfter();
    var call := BundledUse().expr;
    assert LastMember(Root(call).callee) == Ident("injectCSS");
    InjectCssNotPure();
    assert !RemovesStatement(scope, call);
    BundledUseRewritten();
  }

  lemma BundledUseRewritten()
    ensures TransformExpr(BundledScopeAfter(), "Example", BundledUse().expr)
            == Call(BindCall(Member(Ident("bdapi"), Ident("injectCSS"), false), "Example"), [Ident("css")])
  {
    var scope := BundledScopeAfter();
    BundledMemberBound();
    assert RequireReplacement(scope, Member(Ident("bdapi"), Ident("injectCSS"), false), [Ident("css")]) == None;
    assert TransformExprs(scope, "Example", [Ident("css")]) == [Ident("css")];
  }

  lemma BundledMemberBound()
    ensures TransformExpr(BundledScopeAfter(), "Example", Member(Ident("bdapi"), Ident("injectCSS"), false))
            == BindCall(Member(Ident("bdapi"), Ident("injectCSS"), false), "Example")
  {
    var scope := BundledScopeAfter();
    assert StepOf(scope, Ident("bdapi")) == Via(Ident("BdApi"), Some("bdapi"));
    assert ReachesIn(scope, Ident("bdapi"), 1);
    assert BindReplacement(scope, "Example", Ident("bdapi"), Ident("injectCSS"), false).Some?;
  }

  /** The shape the bundler emits for `import { injectCSS } from 'bdapi'`:
        var bdapi = require('bdapi'); bdapi.injectCSS(css);
      becomes
        module.exports = () => exports; var bdapi = BdApi;
        bdapi.injectCSS.bind(null, "Example")(css);
      The require is rewritten first, and the later trace of `bdapi` sees it. */
  lemma BundledImportScenario()
    ensures TransformProgram(BundledScope(), "Example",
                             [VarDecl([Declarator(0, PIdent("bdapi"), Some(BundledRequire()))]), BundledUse()])
            == [ExportStatement,
                VarDecl([Declarator(0, PIdent("bdapi"), Some(Ident("BdApi")))]),
                ExprStmt(Call(BindCall(Member(Ident("bdapi"), Ident("injectCSS"), false), "Example"), [Ident("css")]))]
  {
    var decl := VarDecl([Declarator(0, PIdent("bdapi"), Some(BundledRequire()))]);
    var decl' := VarDecl([Declarator(0, PIdent("bdapi"), Some(Ident("BdApi")))]);
    var use' := ExprStmt(Call(BindCall(Member(Ident("bdapi"), Ident("injectCSS"), false), "Example"), [Ident("css")]));
    BundledDeclaration();
    BundledCall();
    ProgramOfTwo(BundledScope(), "Example", decl, BundledUse(), decl', use', BundledScopeAfter());
  }

  function DestructuredScope(): Scope {
    map["injectCSS" := Binding(DeclaredBy(0, Some(BundledRequire())), true),
        "other" := Binding(DeclaredBy(0, Some(BundledRequire())), false)]
  }

  function DestructuredScopeAfter(): Scope {
    map["injectCSS" := Binding(DeclaredBy(0, Some(Ident("BdApi"))), true)]
  }

  function DestructuredTarget(): Pattern {
    PObject([Prop("injectCSS", PIdent("injectCSS")), Prop("other", PIdent("other"))])
  }

  function DestructuredUse(): Stmt { ExprStmt(Call(Ident("injectCSS"), [StrLit("id"), StrLit("css")])) }

  lemma DestructuredPrune()
    ensures PrunePattern(DestructuredScope(), DestructuredTarget())
            == (PObject([Prop("injectCSS", PIdent("injectCSS"))]), DestructuredScope() - {"other"})
    ensures DestructuredScope() - (Slots(DestructuredTarget()) * Dead(DestructuredScope()))
            == DestructuredScope() - {"other"}
  {
    var scope := DestructuredScope();
    var a, b := Prop("injectCSS", PIdent("injectCSS")), Prop("other", PIdent("other"));
    var s1 := scope - {"other"};
    assert PruneProp(scope, a) == ([a], scope);
    assert PruneProp(scope, b) == ([], s1);
    assert PruneProps(s1, []) == ([], s1);
    PrunePropsCons(scope, b, []);
    assert [b] == [b] + [];
    assert |PruneProps(scope, [b]).0| == 0;
    PrunePropsCons(scope, a, [b]);
    assert [a, b] == [a] + [b] && [a] + [] == [a];
    assert PruneProps(scope, [a, b]) == ([a], s1);
    assert Dead(scope) == {"other"};
    PropsCons(b, []);
    PropsCons(a, [b]);
    assert Slots(DestructuredTarget()) == {"injectCSS", "other"};
  }

  lemma DestructuredRequire()
    ensures TransformExpr(DestructuredScope() - {"other"}, "Example", BundledRequire()) == Ident("BdApi")
    ensures Retarget(DestructuredScope() - {"other"}, 0, Some(Ident("BdApi"))) == DestructuredScopeAfter()
  {
    var scope1 := DestructuredScope() - {"other"};
    assert RequireReplacement(scope1, Ident("require"), [StrLit("bdapi")]) == Some(Ident("BdApi"));
  }

  lemma DestructuredDeclaration()
    ensures TransformStmt(DestructuredScope(), "Example", VarDecl([Declarator(0, DestructuredTarget(), Some(BundledRequire()))]))
            == ([VarDecl([Declarator(0, PObject([Prop("injectCSS", PIdent("injectCSS"))]), Some(Ident("BdApi")))])],
                DestructuredScopeAfter())
  {
    var scope := DestructuredScope();
    DestructuredPrune();
    DestructuredRequire();
    var d := Declarator(0, DestructuredTarget(), Some(BundledRequire()));
    var d' := Declarator(0, PObject([Prop("injectCSS", PIdent("injectCSS"))]), Some(Ident("BdApi")));
    assert TransformDeclarator(scope, "Example", d) == (d', DestructuredScopeAfter());
  }

  lemma DestructuredUseKept()
    ensures !RemovesStatement(DestructuredScopeAfter(), DestructuredUse().expr)
  {
    InjectCssNotPure();
  }

  lemma DestructuredUseUnchanged()
    ensures TransformExpr(DestructuredScopeAfter(), "Example", DestructuredUse().expr) == DestructuredUse().expr
  {
    var scope := DestructuredScopeAfter();
    var e := DestructuredUse().expr;
    assert RequireReplacement(scope, e.callee, e.args).None?;
    assert TransformExprs(scope, "Example", e.args) == e.args;
  }

  lemma DestructuredCall()
    ensures TransformStmt(DestructuredScopeAfter(), "Example", DestructuredUse())
            == ([DestructuredUse()], DestructuredScopeAfter())
  {
    DestructuredUseKept();
    DestructuredUseUnchanged();
  }

  /** `const { injectCSS, other } = require('bdapi'); injectCSS('id', 'css');`: the
      unreferenced `other` is pruned and the require rewritten, but the destructured
      `injectCSS` is called as is, since only member accesses get bound. */
  lemma DestructuredImportScenario()
    ensures TransformProgram(DestructuredScope(), "Example",
                             [VarDecl([Declarator(0, DestructuredTarget(), Some(BundledRequire()))]), DestructuredUse()])
            == [ExportStatement,
                VarDecl([Declarator(0, PObject([Prop("injectCSS", PIdent("injectCSS"))]), Some(Ident("BdApi")))]),
                DestructuredUse()]
  {
    var decl := VarDecl([Declarator(0, DestructuredTarget(), Some(BundledRequire()))]);
    var decl' := VarDecl([Declarator(0, PObject([Prop("injectCSS", PIdent("injectCSS"))]), Some(Ident("BdApi")))]);
    DestructuredDeclaration();
    DestructuredCall();
    ProgramOfTwo(DestructuredScope(), "Example", decl, DestructuredUse(), decl', DestructuredUse(), DestructuredScopeAfter());
  }
}
