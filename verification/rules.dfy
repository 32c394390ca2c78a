/** The configuration tables and the guards of the rewrite rules of
    `tranformBdPlugin` (index.ts:75-82, 115-215). */
module Rules {
  import opened Base
  import opened Ast
  import opened Origin

  /** BdApi methods that take the plugin name as their first argument. */
  const BindMethods: set<string> := {
    "injectCSS", "clearCSS", "loadData", "getData", "saveData",
    "setData", "deleteData", "before", "instead", "after"
  }

  /** BdApi methods whose call may be dropped when its value is unused. */
  const PureMethods: set<string> := {
    "findModule", "findAllModules", "findModuleByProps", "findModuleByPrototypes",
    "findModuleByDisplayName", "getInternalInstance", "suppressErrors", "testJSON",
    "isSettingEnabled", "getBDData", "isEnabled", "get", "getAll", "getData",
    "getPatchesByCaller", "combine", "byDisplayName", "byStrings", "byRegex",
    "byPrototypeFields", "byProps", "getModule", "getBulk", "waitForModule"
  }

  const LoaderName := "require"

  /** Module specifiers the bundler leaves external, and the `BdApi` expression
      each is replaced with. */
  const ModuleReplacements: map<string, Expr> := map[
    "react" := PropertyChain([GlobalName, "React"]),
    "react-dom" := PropertyChain([GlobalName, "ReactDOM"]),
    "bdapi" := Ident(GlobalName),
    "bdapi/patcher" := PropertyChain([GlobalName, "Patcher"]),
    "bdapi/webpack" := PropertyChain([GlobalName, "Webpack"]),
    "bdapi/webpack/filters" := PropertyChain([GlobalName, "Webpack", "Filters"])
  ]

  /** Every replacement is a plain `BdApi` member chain. */
  lemma {:induction false} ReplacementsRootedAtGlobal()
    ensures forall k :: k in ModuleReplacements ==> Root(ModuleReplacements[k]) == Ident(GlobalName)
  {
    RootOfPropertyChain([GlobalName, "React"]);
    RootOfPropertyChain([GlobalName, "ReactDOM"]);
    RootOfPropertyChain([GlobalName, "Patcher"]);
    RootOfPropertyChain([GlobalName, "Webpack"]);
    RootOfPropertyChain([GlobalName, "Webpack", "Filters"]);
  }

  lemma FiltersReplacement()
    ensures ModuleReplacements["bdapi/webpack/filters"]
            == Member(Member(Ident("BdApi"), Ident("Webpack"), false), Ident("Filters"), false)
  {
    var names := [GlobalName, "Webpack", "Filters"];
    assert names[..2] == [GlobalName, "Webpack"];
    assert [GlobalName, "Webpack"][..1] == [GlobalName];
    assert PropertyChain([GlobalName]) == Ident("BdApi");
    assert PropertyChain([GlobalName, "Webpack"]) == Member(Ident("BdApi"), Ident("Webpack"), false);
    assert PropertyChain(names) == Member(Member(Ident("BdApi"), Ident("Webpack"), false), Ident("Filters"), false);
    assert ModuleReplacements["bdapi/webpack/filters"] == PropertyChain(names);
  }

  /** `getData` both gets bound and may be elided; the other bind-only names are never elided. */
  lemma MethodSetsOverlapOnlyInGetData()
    ensures BindMethods * PureMethods == {"getData"}
  {
    assert "getData" in BindMethods * PureMethods;
    forall x | x in BindMethods * PureMethods ensures x == "getData" { }
  }

  // ---- Rule 1: statement-only calls to pure BdApi methods (index.ts:169-181) ----

  /** The node naming the called method: the property of a member callee, or the callee. */
  function LastMember(callee: Expr): Expr {
    if callee.Member? then callee.prop else callee
  }

  /** Is the expression statement `expr;` removed? Its root must be a call, the
      callee's last member a pure method name, and the callee must trace to BdApi. */
  function RemovesStatement(scope: Scope, expr: Expr): (r: bool)
    ensures r <==> Root(expr).Call?
                   && LastMember(Root(expr).callee).Ident? && LastMember(Root(expr).callee).name in PureMethods
                   && exists n: nat :: ReachesIn(scope, Root(expr).callee, n)
  {
    var root := Root(expr);
    if !root.Call? then false
    else
      var traced := Originates(scope, root.callee);
      var named := LastMember(root.callee).Ident? && LastMember(root.callee).name in PureMethods;
      assert (named && traced) <==> (Root(expr).Call?
                   && LastMember(Root(expr).callee).Ident? && LastMember(Root(expr).callee).name in PureMethods
                   && exists n: nat :: ReachesIn(scope, Root(expr).callee, n));
      named && traced
  }

  /** A statement calling a bind-only method (`injectCSS`, `saveData`, ...) is kept. */
  lemma BindOnlyCallsKept(scope: Scope, expr: Expr)
    requires Root(expr).Call? && LastMember(Root(expr).callee).Ident?
    requires LastMember(Root(expr).callee).name in BindMethods - PureMethods
    ensures !RemovesStatement(scope, expr)
  {
  }

  /** `BdApi.<...>.m(args);` with `m` pure and `BdApi` unshadowed is removed. */
  lemma PureGlobalCallRemoved(scope: Scope, names: seq<string>, m: string, args: seq<Expr>)
    requires |names| > 0 && names[0] == GlobalName && GlobalName !in scope && m in PureMethods
    ensures RemovesStatement(scope, Call(Member(PropertyChain(names), Ident(m), false), args))
  {
    RootOfPropertyChain(names);
    assert Root(Member(PropertyChain(names), Ident(m), false)) == Ident(GlobalName);
    assert ReachesIn(scope, Member(PropertyChain(names), Ident(m), false), 0);
  }

  /** With `BdApi` bound by a parameter, `BdApi.<...>.m(args);` stays whatever `m` is. */
  lemma ShadowedGlobalCallKept(scope: Scope, names: seq<string>, m: string, args: seq<Expr>)
    requires |names| > 0 && names[0] == GlobalName
    requires GlobalName in scope && !scope[GlobalName].kind.DeclaredBy?
    ensures !RemovesStatement(scope, Call(Member(PropertyChain(names), Ident(m), false), args))
  {
    RootOfPropertyChain(names);
    ShadowedGlobalNeverOriginates(scope, Member(PropertyChain(names), Ident(m), false));
  }

  // ---- Rule 3: `require('<known>')` becomes a static BdApi chain (index.ts:189-200) ----

  /** The properties every plain object inherits from `Object.prototype`. The table is such
      an object, so the `in` test of the rule accepts these names too. */
  const InheritedNames: set<string> := {
    "constructor", "__proto__", "hasOwnProperty", "isPrototypeOf", "propertyIsEnumerable",
    "toString", "toLocaleString", "valueOf",
    "__defineGetter__", "__defineSetter__", "__lookupGetter__", "__lookupSetter__"
  }

  /** The rule as written. The first argument is read by destructuring, so `require()` with
      no argument calls `.isStringLiteral()` on `undefined` and throws. A specifier naming an
      inherited property passes the `in` test, and the function or prototype object it reads
      is handed to `replaceWith`, whose node validation throws a `TypeError`. */
  function RequireRuleAsWritten(scope: Scope, callee: Expr, args: seq<Expr>): Completion<Option<Expr>> {
    if !callee.Ident? || callee.name != LoaderName || LoaderName in scope then Normal(None)
    else if |args| == 0 then TypeError
    else if !args[0].StrLit? then Normal(None)
    else if args[0].value in ModuleReplacements then Normal(Some(ModuleReplacements[args[0].value]))
    else if args[0].value in InheritedNames then TypeError
    else Normal(None)
  }

  /** The rule used by the pass: as written, except that an argument-less `require()` and a
      specifier naming an inherited property are left alone. */
  function RequireReplacement(scope: Scope, callee: Expr, args: seq<Expr>): (r: Option<Expr>)
    ensures r.Some? <==> callee == Ident(LoaderName) && LoaderName !in scope
                         && |args| > 0 && args[0].StrLit? && args[0].value in ModuleReplacements
    ensures r.Some? ==> r.value == ModuleReplacements[args[0].value] && Root(r.value) == Ident(GlobalName)
    ensures r.Some? && GlobalName !in scope ==> Originates(scope, r.value)
    ensures RequireRuleAsWritten(scope, callee, args).Normal? ==> RequireRuleAsWritten(scope, callee, args).value == r
  {
    var outcome := RequireRuleAsWritten(scope, callee, args);
    if outcome.Normal? && outcome.value.Some? then
      ReplacementsRootedAtGlobal();
      assert Root(outcome.value.value) == Ident(GlobalName);
      assert GlobalName !in scope ==> ReachesIn(scope, outcome.value.value, 0);
      outcome.value
    else None
  }

  /** `require()` with no argument makes the as-written rule throw. */
  lemma ArgumentlessRequireThrows(scope: Scope)
    requires LoaderName !in scope
    ensures RequireRuleAsWritten(scope, Ident(LoaderName), []) == TypeError
    ensures RequireReplacement(scope, Ident(LoaderName), []) == None
  {
  }

  /** The table's own keys and the inherited names are apart, so a module that is really
      replaced never reaches the throwing branch. */
  lemma TableKeysNotInherited()
    ensures forall k :: k in ModuleReplacements ==> k !in InheritedNames
  {
  }

  /** `require('toString')` with `require` unbound makes the as-written rule throw; the
      corrected rule only consults the table's own keys and leaves the call alone. */
  lemma InheritedNameRequireThrows(scope: Scope, name: string)
    requires LoaderName !in scope && name in InheritedNames
    ensures RequireRuleAsWritten(scope, Ident(LoaderName), [StrLit(name)]) == TypeError
    ensures RequireReplacement(scope, Ident(LoaderName), [StrLit(name)]) == None
  {
    TableKeysNotInherited();
  }

  /** The as-written rule throws exactly on a missing argument or an inherited name. */
  lemma RequireThrowsExactly(scope: Scope, callee: Expr, args: seq<Expr>)
    ensures RequireRuleAsWritten(scope, callee, args) == TypeError <==>
              callee == Ident(LoaderName) && LoaderName !in scope &&
              (|args| == 0 || (args[0].StrLit? && args[0].value in InheritedNames))
  {
    TableKeysNotInherited();
  }

  // ---- Rule 4: `<bdapi-derived>.<bindable>` gets bound to the plugin name (index.ts:201-215) ----

  /** `m.bind(null, "<plugin>")`. */
  function BindCall(m: Expr, plugin: string): Expr {
    Call(Member(m, Ident("bind"), false), [NullLit, StrLit(plugin)])
  }

  /** The member rule; the `computed` flag is not consulted. */
  function BindReplacement(scope: Scope, plugin: string, obj: Expr, prop: Expr, computed: bool): (r: Option<Expr>)
    ensures r.Some? <==> prop.Ident? && prop.name in BindMethods && Originates(scope, obj)
    ensures r.Some? ==> exists n: nat :: ReachesIn(scope, obj, n)
    ensures r.Some? ==> r.value.Call? && r.value.args == [NullLit, StrLit(plugin)]
                        && r.value.callee == Member(Member(obj, prop, computed), Ident("bind"), false)
  {
    if prop.Ident? && prop.name in BindMethods && Originates(scope, obj) then
      Some(BindCall(Member(obj, prop, computed), plugin))
    else None
  }

  /** `BdApi[x]` is treated like `BdApi.x`: the computed flag never changes the decision. */
  lemma ComputedFlagIgnored(scope: Scope, plugin: string, obj: Expr, prop: Expr)
    ensures BindReplacement(scope, plugin, obj, prop, true).Some?
            == BindReplacement(scope, plugin, obj, prop, false).Some?
  {
  }
}
