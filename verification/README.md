# BetterDiscord plugins: build transform and link-preview plugin, modelled in Dafny

This project models two parts of the BetterDiscordPlugins repository.

The first is the build-time rewrite that turns a bundled plugin into a BetterDiscord
plugin file (`index.ts`). That rewrite has several pieces:

- a reference tracer that decides whether an expression "originates from `BdApi`";
- the five traversal rules of `tranformBdPlugin`:
  - removal of pure calls made as statements;
  - pruning of unreferenced destructured names;
  - replacement of `require('react' | 'bdapi' | …)` by the `BdApi` global;
  - binding of stateful `BdApi` methods to the plugin name;
  - the prepended `module.exports = () => exports`;
- the meta comment that heads the output (`createMeta`);
- the runtime helper `BindObject` (`lib/utils.ts`).

The second is the runtime logic of the PreviewMessageLinks and LargerFileUploads plugins:

- the per-message cache and its listeners (`MessageCache.ts`);
- the dispatcher handlers that keep cached messages current (`subscriptions.ts`);
- the fetch classification, the initial-cache choice and the settings defaults (`hooks.ts`);
- the decisions the components make (`components.tsx`):
  - hiding link parts;
  - one embed per message link;
  - the embed's render ladder;
  - the depth slider;
- the context-menu patch and the message-store fallback (`PreviewMessageLinks/index.tsx`);
- the upload-size overrides (`LargerFileUploads/index.tsx`).

Modules follow the source structure:

- `Base`: Option and a completion that may end in a thrown `TypeError`.
- `Ast`: the syntax tree, `propertyChain` and `getRootObject`.
- `Origin`: the tracer, with an independent reference relation `ReachesIn`.
- `Rules`: the method sets, the module table and the per-node rules.
- `Prune`: the destructuring rule.
- `Transform` and `TransformProperties`: the traversal and its properties.
- `Meta`.
- `BindObject`.
- `MessageCache`.
- `Subscriptions`.
- `Hooks`.
- `Components`.
- `ContextMenu`.
- `LargerUploads`.

A few modelling choices apply throughout:

- Babel's traversal is modelled in its visiting order. A replaced node that is skipped is not revisited. A removed node is not descended into. A declarator's rewritten initialiser is what later tracing sees.
- The scope is a flat map from names to bindings. Each binding records its `referenced` flag as it was when the scope was crawled.
- Host services become parameters:
  - record creation and update (`HostOps`);
  - localised strings (`Locale`);
  - the channel store;
  - the link regular expression (an abstract `LinkMatcher`).

In these places the model follows the code as written:

- The export statement is prepended on every pass, even when one is already there (`TransformProperties.SecondPassDuplicatesExport`).
- The meta comment is emitted even for empty metadata (`Meta.EmptyMetaKeepsDelimiters`).
- A destructured `const { injectCSS } = require('bdapi')` is not bound to the plugin name. The rewritten call `injectCSS(...)` has no member access, so no rule matches it (`TransformProperties.DestructuredImportScenario`).
- Removing a destructured name also removes its binding. A later removable position naming the same identifier then finds no binding and is kept (`Prune.RepeatedSlotKeptOnce`).
- The bind rule ignores the `computed` flag of the member access (`Rules.ComputedFlagIgnored`).
- `useSetting` falls back to the default on a nullish value only; a stored `false` or `0` is kept (`Hooks.StoredFalseKept`).

## Model

| member | source | states |
|---|---|---|
| Ast.PropertyChain | index.ts:71-73 | one name gives that identifier; more names give a non-computed member access whose property is the last name |
| Ast.Root | index.ts:84-87 | the root is never a member access, is no larger than the expression, and is the expression itself when that is not a member access |
| Ast.RootOfPropertyChain | index.ts:71-87 | the root of `a.b.c` is the identifier `a` |
| Origin.StepOf | index.ts:91-111 | one tracer step ends in success exactly when the root is the identifier `BdApi` and `BdApi` has no binding; interop unwrapping strictly shrinks the expression |
| Origin.Originates | index.ts:89-113 | the tracer's verdict holds exactly when the reference relation reaches an unbound `BdApi` in some number of steps, and agrees with the as-written loop whenever that loop returns |
| Origin.ReachesUnique | index.ts:89-113 | the reference relation is deterministic: the step count to `BdApi` is unique |
| Origin.Complete | index.ts:89-113 | if the relation reaches `BdApi` without revisiting an alias, the tracer loop returns true |
| Origin.Sound | index.ts:89-113 | if the tracer loop returns true, the relation reaches `BdApi` |
| Origin.OriginatesIffReaches | index.ts:89-113 | the loop returns true if and only if `BdApi` is reachable |
| Origin.Trace | index.ts:89-113 | the tracer loop, which follows aliases and stops at one it has seen; `Origin.Complete` and `Origin.Sound` state that it returns true exactly when `BdApi` is reachable |
| Origin.UnshadowedChainOriginates | index.ts:103-104 | every chain `BdApi.x.y` originates when `BdApi` is unbound |
| Origin.ShadowedGlobalNeverOriginates | index.ts:104-108 | a `BdApi` bound by a parameter or other non-declarator never originates |
| Origin.OtherCallRootFails | index.ts:92-97 | a call root whose callee is not the interop helper fails |
| Origin.NonIdentifierRootFails | index.ts:103 | a root that is neither a call nor an identifier fails |
| Origin.UntraceableIdentifierFails | index.ts:105-110 | an identifier without a declarator binding with an initialiser fails, unless it is the unbound global |
| Origin.InteropUnwraps | index.ts:92-101 | `_interopDefaultLegacy(x).p` originates exactly when `x` does |
| Origin.AliasFollowsInit | index.ts:105-111 | a declarator-bound alias originates exactly when its initialiser does |
| Origin.StepsThroughVia | index.ts:89-113 | each intermediate step preserves the verdict |
| Origin.ArgumentlessInteropThrows | index.ts:98-99 | the as-written tracer throws on `_interopDefaultLegacy().getModule`; the corrected one answers false |
| Rules.ReplacementsRootedAtGlobal | index.ts:75-82 | every module replacement is rooted at the `BdApi` identifier |
| Rules.FiltersReplacement | index.ts:81 | `bdapi/webpack/filters` maps to `BdApi.Webpack.Filters` |
| Rules.MethodSetsOverlapOnlyInGetData | index.ts:116-154 | `getData` is the only method both bound and pure |
| Rules.RemovesStatement | index.ts:169-181 | a statement is removed exactly when its root is a call whose callee's last member is an identifier naming a pure method and whose callee reaches an unbound `BdApi` |
| Rules.BindOnlyCallsKept | index.ts:172-178 | calls to bind-only methods are never removed |
| Rules.PureGlobalCallRemoved | index.ts:169-181 | `BdApi.….m(args)` with `m` pure and `BdApi` unbound is removed |
| Rules.ShadowedGlobalCallKept | index.ts:179 | the same call is kept when `BdApi` is locally bound by a non-declarator |
| Rules.RequireReplacement | index.ts:189-200 | a `require` call is replaced exactly when `require` is unbound and the first argument is a string naming a table entry; the replacement is that entry and is rooted at `BdApi`, it originates from `BdApi` whenever `BdApi` is unbound, and it agrees with the as-written rule when that does not throw |
| Rules.TableKeysNotInherited | index.ts:75-82 | no key of the module table is a name every object inherits |
| Rules.InheritedNameRequireThrows | index.ts:197-198 | `require('toString')` and the other inherited names pass the as-written `in` test and then throw; the corrected rule leaves them alone |
| Rules.RequireThrowsExactly | index.ts:189-200 | the as-written rule throws exactly on an unbound `require` called without arguments or with an inherited name |
| Rules.RequireRuleAsWritten | index.ts:189-200 | the `require` rule as written; `Rules.RequireThrowsExactly` states when it throws and `Rules.RequireReplacement` that it otherwise agrees with the corrected rule |
| Rules.ArgumentlessRequireThrows | index.ts:195-196 | the as-written rule throws on `require()`; the corrected one leaves it alone |
| Rules.BindReplacement | index.ts:201-215 | a member access is rewritten exactly when its property is an identifier naming a bind method and its object originates from `BdApi`; the result is a call with arguments `null` and the plugin name |
| Rules.ComputedFlagIgnored | index.ts:203-205 | the computed flag never changes the decision: `BdApi[injectCSS]` is bound like `BdApi.injectCSS` |
| Prune.PrunePattern | index.ts:156-188 | the destructuring visit: object properties and rest elements in source order, an unreferenced identifier there removed together with its binding; `Prune.PruneScope`, `Prune.PruneUnchanged` and `Prune.PruneNames` state what it returns |
| Prune.PruneScope | index.ts:156-162 | exactly the unreferenced names in removable positions leave the scope, however often each occurs |
| Prune.PruneScopeProps | index.ts:156-162 | the same for the entries of an object pattern, each seeing the scope the ones before it leave |
| Prune.PruneScopeElems | index.ts:156-162 | the same for the elements of an array pattern |
| Prune.PruneUnchanged | index.ts:156-188 | a target and the scope come back unchanged exactly when no removable position holds an unreferenced name; otherwise the target shrinks |
| Prune.PruneUnchangedProps | index.ts:156-188 | the same for the entries of an object pattern |
| Prune.PruneUnchangedElems | index.ts:156-188 | the same for the elements of an array pattern |
| Prune.PruneNames | index.ts:156-188 | every name outside the removable positions is kept; a name left in a removable position was there before; when no name sits in two removable positions, exactly the unreferenced ones are removed from them |
| Prune.PruneNamesProps | index.ts:156-188 | the same for the entries of an object pattern |
| Prune.PruneNamesElems | index.ts:156-188 | the same for the elements of an array pattern |
| Prune.NothingDeadNothingPruned | index.ts:156-162 | when every binding is referenced, pruning leaves a target and the scope as they are |
| Prune.KeepsReferencedSibling | index.ts:182-188 | `const {a, b, c} = x` with only `b` referenced becomes `const {b} = x`, and `a` and `c` leave the scope |
| Prune.RepeatedSlotKeptOnce | index.ts:156-162 | `const {a, b: a} = x` with `a` unreferenced becomes `const {b: a} = x`: the first removal takes the binding away, so the guard spares the second position |
| Transform.TransformExpr | index.ts:189-215 | where a rule fires at the root the result is that rule's replacement; an assignment to a member access still assigns to a member access; a function expression keeps its kind and holds its body's statements as the statement pass rewrites them |
| Transform.TransformTarget | index.ts:201-215 | a member access stays a member access with the same computed flag; where the member rule does not fire on the target itself, the target is rewritten as any other expression would be |
| Transform.AssignAsWritten | index.ts:201-214 | the as-written pass throws on an assignment exactly when the member rule fires on its target; otherwise it agrees with the corrected pass |
| Transform.TransformExprs | index.ts:189-215 | each expression of a list is rewritten on its own, in place |
| Transform.UnchangedIffInert | index.ts:189-215 | an expression comes back unchanged exactly when no node of it is one the member or `require` rule rewrites and no statement of a function body in it is removed or pruned |
| Transform.TargetUnchangedIffInert | index.ts:201-215 | an assignment target comes back unchanged exactly when no rule fires inside its object or property, or inside it when it is not a member access |
| Transform.AllUnchangedIffInert | index.ts:189-215 | a list of expressions comes back unchanged exactly when no rule fires in any of them |
| Transform.StmtsUnchangedIffInert | index.ts:164-215 | a statement list comes back unchanged exactly when no statement is removed, no declarator target is pruned and no rule fires in an expression, each judged under the scope the untouched statements before it leave; the scope passed on is then that scope |
| Transform.StmtUnchangedIffInert | index.ts:164-215 | a statement comes back as itself exactly when the pure-call rule spares it and nothing inside it changes; the scope passed on is then the one an untouched statement leaves |
| Transform.DeclsUnchangedIffInert | index.ts:182-215 | the declarators of a declaration come back unchanged exactly when none is pruned or rewritten; the scope passed on then points each declarator's bindings at its own initialiser |
| Transform.DeclUnchangedIffInert | index.ts:182-188 | a declarator comes back unchanged exactly when no removable position of its target holds an unreferenced name and its initialiser is inert |
| Transform.TransformDeclarators | index.ts:182-188 | no declarators give nothing and leave the scope as it is; one declarator gives exactly its own rewrite and the scope it leaves; every declarator keeps its identity, position and whether it has an initialiser |
| Transform.TransformDeclaratorsAppend | index.ts:182-188 | the declarators of a declaration are rewritten left to right, each seeing the scope the ones before it leave; with the empty and one-element cases this determines the whole list |
| Transform.TransformDeclarator | index.ts:182-215 | the target is the pruned target; the initialiser is rewritten under the scope the pruning leaves; the scope loses exactly the pruned names, every `referenced` flag is kept, the bindings the declarator makes point at the rewritten initialiser and every other binding stays as it was |
| Transform.Retarget | index.ts:182-215 | the bindings of one declarator are pointed at its rewritten initialiser; no name is added or dropped, no `referenced` flag changes and every other binding stays as it was |
| Transform.TransformStmt | index.ts:168-215 | a statement disappears exactly when it is an expression statement the pure-call rule removes; a kept expression statement holds its rewritten expression and leaves the scope alone; a declaration becomes its rewritten declarators under the scope they leave; a block becomes its rewritten body; any other statement keeps its kind, with its expressions rewritten under the incoming scope and its nested statements under the threaded one |
| Transform.TransformStmts | index.ts:168-229 | the output has the input's length less the removed statements; an empty list gives nothing and leaves the scope as it is; a one-statement list gives exactly that statement's rewrite |
| Transform.TransformStmtsAppend | index.ts:168-229 | a list is rewritten piece by piece, each piece starting from the scope the one before leaves |
| Transform.TransformProgram | index.ts:216-228 | the whole pass over a program; `TransformProperties.ProgramPrependsExport` and `TransformProperties.SecondPassDuplicatesExport` state its output |
| TransformProperties.ProgramPrependsExport | index.ts:216-228 | the output is the export statement followed by the rewritten body |
| TransformProperties.SecondPassDuplicatesExport | index.ts:216-228 | running the pass twice yields two export statements at the top |
| TransformProperties.BoundMemberNotRevisited | index.ts:208-214 | a bound member is skipped, so it is not bound again |
| TransformProperties.ShadowedRequireUntouched | index.ts:194 | a locally bound `require` is never replaced |
| TransformProperties.NothingTracesWhenGlobalBound | index.ts:104-108 | with `BdApi` bound locally, no expression reaches `BdApi`, whatever aliases it follows |
| TransformProperties.RulesIdleWhenShadowed | index.ts:169-215 | with `BdApi` and `require` bound locally, no statement is removed, no `require` call is replaced and no member is bound |
| TransformProperties.ShadowedScopeRewritesNothing | index.ts:164-215 | with `BdApi` and `require` bound locally and every binding referenced, the pass changes no expression, function bodies included |
| TransformProperties.ShadowedScopeRewritesAll | index.ts:164-215 | in such a scope no expression of a list changes |
| TransformProperties.ShadowedScopeKeepsStmts | index.ts:164-215 | in such a scope a statement list comes back unchanged and the scope passed on is again such a scope |
| TransformProperties.ShadowedScopeKeepsStmt | index.ts:164-215 | in such a scope every statement comes back unchanged and the scope passed on is again such a scope |
| TransformProperties.ShadowedScopeKeepsDeclarators | index.ts:182-215 | in such a scope the declarators of a declaration come back unchanged and the scope passed on is again such a scope |
| TransformProperties.ShadowedScopeKeepsDeclarator | index.ts:182-215 | in such a scope a declarator comes back unchanged and the scope passed on is again such a scope |
| TransformProperties.BoundAssignmentTargetThrows | index.ts:201-214 | `BdApi.saveData = f` with `BdApi` unbound throws as written; the corrected pass leaves the assignment as it is |
| TransformProperties.LocalObjectNotBound | index.ts:201-215 | `x.loadData` for a local object `x` is not bound |
| TransformProperties.BundledImportScenario | index.ts:164-229 | `var bdapi = require('bdapi'); bdapi.injectCSS(css)` becomes the export, `var bdapi = BdApi` and the bound call |
| TransformProperties.DestructuredImportScenario | index.ts:182-215 | a destructured import is pruned to its used names and its call is left unbound |
| Meta.JoinEdges | index.ts:66 | the joined text begins with the first line, then a newline when more lines follow, and ends with the last line |
| Meta.SplitJoin | index.ts:66 | splitting a newline-joined list of newline-free lines gives the lines back |
| Meta.CreateMeta | index.ts:61-69 | the output starts with the `/**` line and ends with the code |
| Meta.JoinSnoc | index.ts:66 | appending a line to a non-empty list adds one newline and then the line |
| Meta.SplitAround | index.ts:66 | splitting text at a newline splits the text on either side independently |
| Meta.HeaderLines | index.ts:64-67 | the output's lines are `/**`, one ` * @key value` line per entry in order, ` */`, then the lines of the code, whatever the code holds |
| Meta.EmptyMetaKeepsDelimiters | index.ts:65-66 | with no entries the comment delimiters are still emitted |
| BindObject.Invoke | lib/utils.ts:11 | a value is callable exactly when it is a function or a bound function, and a call passes the bound arguments before the given ones |
| BindObject.Bind | lib/utils.ts:7-13 | the result's keys are the object's keys, intersected with the pick list when one is given; without one the key order is kept |
| BindObject.BindKeepsOrder | lib/utils.ts:9-12 | binding distributes over concatenation, so entry order is preserved |
| BindObject.LookupResult | lib/utils.ts:9-11 | a key of the result holds the object's value with its first argument bound, and a key outside the pick list is absent |
| BindObject.DataCopied | lib/utils.ts:11 | non-function values are copied unchanged |
| BindObject.BoundCallPrependsFirst | lib/utils.ts:11 | calling a bound entry with any receiver equals calling the original with receiver `null` and the first argument prepended |
| BindObject.AbsentPickNameDropped | lib/utils.ts:8-9 | a picked name the object lacks does not appear in the result |
| BindObject.EmptyPickSelectsNothing | lib/utils.ts:8-9 | an empty pick list is a real filter that selects nothing |
| MessageCache.Hash | src/PreviewMessageLinks/MessageCache.ts:20-22 | the key of a pair; `MessageCache.HashInjective` and `MessageCache.HashNeedsNumericIds` state when two pairs share one |
| MessageCache.Has | src/PreviewMessageLinks/MessageCache.ts:24-26 | a pair is cached when its key is; `MessageCache.Get` returns a record exactly when it holds |
| MessageCache.Get | src/PreviewMessageLinks/MessageCache.ts:28-30 | a record is returned exactly when the pair is cached |
| MessageCache.Set | src/PreviewMessageLinks/MessageCache.ts:32-36 | afterwards the pair holds the record and every other key is unchanged; the record is returned; every listener of the pair is notified in order while the previous record is still visible |
| MessageCache.AddListener | src/PreviewMessageLinks/MessageCache.ts:38-40 | the listener is appended to the pair's list, and nothing else changes |
| MessageCache.RemoveLast | src/PreviewMessageLinks/MessageCache.ts:42-44 | an absent listener changes nothing; a present one loses exactly one occurrence |
| MessageCache.RemoveListener | src/PreviewMessageLinks/MessageCache.ts:42-44 | only the pair's listener list changes, by one removal |
| MessageCache.HashInjective | src/PreviewMessageLinks/MessageCache.ts:20-22 | distinct pairs of numeric ids have distinct keys |
| MessageCache.HashNeedsNumericIds | src/PreviewMessageLinks/MessageCache.ts:20-22 | without numeric ids two different pairs share a key |
| MessageCache.SetLeavesOtherPairs | src/PreviewMessageLinks/MessageCache.ts:32-36 | setting one numeric pair leaves every other pair's record alone |
| MessageCache.AddThenRemove | src/PreviewMessageLinks/MessageCache.ts:38-44 | adding then removing a listener restores every listener list |
| MessageCache.RemovedListenerNotNotified | src/PreviewMessageLinks/MessageCache.ts:32-44 | a listener that was added and removed again is not notified |
| Subscriptions.OnCreate | src/PreviewMessageLinks/subscriptions.ts:8-15 | a create writes exactly when the pair is cached, whatever its status, and stores a fresh success |
| Subscriptions.OnUpdate | src/PreviewMessageLinks/subscriptions.ts:17-25 | an update writes exactly when the pair holds a success, and merges into that message |
| Subscriptions.OnDelete | src/PreviewMessageLinks/subscriptions.ts:27-35 | a delete writes exactly when the pair is cached, and stores the deleted-message error |
| Subscriptions.OnReactionAdd | src/PreviewMessageLinks/subscriptions.ts:37-49 | a write happens exactly when the event is not a confirmed echo of the current user and the pair holds a success |
| Subscriptions.OnReactionRemove | src/PreviewMessageLinks/subscriptions.ts:51-62 | the same guard and condition, with the reaction removed |
| Subscriptions.OnReactionRemoveAll | src/PreviewMessageLinks/subscriptions.ts:64-72 | a cached success loses all its reactions and nothing else |
| Subscriptions.OnReactionRemoveEmoji | src/PreviewMessageLinks/subscriptions.ts:74-82 | a write happens exactly when the pair holds a success |
| Subscriptions.Handle | src/PreviewMessageLinks/subscriptions.ts:8-82 | any write goes to the pair the event names, and only to a pair already cached |
| Subscriptions.DispatchFrame | src/PreviewMessageLinks/subscriptions.ts:8-82 | dispatching leaves every other numeric pair's record unchanged and never adds or drops a cached pair |
| Subscriptions.Dispatch | src/PreviewMessageLinks/subscriptions.ts:8-82 | one event through its handler and into the cache; the listeners are never touched, and `Subscriptions.DispatchFrame` states that only the event's own pair can change |
| Subscriptions.RepeatedGuardRedundant | src/PreviewMessageLinks/subscriptions.ts:37-56 | the doubled guard in the add handler decides the same as the single guard in the remove handler |
| Subscriptions.DeleteOverwritesSuccess | src/PreviewMessageLinks/subscriptions.ts:27-35 | a delete replaces even a cached success by the deleted notice |
| Subscriptions.FailureOnlyRefreshedByCreateOrDelete | src/PreviewMessageLinks/subscriptions.ts:17-82 | a cached failure is left alone by every event other than create and delete |
| Hooks.FormatErrorMessage | src/PreviewMessageLinks/hooks.ts:33-35 | the text ends in `": "` and the message; before that comes the name, without its trailing dot when it has one |
| Hooks.StripsOneDot | src/PreviewMessageLinks/hooks.ts:33-35 | only one trailing dot is dropped |
| Hooks.Decimal | src/PreviewMessageLinks/hooks.ts:61 | a status renders as a non-empty digit string without a leading zero |
| Hooks.DecimalRoundTrip | src/PreviewMessageLinks/hooks.ts:61 | reading the rendered digits back gives the status |
| Hooks.FetchMessage | src/PreviewMessageLinks/hooks.ts:37-83 | a success exactly when the answer is ok and its first message has the requested id and a known channel; otherwise a thrown error gives an Error, a not-ok answer gives a Warning with the body message or the status, a missing or different message gives the deleted Error, the right message in an unknown channel gives the not-loaded Warning, and a warning never comes from a thrown error |
| Hooks.ThrownNameKeepsDot | src/PreviewMessageLinks/hooks.ts:50-55 | a thrown error's name keeps its trailing dot |
| Hooks.NotOkReportsStatus | src/PreviewMessageLinks/hooks.ts:57-62 | a not-ok answer without a body message reports `Status <n>` |
| Hooks.InitialCache | src/PreviewMessageLinks/hooks.ts:91-99 | a cached record wins; else a store message is cached as a success; else nothing is shown and a fetch starts; listeners are untouched |
| Hooks.FetchFillsCache | src/PreviewMessageLinks/hooks.ts:91-99 | for a pair in neither the cache nor the store, the resolved fetch stores its outcome under the pair |
| Hooks.FetchResolved | src/PreviewMessageLinks/hooks.ts:98 | the fetch continuation stores the outcome under the pair; `Hooks.FetchFillsCache` states it for a pair that was missing |
| Hooks.UseSetting | src/PreviewMessageLinks/hooks.ts:17-18 | a stored value is used as is; a missing or null one gives the default |
| Hooks.DefaultOnlyWhenMissing | src/PreviewMessageLinks/hooks.ts:11-18 | the default shows exactly when nothing was stored or the stored value equals it |
| Hooks.StoredFalseKept | src/PreviewMessageLinks/hooks.ts:11-18 | stored `false` and `0` survive the fallback |
| Components.StripLinks | src/PreviewMessageLinks/components.tsx:48 | a part survives exactly when it is not a message link |
| Components.StripLinksKeepsOrder | src/PreviewMessageLinks/components.tsx:48 | filtering distributes over concatenation, so order is kept |
| Components.TrimStart | src/PreviewMessageLinks/components.tsx:50 | the result is a suffix; only white space was removed; it does not start with white space |
| Components.TrimEnd | src/PreviewMessageLinks/components.tsx:51 | the result is a prefix; only white space was removed; it does not end with white space |
| Components.TrimEdges | src/PreviewMessageLinks/components.tsx:49-51 | middle parts are unchanged; of two or more parts the first text loses its leading and the last text its trailing white space, elements at the edges are kept; a single text part is trimmed on both sides |
| Components.TrimEdgesAsWritten | src/PreviewMessageLinks/components.tsx:49-51 | the trimming as written keeps the length and the middle parts; of two or more parts the first loses its leading and the last its trailing white space, but a single part only loses its trailing white space |
| Components.TrimEdgesOuterSpace | src/PreviewMessageLinks/components.tsx:49-51 | after trimming, the edge parts keep their kinds and neither edge text has white space at its outer side |
| Components.TrimEdgesAgreeOffSingleText | src/PreviewMessageLinks/components.tsx:49-51 | the as-written and corrected trimming agree except on a single text part |
| Components.SingleTextKeepsLeadingSpace | src/PreviewMessageLinks/components.tsx:49-51 | a link followed by `" ok"` leaves `" ok"` as written, but `"ok"` corrected |
| Components.PatchedContentAsWritten | src/PreviewMessageLinks/components.tsx:41-54 | with the setting off or no content the props pass through; otherwise no link part survives, the middle parts are the filtered ones, the edges are trimmed as in the corrected version, except that a single text part only loses its trailing white space |
| Components.TrimmedEdgesNotLinks | src/PreviewMessageLinks/components.tsx:48-51 | trimming the edges of link-free content leaves it link-free |
| Components.PatchedContent | src/PreviewMessageLinks/components.tsx:41-54 | with the setting off or no content the props pass through; otherwise no link part survives, the middle parts are the filtered ones, the first filtered text loses its leading and the last its trailing white space, and a single filtered text part is trimmed on both sides |
| Components.MessageLinks | src/PreviewMessageLinks/components.tsx:62-65 | a match is listed exactly when some link node's target yields it |
| Components.MessageLinksAppend | src/PreviewMessageLinks/components.tsx:62-65 | the links of concatenated content are those of each piece in order; one node gives its match if it is a matching link and nothing otherwise |
| Components.Embeds | src/PreviewMessageLinks/components.tsx:69-80 | one embed per link in order, with a line break between consecutive embeds |
| Components.Accessories | src/PreviewMessageLinks/components.tsx:56-84 | embeds at depth `(depth ?? 0) + 1` with breaks between them, then the client's accessories |
| Components.BreaksBetweenEmbeds | src/PreviewMessageLinks/components.tsx:78 | n links give n - 1 line breaks |
| Components.MessageEmbed | src/PreviewMessageLinks/components.tsx:242-281 | a placeholder exactly when nothing is cached; a cached failure is shown as is; a cached success too deep gives the maximum-depth Warning; one within the limit in an unknown channel gives the not-loaded Warning; a preview exactly when a cached success is within the depth limit and its channel is known |
| Components.MaxDepthInclusive | src/PreviewMessageLinks/components.tsx:262 | depth equal to the maximum is previewed; one deeper is refused |
| Components.NestedEmbedDepth | src/PreviewMessageLinks/components.tsx:75 | an embed inside a message of depth d has depth d + 1, and a top-level message counts as depth 0 |
| Components.SliderMarkers | src/PreviewMessageLinks/components.tsx:288-289 | the markers are consecutive integers from the minimum |
| Components.MarkersCoverRange | src/PreviewMessageLinks/components.tsx:288-289 | the markers are exactly the range from minimum to maximum, strictly increasing |
| ContextMenu.Visit | src/PreviewMessageLinks/index.tsx:22-28 | every visited node has an action, a node with an action is visited alone, and a child list that cannot be iterated throws a `TypeError` |
| ContextMenu.PatchItem | src/PreviewMessageLinks/index.tsx:32-43 | an item changes exactly when its id is edit, reply or mark-unread; its id and children are kept |
| ContextMenu.PatchTree | src/PreviewMessageLinks/index.tsx:22-45 | ids and the presence of actions are kept; a child list that cannot be iterated throws and is left as it was |
| ContextMenu.PatchAll | src/PreviewMessageLinks/index.tsx:24-27 | on a throw, the siblings after the one that threw are left as they were |
| ContextMenu.PatchContextMenu | src/PreviewMessageLinks/index.tsx:30-45 | outside an embed the menu is returned unchanged; inside one it throws exactly when the traversal does, and a later traversal sees the visited items patched |
| ContextMenu.VisitPatchTree | src/PreviewMessageLinks/index.tsx:22-45 | the patch throws exactly when the traversal does; after patching, a traversal sees the same items in the same order up to the same throw, each patched |
| ContextMenu.LoneChildStopsTraversal | src/PreviewMessageLinks/index.tsx:24 | a sibling whose children cannot be iterated stops the traversal, so a later edit item stays unpatched |
| ContextMenu.PatchItemsAppend | src/PreviewMessageLinks/index.tsx:22-28 | patching a visit sequence distributes over concatenation |
| ContextMenu.Run | src/PreviewMessageLinks/index.tsx:35-43 | running any action ends with the client action and returns its result |
| ContextMenu.WrappedActionJumpsThenDelegates | src/PreviewMessageLinks/index.tsx:35-43 | a wrapped action moves to the guild and channel, jumps to and flashes the message, then runs the original with the same arguments and returns its result |
| ContextMenu.OtherItemsUntouched | src/PreviewMessageLinks/index.tsx:34 | other items keep their action |
| ContextMenu.ActionNodeNotDescended | src/PreviewMessageLinks/index.tsx:23 | the children of a node with an action are not patched |
| ContextMenu.AfterGetMessage | src/PreviewMessageLinks/index.tsx:58-63 | the patch answers with a message exactly when the cache holds a success for the pair, and then with that message |
| ContextMenu.AfterGetMessageIgnoresOriginal | src/PreviewMessageLinks/index.tsx:59 | the client's own answer never matters |
| LargerUploads.SomeFileTooLarge | src/LargerFileUploads/index.tsx:50 | true exactly when some file exceeds 500 MiB |
| LargerUploads.AnyFileTooLarge | src/LargerFileUploads/index.tsx:49-51 | the replacement refuses exactly when some file exceeds 500 MiB |
| LargerUploads.UploadSumTooLarge | src/LargerFileUploads/index.tsx:52-54 | the total size is never too large |
| LargerUploads.LimitInclusive | src/LargerFileUploads/index.tsx:50 | a file of exactly 500 MiB passes; one byte more is refused |
| LargerUploads.OriginalsIgnored | src/LargerFileUploads/index.tsx:47-54 | the client's own checks never influence the answer |
| LargerUploads.FittingFilesIrrelevant | src/LargerFileUploads/index.tsx:50 | adding files that fit never changes the verdict |

## Left out

- Parsing, code generation, prettier, rollup, the command line and the file system around the transform (`index.ts` outside the lines cited above) are not modelled. The transform works on an already parsed tree.
- Nested lexical scopes are flattened into one map. `hasBinding` and `getBinding` look up that map.
- Other syntax is kept only as a node with its children: `Opaque` for expressions that hold no statements, `Func` for function expressions, block-bodied arrows and class bodies, and `Compound` for statements such as `if`, `return` and function declarations. The statements of a `Func` are rewritten under the enclosing scope, and the scope they leave is dropped at its end. Default values in patterns and computed keys are not modelled.
- Transform.TransformTarget: only an assignment whose target is itself a member access is told apart. Member accesses in other assignable positions (destructuring assignments, `for…in` and `for…of` heads, `++` and `--`) sit inside `Opaque` nodes and are bound there like any other member access.
- Transform.AssignAsWritten: the throw is modelled for one assignment. How it aborts the rest of the as-written pass is not modelled.
- Nested statements are lists. Babel replaces a removed statement that is the only body of an `if` or a loop with an empty block; that case is not modelled.
- Origin.Originates: an alias chain that loops back on itself makes the source's tracer loop forever. The model answers false when an alias is revisited.
- Mutation of a traced variable after its declaration is not modelled. The source assumes it does not happen.
- The internals of the client's record operations, the localised strings, the request module and the stores are parameters.
- The message-link regular expression is left abstract as a matcher function.
- React rendering, hooks scheduling, effects and asynchronous timing are not modelled. A fetch is modelled as "started", then "resolved with a response".
- Hooks.InitialCache: the listener registration in `useMessageCache` happens in an effect after the initial value. It is not modelled.
- Settings persistence and the settings emitter (`saveSetting`) are not modelled.
- What BetterDiscord's patcher does with an error thrown inside a patch callback is not part of this model. `ContextMenu.PatchContextMenu` reports the `TypeError` and the menu as the partial traversal left it.
- Meta.HeaderLines: metadata values are taken as already rendered strings. The template rendering of numbers, arrays and objects, and the precision lost by large numeric ids, are not modelled.
- How BetterDiscord's patcher combines an `after` callback's undefined return with the original return value is not part of this model. `ContextMenu.AfterGetMessage` states the callback's own return.
- `Children.count` and `Children.toArray` dropping `null` and boolean children are not modelled. Content is a list of text and element parts.
- The ordering of integer-like keys in `Object.entries` is not modelled. `BindObject.Bind` keeps the given entry order.
- Getters and symbol keys are not modelled for `BindObject`.
- Plugin start and stop wiring is not modelled:
  - subscribing and unsubscribing handlers;
  - CSS injection;
  - `unpatchAll`;
  - the abort controllers;
  - the `console.log` patch on cloud uploads.
- `src/LargerFileUploads/guilded.ts`, the type declarations and the `lib/discord` wiring are not part of this model.
- The components that only lay out host elements are not modelled: the preview header, the hover state of `MessagePreview`, `ErrorMessage` and the settings switches.

## Findings

| source | as written | input that shows it | evidently intended | confidence | as-written member | corrected member |
|---|---|---|---|---|---|---|
| index.ts:98-99 | `const [interopModule] = rootObject.get('arguments')` then `interopModule.isExpression()` | `_interopDefaultLegacy().getModule`: the argument list is empty, so `interopModule` is undefined and the method call throws a `TypeError` | a call without arguments does not originate from `BdApi` | not executed | Origin.ArgumentlessInteropThrows | Origin.Originates |
| index.ts:195-196 | `const [moduleName] = path.get('arguments')` then `moduleName.isStringLiteral()` | `require()` with `require` unbound: `moduleName` is undefined and the method call throws a `TypeError` | an argumentless `require()` is left alone | not executed | Rules.ArgumentlessRequireThrows | Rules.RequireReplacement |
| src/PreviewMessageLinks/components.tsx:49-51 | the first part is trimmed at the start, then the last part is trimmed at the end, both read before either splice | a link followed by the text `" ok"`: one text part remains; the second splice replaces the already trimmed `"ok"` by `" ok".trimEnd()`, i.e. `" ok"` | a single remaining text part is trimmed on both sides | not executed | Components.SingleTextKeepsLeadingSpace | Components.PatchedContent |
| index.ts:201-214 | the member rule visits every `MemberExpression`, the target of an assignment included, and replaces it with a `.bind(...)` call | `BdApi.saveData = f` with `BdApi` unbound: `replaceWith` puts a call where `AssignmentExpression.left` requires an assignable node, and Babel's node validation throws a `TypeError` | an assignment target is left as it is | not executed | TransformProperties.BoundAssignmentTargetThrows | Transform.TransformTarget |
| index.ts:197-198 | `moduleName.node.value in moduleReplacements` on an object literal | `require('toString')` with `require` unbound: the `in` test also accepts names every object inherits, and `replaceWith` then receives a function and throws a `TypeError` | only the table's own keys are replaced | not executed | Rules.InheritedNameRequireThrows | Rules.RequireReplacement |
