/** The context-menu and message-store patches of the link-preview plugin
    (src/PreviewMessageLinks/index.tsx): inside an embedded message, menu items that act on a
    message first jump to it; and the client's message lookup falls back to the cache. */
module ContextMenu {
  import opened Base
  import opened MessageCache
  import opened Subscriptions
  import opened Components

  /** An argument or result of a menu action; opaque to the plugin. */
  type Arg = nat

  /** A menu item's action: the client's own, or the plugin's jumping wrapper around another. */
  datatype Action =
    | HostAction(id: nat)
    | JumpFirst(guildId: Snowflake, channelId: Snowflake, messageId: Snowflake, inner: Action)

  /** The props of a menu node: items carry an action, groups carry children. */
  datatype MenuProps = MenuProps(id: string, action: Option<Action>, children: ChildList)

  /** The `children` prop: missing, an iterable list (a text child iterates as characters,
      which have no props), or a single value `for...of` cannot iterate (a lone element,
      `false`, a number). */
  datatype ChildList = NoChildren | Items(items: seq<MenuChild>) | NotIterable

  /** A child of a menu node; children without props (separators, `null`) are skipped. */
  datatype MenuChild = NoProps | Child(props: MenuProps)

  /** Item ids whose action moves to the message: edit, reply, mark unread. */
  const JumpingActionIds: set<string> := {"edit", "reply", "mark-unread"}

  function PropsSize(p: MenuProps): (n: nat)
    ensures p.children.Items? ==> n > ChildrenSize(p.children.items)
    decreases p, 1
  {
    match p.children
    case NoChildren => 1
    case NotIterable => 1
    case Items(cs) => 1 + ChildrenSize(cs)
  }

  function ChildSize(c: MenuChild): (n: nat)
    ensures n >= 1
    ensures c.Child? ==> n > PropsSize(c.props)
    decreases c, 1
  {
    match c
    case NoProps => 1
    case Child(q) => 1 + PropsSize(q)
  }

  function ChildrenSize(cs: seq<MenuChild>): (n: nat)
    ensures cs != [] ==> n >= ChildSize(cs[0]) && n > ChildrenSize(cs[1..])
    decreases cs, 1
  {
    if cs == [] then 0 else ChildSize(cs[0]) + ChildrenSize(cs[1..])
  }

  /** `traverseMenuItems`: the item props the callback receives, in visiting order, and
      whether the walk finished or threw. A node with an action is handed over and not
      descended into; a missing child list is empty; a child list `for...of` cannot iterate
      throws a `TypeError`, which ends the whole walk. */
  function Visit(p: MenuProps): (r: (seq<MenuProps>, Completion<()>))
    ensures forall i :: 0 <= i < |r.0| ==> r.0[i].action.Some?
    ensures p.action.Some? ==> r == ([p], Normal(()))
    ensures p.action.None? && p.children.NotIterable? ==> r == ([], TypeError)
    decreases PropsSize(p), 1
  {
    if p.action.Some? then ([p], Normal(()))
    else match p.children
      case NoChildren => ([], Normal(()))
      case NotIterable => ([], TypeError)
      case Items(cs) => VisitAll(cs)
  }

  function VisitAll(cs: seq<MenuChild>): (r: (seq<MenuProps>, Completion<()>))
    ensures forall i :: 0 <= i < |r.0| ==> r.0[i].action.Some?
    decreases ChildrenSize(cs), 0
  {
    if |cs| == 0 then ([], Normal(()))
    else
      var head := match cs[0] case NoProps => ([], Normal(())) case Child(p) => Visit(p);
      if head.1.TypeError? then head
      else
        var rest := VisitAll(cs[1..]);
        (head.0 + rest.0, rest.1)
  }

  /** The menu's surroundings: where it opened, and the message and channel it is about. */
  datatype MenuContext = MenuContext(insideEmbed: bool, message: MessageRecord, channel: ChannelRecord)

  /** The callback's effect on one item: a jumping item gets the wrapper, others stay. */
  function PatchItem(ctx: MenuContext, p: MenuProps): (r: MenuProps)
    requires p.action.Some?
    ensures r.id == p.id && r.children == p.children && r.action.Some?
    ensures p.id in JumpingActionIds <==> r != p
  {
    if p.id !in JumpingActionIds then p
    else p.(action := Some(JumpFirst(ctx.channel.guildId, ctx.message.channelId, ctx.message.id, p.action.value)))
  }

  /** The menu after the traversal has run the callback on every visited item, and whether
      the traversal finished. The callback mutates the items in place, so the items reached
      before a throw stay patched and the ones after it are left as they were. */
  function PatchTree(ctx: MenuContext, p: MenuProps): (r: (MenuProps, Completion<()>))
    ensures r.0.id == p.id && r.0.action.Some? == p.action.Some?
    ensures p.action.None? && p.children.NotIterable? ==> r == (p, TypeError)
    decreases PropsSize(p), 1
  {
    if p.action.Some? then (PatchItem(ctx, p), Normal(()))
    else match p.children
      case NoChildren => (p, Normal(()))
      case NotIterable => (p, TypeError)
      case Items(cs) =>
        var (patched, outcome) := PatchAll(ctx, cs);
        (p.(children := Items(patched)), outcome)
  }

  function PatchAll(ctx: MenuContext, cs: seq<MenuChild>): (r: (seq<MenuChild>, Completion<()>))
    ensures |r.0| == |cs|
    ensures forall i :: 0 <= i < |cs| ==> (r.0[i].NoProps? <==> cs[i].NoProps?)
    ensures r.1.TypeError? ==> exists k :: 0 <= k < |cs| && UntouchedAfter(r.0, cs, k)
    decreases ChildrenSize(cs), 0
  {
    if |cs| == 0 then ([], Normal(()))
    else
      var head := match cs[0] case NoProps => (NoProps, Normal(())) case Child(p) => (Child(PatchTree(ctx, p).0), PatchTree(ctx, p).1);
      if head.1.TypeError? then
        var r := ([head.0] + cs[1..], TypeError);
        assert UntouchedAfter(r.0, cs, 0) by { assert r.0[1..] == cs[1..]; }
        r
      else
        var rest := PatchAll(ctx, cs[1..]);
        var r := ([head.0] + rest.0, rest.1);
        if rest.1.TypeError? then
          var k :| 0 <= k < |cs[1..]| && UntouchedAfter(rest.0, cs[1..], k);
          assert UntouchedAfter(r.0, cs, k + 1) by {
            assert r.0[k + 2..] == rest.0[k + 1..];
            assert cs[k + 2..] == cs[1..][k + 1..];
          }
          r
        else r
  }

  /** The siblings after position `k` are as they were. */
  predicate UntouchedAfter(patched: seq<MenuChild>, cs: seq<MenuChild>, k: nat)
    requires |patched| == |cs|
  {
    k < |cs| && patched[k + 1..] == cs[k + 1..]
  }

  /** `patchContextMenu`: outside an embed the menu is left alone; inside one the traversal
      patches it, and a throw in the traversal propagates out of the patch. */
  function PatchContextMenu(ctx: MenuContext, menu: MenuProps): (r: (MenuProps, Completion<()>))
    ensures !ctx.insideEmbed ==> r == (menu, Normal(()))
    ensures ctx.insideEmbed ==> r == PatchTree(ctx, menu)
    ensures ctx.insideEmbed ==> r.1 == Visit(menu).1 && Visit(r.0) == (PatchItems(ctx, Visit(menu).0), Visit(menu).1)
  {
    if !ctx.insideEmbed then (menu, Normal(()))
    else
      VisitPatchTree(ctx, menu);
      PatchTree(ctx, menu)
  }

  function PatchItems(ctx: MenuContext, items: seq<MenuProps>): (r: seq<MenuProps>)
    requires forall i :: 0 <= i < |items| ==> items[i].action.Some?
    ensures |r| == |items|
    ensures forall i :: 0 <= i < |items| ==> r[i] == PatchItem(ctx, items[i])
  {
    if |items| == 0 then [] else [PatchItem(ctx, items[0])] + PatchItems(ctx, items[1..])
  }

  /** The patch and the traversal finish or throw together, and the patched menu hands a later
      traversal the same items, in the same order and up to the same throw, each with its
      action replaced exactly when its id is a jumping one: the patch reaches every visited
      item and nothing else. */
  lemma {:induction false} VisitPatchTree(ctx: MenuContext, p: MenuProps)
    ensures PatchTree(ctx, p).1 == Visit(p).1
    ensures Visit(PatchTree(ctx, p).0) == (PatchItems(ctx, Visit(p).0), Visit(p).1)
    decreases PropsSize(p), 1
  {
    if p.action.Some? {
      assert PatchItems(ctx, [p]) == [PatchItem(ctx, p)];
    } else if p.children.Items? {
      VisitPatchAll(ctx, p.children.items);
    }
  }

  lemma {:induction false} VisitPatchAll(ctx: MenuContext, cs: seq<MenuChild>)
    ensures PatchAll(ctx, cs).1 == VisitAll(cs).1
    ensures VisitAll(PatchAll(ctx, cs).0) == (PatchItems(ctx, VisitAll(cs).0), VisitAll(cs).1)
    decreases ChildrenSize(cs), 0
  {
    if |cs| > 0 {
      var patched := PatchAll(ctx, cs).0;
      var head := match cs[0] case NoProps => ([], Normal(())) case Child(p) => Visit(p);
      if cs[0].Child? {
        VisitPatchTree(ctx, cs[0].props);
      }
      if head.1.TypeError? {
        assert VisitAll(cs) == head;
      } else {
        assert patched[1..] == PatchAll(ctx, cs[1..]).0;
        VisitPatchAll(ctx, cs[1..]);
        PatchItemsAppend(ctx, head.0, VisitAll(cs[1..]).0);
      }
    }
  }

  lemma {:induction false} PatchItemsAppend(ctx: MenuContext, xs: seq<MenuProps>, ys: seq<MenuProps>)
    requires forall i :: 0 <= i < |xs| ==> xs[i].action.Some?
    requires forall i :: 0 <= i < |ys| ==> ys[i].action.Some?
    ensures PatchItems(ctx, xs + ys) == PatchItems(ctx, xs) + PatchItems(ctx, ys)
  {
    var l := PatchItems(ctx, xs + ys);
    var r := PatchItems(ctx, xs) + PatchItems(ctx, ys);
    assert |l| == |r|;
    forall i | 0 <= i < |l| ensures l[i] == r[i] {
      if i < |xs| {
        assert (xs + ys)[i] == xs[i];
      } else {
        assert (xs + ys)[i] == ys[i - |xs|];
      }
    }
  }

  /** The host calls a menu action makes, in order. */
  datatype Effect =
    | TransitionToGuild(guildId: Snowflake, channelId: Snowflake)
    | JumpToMessage(channelId: Snowflake, messageId: Snowflake, flash: bool)
    | RanHostAction(id: nat, args: seq<Arg>)

  /** Running an action with `args`: the effects and the returned value. What a host action
      returns is supplied by `host`. */
  function Run(host: (nat, seq<Arg>) -> Arg, a: Action, args: seq<Arg>): (r: (seq<Effect>, Arg))
    ensures |r.0| >= 1 && r.0[|r.0| - 1] == RanHostAction(BaseAction(a), args)
    ensures r.1 == host(BaseAction(a), args)
  {
    match a
    case HostAction(id) => ([RanHostAction(id, args)], host(id, args))
    case JumpFirst(g, c, m, inner) =>
      var (effects, result) := Run(host, inner, args);
      ([TransitionToGuild(g, c), JumpToMessage(c, m, true)] + effects, result)
  }

  /** The client action underneath any wrappers. */
  function BaseAction(a: Action): nat {
    match a
    case HostAction(id) => id
    case JumpFirst(_, _, _, inner) => BaseAction(inner)
  }

  /** A replaced action first moves to the embedded message's guild and channel, then jumps to
      and flashes the message, then runs the original action with the same arguments and
      returns what it returns. */
  lemma WrappedActionJumpsThenDelegates(host: (nat, seq<Arg>) -> Arg, ctx: MenuContext, item: MenuProps, args: seq<Arg>)
    requires item.action.Some? && item.id in JumpingActionIds
    ensures var wrapped := PatchItem(ctx, item).action.value;
            Run(host, wrapped, args) ==
              ([TransitionToGuild(ctx.channel.guildId, ctx.message.channelId),
                JumpToMessage(ctx.message.channelId, ctx.message.id, true)] + Run(host, item.action.value, args).0,
               Run(host, item.action.value, args).1)
  {
  }

  /** Items that are not jumping ones keep their action. */
  lemma OtherItemsUntouched(ctx: MenuContext, item: MenuProps)
    requires item.action.Some? && item.id !in JumpingActionIds
    ensures PatchItem(ctx, item) == item
  {
  }

  /** A group whose own props carry an action is handed over whole: its children are not
      visited, even when they are jumping items. */
  lemma ActionNodeNotDescended(ctx: MenuContext, a: Action, child: MenuProps)
    requires child.action.Some? && child.id in JumpingActionIds
    ensures var group := MenuProps("group", Some(a), Items([Child(child)]));
            PatchTree(ctx, group).0.children == Items([Child(child)])
  {
  }

  /** A child list the traversal cannot iterate stops it: a jumping item after such a
      sibling is left unpatched, and the traversal ends in a `TypeError`. */
  lemma LoneChildStopsTraversal(ctx: MenuContext, item: MenuProps)
    requires item.action.Some? && item.id in JumpingActionIds
    ensures var bad := MenuProps("submenu", None, NotIterable);
            var menu := MenuProps("menu", None, Items([Child(bad), Child(item)]));
            ctx.insideEmbed ==> PatchContextMenu(ctx, menu) == (menu, TypeError)
  {
    var bad := MenuProps("submenu", None, NotIterable);
    var cs := [Child(bad), Child(item)];
    assert cs[1..] == [Child(item)];
    assert PatchTree(ctx, bad) == (bad, TypeError);
    assert [Child(bad)] + cs[1..] == cs;
    assert PatchAll(ctx, cs) == (cs, TypeError);
  }

  /** The after-patch on the client's `getMessage`: it answers with the cached message when
      the cached record for the pair is a success, and with nothing otherwise. The original
      return value is never consulted. */
  function AfterGetMessage(cache: Cache, c: Snowflake, m: Snowflake, returnValue: Option<MessageRecord>): (r: Option<MessageRecord>)
    ensures r.Some? <==> Get(cache, c, m).Some? && Get(cache, c, m).value.Success?
    ensures r.Some? ==> Get(cache, c, m) == Some(Success(r.value))
  {
    var cached := Get(cache, c, m);
    if cached.Some? && cached.value.Success? then Some(cached.value.message) else None
  }

  /** The patch's answer does not depend on the client's own answer. */
  lemma AfterGetMessageIgnoresOriginal(cache: Cache, c: Snowflake, m: Snowflake, a: Option<MessageRecord>, b: Option<MessageRecord>)
    ensures AfterGetMessage(cache, c, m, a) == AfterGetMessage(cache, c, m, b)
  {
  }
}
