/** Rule 2 of the rewrite pass: inside a declarator's target, every object property
    and rest element whose value is an identifier bound but never referenced is
    removed (`removeIfUnreferenced`, index.ts:156-162, 182-188). Removing a node also
    removes the bindings it made, so later positions of the same traversal see the
    scope without them. */
module Prune {
  import opened Base
  import opened Ast
  import opened Origin

  /** The removal guard: an identifier with an existing, unreferenced binding. */
  predicate Unreferenced(scope: Scope, target: Pattern) {
    target.PIdent? && target.name in scope && !scope[target.name].referenced
  }

  /** The names whose bindings are unreferenced. */
  function Dead(scope: Scope): set<string> {
    set n | n in scope && !scope[n].referenced
  }

  // ---- Sizes, the termination measure of the mutual recursions below ----

  function PatSize(p: Pattern): (n: nat)
    ensures n >= 1
  {
    match p
    case PObject(props) => 1 + PropsSize(props)
    case PArray(elems) => 1 + ElemsSize(elems)
    case _ => 1
  }

  function PropSize(x: PatProp): (n: nat)
    ensures n == 1 + PatSize(PropTarget(x))
  {
    match x
    case Prop(_, v) => 1 + PatSize(v)
    case Rest(a) => 1 + PatSize(a)
  }

  function PropsSize(props: seq<PatProp>): (n: nat)
    ensures props != [] ==> n >= PropSize(props[0]) && n > PropsSize(props[1..])
  {
    if props == [] then 0 else PropSize(props[0]) + PropsSize(props[1..])
  }

  function ElemSize(x: ArrayElem): (n: nat)
    ensures n >= 1
    ensures x.Elem? ==> n > PatSize(x.pat)
    ensures x.RestElem? ==> n > PatSize(x.arg)
  {
    match x
    case Hole => 1
    case Elem(q) => 1 + PatSize(q)
    case RestElem(a) => 1 + PatSize(a)
  }

  function ElemsSize(elems: seq<ArrayElem>): (n: nat)
    ensures elems != [] ==> n >= ElemSize(elems[0]) && n > ElemsSize(elems[1..])
  {
    if elems == [] then 0 else ElemSize(elems[0]) + ElemsSize(elems[1..])
  }

  /** The pattern an object-pattern entry binds: a property's value or a rest argument. */
  function PropTarget(x: PatProp): Pattern {
    match x
    case Prop(_, v) => v
    case Rest(a) => a
  }

  function WithTarget(x: PatProp, v: Pattern): (r: PatProp)
    ensures PropTarget(r) == v
  {
    match x
    case Prop(k, _) => Prop(k, v)
    case Rest(_) => Rest(v)
  }

  // ---- The traversal ----

  /** Visit the target's object properties and rest elements, at any depth, in source
      order, and return the pruned target with the scope that is left. A removed node
      is not descended into; a kept one is. */
  function PrunePattern(scope: Scope, p: Pattern): (Pattern, Scope)
    decreases PatSize(p), 1
  {
    match p
    case PObject(props) =>
      var (props', scope') := PruneProps(scope, props);
      (PObject(props'), scope')
    case PArray(elems) =>
      var (elems', scope') := PruneElems(scope, elems);
      (PArray(elems'), scope')
    case _ => (p, scope)
  }

  /** A removable position: `None`, with the binding gone from the scope, when it holds an
      unreferenced identifier; otherwise the position pruned in turn. */
  function PruneSlot(scope: Scope, v: Pattern): (Option<Pattern>, Scope)
    decreases PatSize(v), 2
  {
    if Unreferenced(scope, v) then (None, scope - {v.name})
    else
      var (v', scope') := PrunePattern(scope, v);
      (Some(v'), scope')
  }

  function PruneProp(scope: Scope, x: PatProp): (seq<PatProp>, Scope)
    decreases PropSize(x), 3
  {
    var (v', scope') := PruneSlot(scope, PropTarget(x));
    (if v'.Some? then [WithTarget(x, v'.value)] else [], scope')
  }

  function PruneProps(scope: Scope, props: seq<PatProp>): (seq<PatProp>, Scope)
    decreases PropsSize(props), 4
  {
    if props == [] then ([], scope)
    else
      var (head, scope1) := PruneProp(scope, props[0]);
      var (rest, scope2) := PruneProps(scope1, props[1..]);
      (head + rest, scope2)
  }

  /** An array element is only a removable position when it is a rest element. */
  function PruneElem(scope: Scope, x: ArrayElem): (seq<ArrayElem>, Scope)
    decreases ElemSize(x), 3
  {
    match x
    case Hole => ([Hole], scope)
    case Elem(q) =>
      var (q', scope') := PrunePattern(scope, q);
      ([Elem(q')], scope')
    case RestElem(a) =>
      var (a', scope') := PruneSlot(scope, a);
      (if a'.Some? then [RestElem(a'.value)] else [], scope')
  }

  function PruneElems(scope: Scope, elems: seq<ArrayElem>): (seq<ArrayElem>, Scope)
    decreases ElemsSize(elems), 4
  {
    if elems == [] then ([], scope)
    else
      var (head, scope1) := PruneElem(scope, elems[0]);
      var (rest, scope2) := PruneElems(scope1, elems[1..]);
      (head + rest, scope2)
  }

  // ---- Names in removable positions ("slots") and in all other positions ----

  /** Names bound directly as an object property value or a rest argument. */
  function Slots(p: Pattern): set<string>
    decreases PatSize(p), 1
  {
    match p
    case PObject(props) => SlotsProps(props)
    case PArray(elems) => SlotsElems(elems)
    case _ => {}
  }

  function SlotTarget(v: Pattern): set<string>
    decreases PatSize(v), 2
  {
    if v.PIdent? then {v.name} else Slots(v)
  }

  function SlotsProps(props: seq<PatProp>): set<string>
    decreases PropsSize(props), 4
  {
    if props == [] then {} else SlotTarget(PropTarget(props[0])) + SlotsProps(props[1..])
  }

  function ElemSlots(x: ArrayElem): set<string>
    decreases ElemSize(x), 3
  {
    match x
    case Hole => {}
    case Elem(q) => Slots(q)
    case RestElem(a) => SlotTarget(a)
  }

  function SlotsElems(elems: seq<ArrayElem>): set<string>
    decreases ElemsSize(elems), 4
  {
    if elems == [] then {} else ElemSlots(elems[0]) + SlotsElems(elems[1..])
  }

  /** Names bound anywhere else: the declarator's own identifier, array elements. */
  function Fixed(p: Pattern): set<string>
    decreases PatSize(p), 1
  {
    match p
    case PIdent(x) => {x}
    case PObject(props) => FixedProps(props)
    case PArray(elems) => FixedElems(elems)
    case POther => {}
  }

  function FixedUnder(v: Pattern): set<string>
    decreases PatSize(v), 2
  {
    if v.PIdent? then {} else Fixed(v)
  }

  function FixedProps(props: seq<PatProp>): set<string>
    decreases PropsSize(props), 4
  {
    if props == [] then {} else FixedUnder(PropTarget(props[0])) + FixedProps(props[1..])
  }

  function ElemFixed(x: ArrayElem): set<string>
    decreases ElemSize(x), 3
  {
    match x
    case Hole => {}
    case Elem(q) => Fixed(q)
    case RestElem(a) => FixedUnder(a)
  }

  function FixedElems(elems: seq<ArrayElem>): set<string>
    decreases ElemsSize(elems), 4
  {
    if elems == [] then {} else ElemFixed(elems[0]) + FixedElems(elems[1..])
  }

  /** No name sits in two removable positions: each entry's slots are disjoint from those
      of the entries after it, at every level. */
  predicate DistinctSlots(p: Pattern)
    decreases PatSize(p), 1
  {
    match p
    case PObject(props) => DistinctProps(props)
    case PArray(elems) => DistinctElems(elems)
    case _ => true
  }

  predicate DistinctTarget(v: Pattern)
    decreases PatSize(v), 2
  {
    v.PIdent? || DistinctSlots(v)
  }

  predicate DistinctProps(props: seq<PatProp>)
    decreases PropsSize(props), 4
  {
    props == [] ||
    (DistinctTarget(PropTarget(props[0])) && SlotTarget(PropTarget(props[0])) !! SlotsProps(props[1..])
     && DistinctProps(props[1..]))
  }

  predicate DistinctElem(x: ArrayElem)
    decreases ElemSize(x), 3
  {
    match x
    case Hole => true
    case Elem(q) => DistinctSlots(q)
    case RestElem(a) => DistinctTarget(a)
  }

  predicate DistinctElems(elems: seq<ArrayElem>)
    decreases ElemsSize(elems), 4
  {
    elems == [] ||
    (DistinctElem(elems[0]) && ElemSlots(elems[0]) !! SlotsElems(elems[1..]) && DistinctElems(elems[1..]))
  }

  // ---- What pruning does to the scope ----

  lemma DeadWithout(scope: Scope, xs: set<string>)
    ensures Dead(scope - xs) == Dead(scope) - xs
  {
  }

  lemma WithoutTwice(scope: Scope, xs: set<string>, ys: set<string>)
    ensures scope - xs - ys == scope - (xs + ys)
  {
  }

  /** Exactly the unreferenced names in removable positions leave the scope, however
      often each occurs. */
  lemma {:induction false} PruneScope(scope: Scope, p: Pattern)
    ensures PrunePattern(scope, p).1 == scope - (Slots(p) * Dead(scope))
    decreases PatSize(p), 1
  {
    match p
    case PObject(props) => PruneScopeProps(scope, props);
    case PArray(elems) => PruneScopeElems(scope, elems);
    case _ => assert Slots(p) * Dead(scope) == {};
  }

  lemma {:induction false} PruneScopeSlot(scope: Scope, v: Pattern)
    ensures PruneSlot(scope, v).1 == scope - (SlotTarget(v) * Dead(scope))
    decreases PatSize(v), 2
  {
    if Unreferenced(scope, v) {
      assert SlotTarget(v) * Dead(scope) == {v.name};
    } else if v.PIdent? {
      assert SlotTarget(v) * Dead(scope) == {};
    } else {
      PruneScope(scope, v);
    }
  }

  /** Two positions in a row: the second sees the scope the first leaves. */
  lemma ScopeAfterTwo(scope: Scope, xs: set<string>, ys: set<string>, scope1: Scope, scope2: Scope)
    requires scope1 == scope - (xs * Dead(scope))
    requires scope2 == scope1 - (ys * Dead(scope1))
    ensures scope2 == scope - ((xs + ys) * Dead(scope))
  {
    DeadWithout(scope, xs * Dead(scope));
    WithoutTwice(scope, xs * Dead(scope), ys * Dead(scope1));
    assert xs * Dead(scope) + ys * Dead(scope1) == (xs + ys) * Dead(scope);
  }

  lemma {:induction false} PruneScopeProps(scope: Scope, props: seq<PatProp>)
    ensures PruneProps(scope, props).1 == scope - (SlotsProps(props) * Dead(scope))
    decreases PropsSize(props), 4
  {
    if props == [] {
      assert SlotsProps(props) * Dead(scope) == {};
    } else {
      PruneScopeSlot(scope, PropTarget(props[0]));
      var scope1 := PruneProp(scope, props[0]).1;
      PruneScopeProps(scope1, props[1..]);
      ScopeAfterTwo(scope, SlotTarget(PropTarget(props[0])), SlotsProps(props[1..]),
                    scope1, PruneProps(scope1, props[1..]).1);
    }
  }

  lemma {:induction false} PruneScopeElem(scope: Scope, x: ArrayElem)
    ensures PruneElem(scope, x).1 == scope - (ElemSlots(x) * Dead(scope))
    decreases ElemSize(x), 3
  {
    match x
    case Hole => assert ElemSlots(x) * Dead(scope) == {};
    case Elem(q) => PruneScope(scope, q);
    case RestElem(a) => PruneScopeSlot(scope, a);
  }

  lemma {:induction false} PruneScopeElems(scope: Scope, elems: seq<ArrayElem>)
    ensures PruneElems(scope, elems).1 == scope - (SlotsElems(elems) * Dead(scope))
    decreases ElemsSize(elems), 4
  {
    if elems == [] {
      assert SlotsElems(elems) * Dead(scope) == {};
    } else {
      PruneScopeElem(scope, elems[0]);
      var scope1 := PruneElem(scope, elems[0]).1;
      PruneScopeElems(scope1, elems[1..]);
      ScopeAfterTwo(scope, ElemSlots(elems[0]), SlotsElems(elems[1..]),
                    scope1, PruneElems(scope1, elems[1..]).1);
    }
  }

  // ---- When pruning changes the target ----

  /** The measures and name sets of a list that starts with a given entry. */
  lemma PropsCons(x: PatProp, rest: seq<PatProp>)
    ensures PropsSize([x] + rest) == PropSize(x) + PropsSize(rest)
    ensures SlotsProps([x] + rest) == SlotTarget(PropTarget(x)) + SlotsProps(rest)
    ensures FixedProps([x] + rest) == FixedUnder(PropTarget(x)) + FixedProps(rest)
  {
    assert ([x] + rest)[0] == x && ([x] + rest)[1..] == rest;
  }

  lemma ElemsCons(x: ArrayElem, rest: seq<ArrayElem>)
    ensures ElemsSize([x] + rest) == ElemSize(x) + ElemsSize(rest)
    ensures SlotsElems([x] + rest) == ElemSlots(x) + SlotsElems(rest)
    ensures FixedElems([x] + rest) == ElemFixed(x) + FixedElems(rest)
  {
    assert ([x] + rest)[0] == x && ([x] + rest)[1..] == rest;
  }

  /** A target comes back unchanged, with the scope untouched, exactly when none of its
      removable positions holds an unreferenced name; otherwise it comes back strictly
      smaller. */
  lemma {:induction false} PruneUnchanged(scope: Scope, p: Pattern)
    ensures PatSize(PrunePattern(scope, p).0) <= PatSize(p)
    ensures Slots(p) * Dead(scope) == {} ==> PrunePattern(scope, p) == (p, scope)
    ensures Slots(p) * Dead(scope) != {} ==> PatSize(PrunePattern(scope, p).0) < PatSize(p)
    ensures PrunePattern(scope, p).0 == p <==> Slots(p) * Dead(scope) == {}
    decreases PatSize(p), 1
  {
    match p
    case PObject(props) => PruneUnchangedProps(scope, props);
    case PArray(elems) => PruneUnchangedElems(scope, elems);
    case _ =>
  }

  lemma {:induction false} PruneUnchangedSlot(scope: Scope, v: Pattern)
    ensures PruneSlot(scope, v).0.Some? ==> PatSize(PruneSlot(scope, v).0.value) <= PatSize(v)
    ensures SlotTarget(v) * Dead(scope) == {} ==> PruneSlot(scope, v) == (Some(v), scope)
    ensures SlotTarget(v) * Dead(scope) != {} && PruneSlot(scope, v).0.Some? ==>
              PatSize(PruneSlot(scope, v).0.value) < PatSize(v)
    decreases PatSize(v), 2
  {
    if Unreferenced(scope, v) {
      assert v.name in SlotTarget(v) * Dead(scope);
    } else if v.PIdent? {
      assert SlotTarget(v) * Dead(scope) == {};
    } else {
      PruneUnchanged(scope, v);
    }
  }

  lemma {:induction false} PruneUnchangedProp(scope: Scope, x: PatProp)
    ensures |PruneProp(scope, x).0| <= 1
    ensures PruneProp(scope, x).0 != [] ==> PropSize(PruneProp(scope, x).0[0]) <= PropSize(x)
    ensures SlotTarget(PropTarget(x)) * Dead(scope) == {} ==> PruneProp(scope, x) == ([x], scope)
    ensures SlotTarget(PropTarget(x)) * Dead(scope) != {} && PruneProp(scope, x).0 != [] ==>
              PropSize(PruneProp(scope, x).0[0]) < PropSize(x)
    decreases PropSize(x), 3
  {
    PruneUnchangedSlot(scope, PropTarget(x));
    if SlotTarget(PropTarget(x)) * Dead(scope) == {} {
      assert WithTarget(x, PropTarget(x)) == x;
    }
  }

  lemma {:induction false} PruneUnchangedProps(scope: Scope, props: seq<PatProp>)
    ensures PropsSize(PruneProps(scope, props).0) <= PropsSize(props)
    ensures SlotsProps(props) * Dead(scope) == {} ==> PruneProps(scope, props) == (props, scope)
    ensures SlotsProps(props) * Dead(scope) != {} ==> PropsSize(PruneProps(scope, props).0) < PropsSize(props)
    decreases PropsSize(props), 4
  {
    if props != [] {
      var x := props[0];
      PruneUnchangedProp(scope, x);
      var (head, scope1) := PruneProp(scope, x);
      PruneUnchangedProps(scope1, props[1..]);
      var rest := PruneProps(scope1, props[1..]).0;
      assert PruneProps(scope, props).0 == head + rest;
      PropsCons(x, props[1..]);
      if head == [] {
        assert head + rest == rest;
      } else {
        PropsCons(head[0], rest);
        assert head + rest == [head[0]] + rest;
      }
      if SlotTarget(PropTarget(x)) * Dead(scope) == {} {
        assert props == [x] + props[1..];
      }
    }
  }

  lemma {:induction false} PruneUnchangedElem(scope: Scope, x: ArrayElem)
    ensures |PruneElem(scope, x).0| <= 1
    ensures PruneElem(scope, x).0 != [] ==> ElemSize(PruneElem(scope, x).0[0]) <= ElemSize(x)
    ensures ElemSlots(x) * Dead(scope) == {} ==> PruneElem(scope, x) == ([x], scope)
    ensures ElemSlots(x) * Dead(scope) != {} && PruneElem(scope, x).0 != [] ==>
              ElemSize(PruneElem(scope, x).0[0]) < ElemSize(x)
    decreases ElemSize(x), 3
  {
    match x
    case Hole =>
    case Elem(q) => PruneUnchanged(scope, q);
    case RestElem(a) => PruneUnchangedSlot(scope, a);
  }

  lemma {:induction false} PruneUnchangedElems(scope: Scope, elems: seq<ArrayElem>)
    ensures ElemsSize(PruneElems(scope, elems).0) <= ElemsSize(elems)
    ensures SlotsElems(elems) * Dead(scope) == {} ==> PruneElems(scope, elems) == (elems, scope)
    ensures SlotsElems(elems) * Dead(scope) != {} ==> ElemsSize(PruneElems(scope, elems).0) < ElemsSize(elems)
    decreases ElemsSize(elems), 4
  {
    if elems != [] {
      var x := elems[0];
      PruneUnchangedElem(scope, x);
      var (head, scope1) := PruneElem(scope, x);
      PruneUnchangedElems(scope1, elems[1..]);
      var rest := PruneElems(scope1, elems[1..]).0;
      assert PruneElems(scope, elems).0 == head + rest;
      ElemsCons(x, elems[1..]);
      if head == [] {
        assert head + rest == rest;
      } else {
        ElemsCons(head[0], rest);
        assert head + rest == [head[0]] + rest;
      }
      if ElemSlots(x) * Dead(scope) == {} {
        assert head == [x] && scope1 == scope;
        assert elems == [x] + elems[1..];
      }
    }
  }

  /** When every binding is referenced, pruning leaves the target and the scope as they are. */
  lemma NothingDeadNothingPruned(scope: Scope, p: Pattern)
    requires Dead(scope) == {}
    ensures PrunePattern(scope, p) == (p, scope)
  {
    PruneUnchanged(scope, p);
  }

  // ---- What pruning does to the names ----

  /** Pruning leaves every binding outside the removable positions where it was, keeps only
      names it found there, and, when no name occupies two removable positions, removes
      from them exactly the unreferenced names. */
  lemma {:induction false} PruneNames(scope: Scope, p: Pattern)
    ensures Fixed(PrunePattern(scope, p).0) == Fixed(p)
    ensures Slots(PrunePattern(scope, p).0) <= Slots(p)
    ensures DistinctSlots(p) ==> Slots(PrunePattern(scope, p).0) == Slots(p) - Dead(scope)
    decreases PatSize(p), 1
  {
    match p
    case PObject(props) => PruneNamesProps(scope, props);
    case PArray(elems) => PruneNamesElems(scope, elems);
    case _ =>
  }

  lemma {:induction false} PruneNamesSlot(scope: Scope, v: Pattern)
    ensures PruneSlot(scope, v).0.None? ==> v.PIdent? && SlotTarget(v) <= Dead(scope)
    ensures PruneSlot(scope, v).0.Some? ==>
              FixedUnder(PruneSlot(scope, v).0.value) == FixedUnder(v) &&
              SlotTarget(PruneSlot(scope, v).0.value) <= SlotTarget(v) &&
              (DistinctTarget(v) ==> SlotTarget(PruneSlot(scope, v).0.value) == SlotTarget(v) - Dead(scope))
    decreases PatSize(v), 2
  {
    if Unreferenced(scope, v) {
      assert v.name in Dead(scope);
    } else if v.PIdent? {
      assert v.name !in Dead(scope);
    } else {
      PruneNames(scope, v);
    }
  }

  lemma {:induction false} PruneNamesProps(scope: Scope, props: seq<PatProp>)
    ensures FixedProps(PruneProps(scope, props).0) == FixedProps(props)
    ensures SlotsProps(PruneProps(scope, props).0) <= SlotsProps(props)
    ensures DistinctProps(props) ==> SlotsProps(PruneProps(scope, props).0) == SlotsProps(props) - Dead(scope)
    decreases PropsSize(props), 4
  {
    if props != [] {
      var x := props[0];
      var v := PropTarget(x);
      PruneNamesSlot(scope, v);
      PruneScopeSlot(scope, v);
      var (head, scope1) := PruneProp(scope, x);
      PruneNamesProps(scope1, props[1..]);
      var rest := PruneProps(scope1, props[1..]).0;
      assert PruneProps(scope, props).0 == head + rest;
      PropsCons(x, props[1..]);
      DeadWithout(scope, SlotTarget(v) * Dead(scope));
      if head == [] {
        assert head + rest == rest;
      } else {
        PropsCons(head[0], rest);
        assert head + rest == [head[0]] + rest;
      }
    }
  }

  lemma {:induction false} PruneNamesElem(scope: Scope, x: ArrayElem)
    ensures |PruneElem(scope, x).0| <= 1
    ensures PruneElem(scope, x).0 == [] ==> ElemFixed(x) == {} && ElemSlots(x) <= Dead(scope)
    ensures PruneElem(scope, x).0 != [] ==>
              ElemFixed(PruneElem(scope, x).0[0]) == ElemFixed(x) &&
              ElemSlots(PruneElem(scope, x).0[0]) <= ElemSlots(x) &&
              (DistinctElem(x) ==> ElemSlots(PruneElem(scope, x).0[0]) == ElemSlots(x) - Dead(scope))
    decreases ElemSize(x), 3
  {
    match x
    case Hole =>
    case Elem(q) => PruneNames(scope, q);
    case RestElem(a) => PruneNamesSlot(scope, a);
  }

  lemma {:induction false} PruneNamesElems(scope: Scope, elems: seq<ArrayElem>)
    ensures FixedElems(PruneElems(scope, elems).0) == FixedElems(elems)
    ensures SlotsElems(PruneElems(scope, elems).0) <= SlotsElems(elems)
    ensures DistinctElems(elems) ==> SlotsElems(PruneElems(scope, elems).0) == SlotsElems(elems) - Dead(scope)
    decreases ElemsSize(elems), 4
  {
    if elems != [] {
      var x := elems[0];
      PruneNamesElem(scope, x);
      PruneScopeElem(scope, x);
      var (head, scope1) := PruneElem(scope, x);
      PruneNamesElems(scope1, elems[1..]);
      var rest := PruneElems(scope1, elems[1..]).0;
      assert PruneElems(scope, elems).0 == head + rest;
      ElemsCons(x, elems[1..]);
      DeadWithout(scope, ElemSlots(x) * Dead(scope));
      if head == [] {
        assert head + rest == rest;
      } else {
        ElemsCons(head[0], rest);
        assert head + rest == [head[0]] + rest;
      }
    }
  }

  // ---- Two concrete targets ----

  /** One entry followed by the rest, with the scope the entry leaves passed on. */
  lemma PrunePropsCons(scope: Scope, x: PatProp, rest: seq<PatProp>)
    ensures PruneProps(scope, [x] + rest) ==
              (PruneProp(scope, x).0 + PruneProps(PruneProp(scope, x).1, rest).0,
               PruneProps(PruneProp(scope, x).1, rest).1)
  {
    assert ([x] + rest)[0] == x && ([x] + rest)[1..] == rest;
  }

  lemma KeepsReferencedSibling(scope: Scope)
    requires scope == map["a" := Binding(DeclaredBy(0, None), false),
                          "b" := Binding(DeclaredBy(0, None), true),
                          "c" := Binding(DeclaredBy(0, None), false)]
    ensures PrunePattern(scope, PObject([Prop("a", PIdent("a")), Prop("b", PIdent("b")), Prop("c", PIdent("c"))]))
            == (PObject([Prop("b", PIdent("b"))]), map["b" := Binding(DeclaredBy(0, None), true)])
  {
    var a, b, c := Prop("a", PIdent("a")), Prop("b", PIdent("b")), Prop("c", PIdent("c"));
    var s1 := scope - {"a"};
    var s3 := s1 - {"c"};
    assert PruneProp(scope, a) == ([], s1);
    assert PruneProp(s1, b) == ([b], s1);
    assert PruneProp(s1, c) == ([], s3);
    assert PruneProps(s3, []) == ([], s3);
    PrunePropsCons(s1, c, []);
    assert [c] == [c] + [];
    assert |PruneProps(s1, [c]).0| == 0;
    assert PruneProps(s1, [c]) == ([], s3);
    PrunePropsCons(s1, b, [c]);
    assert [b, c] == [b] + [c] && [b] + [] == [b];
    assert PruneProps(s1, [b, c]) == ([b], s3);
    PrunePropsCons(scope, a, [b, c]);
    assert [a, b, c] == [a] + [b, c];
    assert PruneProps(scope, [a, b, c]).0 == [] + [b] && [] + [b] == [b];
    assert PruneProps(scope, [a, b, c]) == ([b], s3);
    assert s3 == map["b" := Binding(DeclaredBy(0, None), true)];
  }

  /** `const {a, b: a} = x` with `a` unreferenced: the first property is removed and takes
      the binding with it, so the second, seeing no binding for `a`, stays. The result is
      `const {b: a} = x`, whose removable position still holds the name that was dead. */
  lemma RepeatedSlotKeptOnce(scope: Scope)
    requires scope == map["a" := Binding(DeclaredBy(0, None), false)]
    ensures PrunePattern(scope, PObject([Prop("a", PIdent("a")), Prop("b", PIdent("a"))]))
            == (PObject([Prop("b", PIdent("a"))]), map[])
    ensures !DistinctSlots(PObject([Prop("a", PIdent("a")), Prop("b", PIdent("a"))]))
    ensures "a" in Slots(PObject([Prop("b", PIdent("a"))])) * Dead(scope)
  {
    var a, b := Prop("a", PIdent("a")), Prop("b", PIdent("a"));
    var s1: Scope := map[];
    assert scope - {"a"} == s1;
    assert PruneProp(scope, a) == ([], s1);
    assert PrunePattern(s1, PIdent("a")) == (PIdent("a"), s1);
    assert PruneSlot(s1, PIdent("a")) == (Some(PIdent("a")), s1);
    assert PruneProp(s1, b) == ([b], s1);
    assert PruneProps(s1, []) == ([], s1);
    PrunePropsCons(s1, b, []);
    assert [b] == [b] + [];
    assert PruneProps(s1, [b]) == ([b], s1);
    PrunePropsCons(scope, a, [b]);
    assert [a, b] == [a] + [b];
    assert PruneProps(scope, [a, b]).0 == [] + [b] && [] + [b] == [b];
    assert PruneProps(scope, [a, b]) == ([b], s1);
    PropsCons(b, []);
    PropsCons(a, [b]);
  }
}
