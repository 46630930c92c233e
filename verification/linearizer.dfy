/**
 `Look.real_ancestors`: the order in which lookup visits the links above a
 starting link, most specific first.
 */
module Linearizer {
  import opened ObjectModel

  /** `r` can be obtained from `s` by deleting elements: same elements, same relative order. */
  ghost predicate IsSubsequence(r: seq<LinkId>, s: seq<LinkId>)
    decreases |s|
  {
    if r == [] then true
    else if s == [] then false
    else if r[0] == s[0] then IsSubsequence(r[1..], s[1..])
    else IsSubsequence(r, s[1..])
  }

  /** `s - t` on Ruby arrays: the elements of `s` that do not occur in `t`, in their order in `s`. */
  function Minus(s: seq<LinkId>, t: seq<LinkId>): (r: seq<LinkId>)
    ensures forall x :: x in r <==> x in s && x !in t
    ensures IsSubsequence(r, s)
    ensures Distinct(s) ==> Distinct(r)
    ensures r == [] <==> forall x :: x in s ==> x in t
  {
    if s == [] then []
    else
      var rest := Minus(s[1..], t);
      assert s == [s[0]] + s[1..];
      if s[0] in t then
        rest
      else
        assert ([s[0]] + rest)[1..] == rest;
        [s[0]] + rest
  }

  /**
   `s - t` keeps every copy of an element of `s` that is not in `t`: each
   element occurs in `s - t` exactly as often as in `s`, or not at all.
   */
  lemma {:induction false} MinusMultiplicity(s: seq<LinkId>, t: seq<LinkId>)
    ensures forall x :: multiset(Minus(s, t))[x] == if x in t then 0 else multiset(s)[x]
  {
    if s != [] {
      MinusMultiplicity(s[1..], t);
      assert s == [s[0]] + s[1..];
      assert multiset(s) == multiset([s[0]]) + multiset(s[1..]);
      if s[0] !in t {
        assert Minus(s, t) == [s[0]] + Minus(s[1..], t);
        assert multiset(Minus(s, t)) == multiset([s[0]]) + multiset(Minus(s[1..], t));
      }
    }
  }

  /** The ancestor search order from `a` (`nil` when `a` is `None`). */
  function RealAncestors(rt: Runtime, a: Option<LinkId>): (r: seq<LinkId>)
    requires WellFormed(rt)
    requires a.Some? ==> a.value in rt.links
    ensures a.None? <==> r == []
    ensures a.Some? ==> r[0] == a.value
    ensures forall x :: x in r ==> x in rt.links
    decreases if a.Some? then rt.depth[a.value] + 1 else 0
  {
    match a
    case None => []
    case Some(id) =>
      var link := rt.links[id];
      match link.kind
      case ClassLike(parent) =>
        var recResult := RealAncestors(rt, parent);
        var newModules := Minus(link.includedModules, recResult);
        [id] + newModules + recResult
      case ModuleLink =>
        [id] + link.includedModules
  }

  function Parent(rt: Runtime, id: LinkId): Option<LinkId>
    requires id in rt.links && rt.links[id].kind.ClassLike?
  {
    rt.links[id].kind.parent
  }

  /**
   For a class-like link: the link itself comes first, the parent's whole
   search order is an exact suffix, and in between stand the link's included
   modules that the parent's order does not already hold, in their own order
   and with every copy `included_modules` lists.
   */
  lemma AncestorsOfClass(rt: Runtime, id: LinkId)
    requires WellFormed(rt) && id in rt.links && rt.links[id].kind.ClassLike?
    ensures var r := RealAncestors(rt, Some(id));
            var tail := RealAncestors(rt, Parent(rt, id));
            var middle := r[1..|r| - |tail|];
            && |tail| < |r| && r[0] == id
            && r[|r| - |tail|..] == tail
            && IsSubsequence(middle, rt.links[id].includedModules)
            && (forall x :: x in middle <==> x in rt.links[id].includedModules && x !in tail)
            && forall x :: multiset(middle)[x] == if x in tail then 0 else multiset(rt.links[id].includedModules)[x]
  {
    var tail := RealAncestors(rt, Parent(rt, id));
    var middle := Minus(rt.links[id].includedModules, tail);
    var r := RealAncestors(rt, Some(id));
    assert r == [id] + middle + tail;
    assert r[1..|r| - |tail|] == middle;
    MinusMultiplicity(rt.links[id].includedModules, tail);
  }

  /** For a module: the module followed by exactly its `included_modules`. */
  lemma AncestorsOfModule(rt: Runtime, id: LinkId)
    requires WellFormed(rt) && id in rt.links && rt.links[id].kind.ModuleLink?
    ensures var r := RealAncestors(rt, Some(id));
            |r| == |rt.links[id].includedModules| + 1 && r[0] == id && r[1..] == rt.links[id].includedModules
  {
  }

  /**
   Under Ruby's own guarantees every class-like link reached from `a` sits no
   higher in `depth` than `a`; the rest are modules.
   */
  lemma {:induction false} ClassesBelow(rt: Runtime, a: LinkId)
    requires WellFormed(rt) && MixinInvariants(rt) && a in rt.links
    ensures forall x :: x in RealAncestors(rt, Some(a)) ==>
              rt.links[x].kind.ModuleLink? || rt.depth[x] <= rt.depth[a]
    decreases rt.depth[a]
  {
    var link := rt.links[a];
    match link.kind
    case ModuleLink =>
    case ClassLike(parent) =>
      var tail := RealAncestors(rt, parent);
      if parent.Some? {
        ClassesBelow(rt, parent.value);
        assert ParentRanked(rt, a);
      }
      assert RealAncestors(rt, Some(a)) == [a] + Minus(link.includedModules, tail) + tail;
  }

  /**
   A module that the parent's order already holds keeps its farther position:
   no link of the parent's order occurs before that order starts, so nothing
   from it is promoted ahead of the links placed in front of it.
   */
  lemma NoPromotion(rt: Runtime, id: LinkId)
    requires WellFormed(rt) && MixinInvariants(rt) && id in rt.links && rt.links[id].kind.ClassLike?
    ensures var r := RealAncestors(rt, Some(id));
            var tail := RealAncestors(rt, Parent(rt, id));
            |tail| < |r| && forall x :: x in tail ==> x !in r[..|r| - |tail|]
  {
    var parent := Parent(rt, id);
    var tail := RealAncestors(rt, parent);
    var middle := Minus(rt.links[id].includedModules, tail);
    var r := RealAncestors(rt, Some(id));
    assert r == [id] + middle + tail;
    assert r[..|r| - |tail|] == [id] + middle;
    if parent.Some? {
      ClassesBelow(rt, parent.value);
      assert ParentRanked(rt, id);
    }
  }

  /**
   Re-including a module that an ancestor already includes does nothing:
   the order is the link followed by its parent's order.
   */
  lemma ReincludeIsNoOp(rt: Runtime, id: LinkId)
    requires WellFormed(rt) && id in rt.links && rt.links[id].kind.ClassLike?
    requires forall k :: k in rt.links[id].includedModules ==> k in RealAncestors(rt, Parent(rt, id))
    ensures RealAncestors(rt, Some(id)) == [id] + RealAncestors(rt, Parent(rt, id))
  {
  }

  lemma DistinctConcat(s: seq<LinkId>, t: seq<LinkId>)
    requires Distinct(s) && Distinct(t)
    requires forall x :: x in s ==> x !in t
    ensures Distinct(s + t)
  {
    forall i, j | 0 <= i < j < |s + t|
      ensures (s + t)[i] != (s + t)[j]
    {
      if j < |s| {
      } else if i >= |s| {
        assert (s + t)[i] == t[i - |s|] && (s + t)[j] == t[j - |s|];
      } else {
        assert (s + t)[i] in s && (s + t)[j] in t;
      }
    }
  }

  /**
   The assumption under which the order has no repeats: the modules a link
   adds to its order are listed once.  For a class these are only the
   included modules its parent's order does not already hold, so a module
   that `included_modules` lists twice because an ancestor also includes it
   is allowed.
   */
  ghost predicate AddedModulesDistinct(rt: Runtime)
    requires WellFormed(rt)
  {
    forall id :: id in rt.links ==>
      match rt.links[id].kind
      case ClassLike(parent) => Distinct(Minus(rt.links[id].includedModules, RealAncestors(rt, parent)))
      case ModuleLink => Distinct(rt.links[id].includedModules)
  }

  /** Duplicate-free `included_modules` lists are one way to meet `AddedModulesDistinct`. */
  lemma DistinctIncludedModulesSuffice(rt: Runtime)
    requires WellFormed(rt)
    requires forall id :: id in rt.links ==> Distinct(rt.links[id].includedModules)
    ensures AddedModulesDistinct(rt)
  {
  }

  /**
   Under Ruby's own guarantees (included modules are modules, never the link
   itself) and the assumption that each link adds distinct modules, the search
   order never visits a link twice.
   */
  lemma {:induction false} AncestorsDistinct(rt: Runtime, a: Option<LinkId>)
    requires WellFormed(rt) && MixinInvariants(rt) && AddedModulesDistinct(rt)
    requires a.Some? ==> a.value in rt.links
    ensures Distinct(RealAncestors(rt, a))
    decreases if a.Some? then rt.depth[a.value] + 1 else 0
  {
    match a
    case None =>
    case Some(id) =>
      var link := rt.links[id];
      match link.kind
      case ModuleLink =>
        DistinctConcat([id], link.includedModules);
      case ClassLike(parent) =>
        var tail := RealAncestors(rt, parent);
        var middle := Minus(link.includedModules, tail);
        if parent.Some? {
          assert ParentRanked(rt, id);
          ClassesBelow(rt, parent.value);
        }
        AncestorsDistinct(rt, parent);
        DistinctConcat([id], middle);
        DistinctConcat([id] + middle, tail);
        assert RealAncestors(rt, a) == [id] + middle + tail;
  }
}
