/**
 `Look.up` and `Look.up_helper`: which implementation Ruby would run for a
 message sent to an object, found without sending it.
 */
module Resolver {
  import opened ObjectModel
  import opened Linearizer

  /** What `unbound_meth.bind(obj)` yields: the defining link, its implementation and the receiver. */
  datatype BoundMethod = BoundMethod(owner: LinkId, impl: Impl, receiver: Obj)

  /** Link `id` itself defines `msg`, with any visibility. */
  predicate Defines(rt: Runtime, id: LinkId, msg: Name)
    requires id in rt.links
  {
    msg in rt.links[id].methods
  }

  /**
   The implementation `a.instance_method(msg)` finds when `a` itself defines
   `msg`: the body of `a`'s own method of that name, private ones included.
   */
  function OwnImpl(rt: Runtime, id: LinkId, msg: Name): (r: Impl)
    requires id in rt.links && Defines(rt, id, msg)
    ensures exists v: Visibility :: rt.links[id].methods[msg] == Method(r, v)
  {
    rt.links[id].methods[msg].impl
  }

  ghost predicate AllExist(rt: Runtime, chain: seq<LinkId>) {
    forall i :: 0 <= i < |chain| ==> chain[i] in rt.links
  }

  /** The first link of `chain` that defines `msg`, bound to `obj`; `None` when there is none. */
  function FindIn(rt: Runtime, chain: seq<LinkId>, msg: Name, obj: Obj): (r: Option<BoundMethod>)
    requires AllExist(rt, chain)
    ensures r.None? <==> forall i :: 0 <= i < |chain| ==> !Defines(rt, chain[i], msg)
    ensures r.Some? ==>
              && r.value.receiver == obj
              && r.value.owner in chain
              && Defines(rt, r.value.owner, msg)
              && r.value.impl == OwnImpl(rt, r.value.owner, msg)
  {
    if chain == [] then None
    else if Defines(rt, chain[0], msg) then Some(BoundMethod(chain[0], OwnImpl(rt, chain[0], msg), obj))
    else
      var r := FindIn(rt, chain[1..], msg, obj);
      assert forall i :: 1 <= i < |chain| ==> chain[i] == chain[1..][i - 1];
      r
  }

  /** The first link that defines `msg` is the one found: no later definition can shadow it. */
  lemma {:induction false} FindInFirstMatch(rt: Runtime, chain: seq<LinkId>, msg: Name, obj: Obj, i: nat)
    requires AllExist(rt, chain)
    requires i < |chain| && Defines(rt, chain[i], msg)
    requires forall j :: 0 <= j < i ==> !Defines(rt, chain[j], msg)
    ensures FindIn(rt, chain, msg, obj) == Some(BoundMethod(chain[i], OwnImpl(rt, chain[i], msg), obj))
  {
    if i > 0 {
      FindInFirstMatch(rt, chain[1..], msg, obj, i - 1);
    }
  }

  /** Scanning `s + t` finds what `s` finds, and otherwise what `t` finds. */
  lemma {:induction false} FindInConcat(rt: Runtime, s: seq<LinkId>, t: seq<LinkId>, msg: Name, obj: Obj)
    requires AllExist(rt, s) && AllExist(rt, t)
    ensures AllExist(rt, s + t)
    ensures FindIn(rt, s + t, msg, obj) ==
              if FindIn(rt, s, msg, obj).Some? then FindIn(rt, s, msg, obj) else FindIn(rt, t, msg, obj)
  {
    if s != [] {
      FindInConcat(rt, s[1..], t, msg, obj);
      assert (s + t)[1..] == s[1..] + t;
    } else {
      assert s + t == t;
    }
  }

  /** The resolution `Look.up(msg, obj)` denotes: a scan of the order from the singleton class. */
  function Resolution(rt: Runtime, msg: Name, obj: Obj): Option<BoundMethod>
    requires WellFormed(rt) && obj.singletonClass in rt.links
  {
    FindIn(rt, RealAncestors(rt, Some(obj.singletonClass)), msg, obj)
  }

  /**
   A method defined on the receiver itself (on its singleton class) is the one
   found, ahead of every class and module definition of the same name.
   */
  lemma PerInstanceFirst(rt: Runtime, msg: Name, obj: Obj)
    requires WellFormed(rt) && obj.singletonClass in rt.links
    requires Defines(rt, obj.singletonClass, msg)
    ensures Resolution(rt, msg, obj) == Some(BoundMethod(obj.singletonClass, OwnImpl(rt, obj.singletonClass, msg), obj))
  {
    FindInFirstMatch(rt, RealAncestors(rt, Some(obj.singletonClass)), msg, obj, 0);
  }

  /**
   A method that a class-like link does not define itself, and that none of
   the modules it adds in front of its parent define, is found exactly where
   the parent's lookup finds it: inherited methods are found up the chain.
   */
  lemma Inherited(rt: Runtime, id: LinkId, msg: Name, obj: Obj)
    requires WellFormed(rt) && id in rt.links && rt.links[id].kind.ClassLike?
    requires !Defines(rt, id, msg)
    requires forall k :: k in Minus(rt.links[id].includedModules, RealAncestors(rt, Parent(rt, id))) ==> !Defines(rt, k, msg)
    ensures FindIn(rt, RealAncestors(rt, Some(id)), msg, obj) == FindIn(rt, RealAncestors(rt, Parent(rt, id)), msg, obj)
  {
    var tail := RealAncestors(rt, Parent(rt, id));
    var front := [id] + Minus(rt.links[id].includedModules, tail);
    FindInConcat(rt, front, tail, msg, obj);
    assert RealAncestors(rt, Some(id)) == front + tail;
  }

  /**
   A class-like link that defines no `msg` itself and only re-includes modules
   its parent's order already holds resolves `msg` exactly as its parent does:
   a re-included module cannot shadow an override between it and the link.
   A corollary of `Inherited`, since such a link adds no modules.
   */
  lemma ReincludedModuleDoesNotShadow(rt: Runtime, id: LinkId, msg: Name, obj: Obj)
    requires WellFormed(rt) && id in rt.links && rt.links[id].kind.ClassLike?
    requires !Defines(rt, id, msg)
    requires forall k :: k in rt.links[id].includedModules ==> k in RealAncestors(rt, Parent(rt, id))
    ensures FindIn(rt, RealAncestors(rt, Some(id)), msg, obj) == FindIn(rt, RealAncestors(rt, Parent(rt, id)), msg, obj)
  {
    Inherited(rt, id, msg, obj);
  }

  /**
   `Look.up_helper`: walks the search order from `ancestor` and stops at the
   first link whose own methods include `msg`.
   */
  method UpHelper(rt: Runtime, msg: Name, obj: Obj, ancestor: LinkId) returns (r: Option<BoundMethod>)
    requires WellFormed(rt) && ancestor in rt.links
    ensures r == FindIn(rt, RealAncestors(rt, Some(ancestor)), msg, obj)
  {
    var chain := RealAncestors(rt, Some(ancestor));
    var i := 0;
    while i < |chain|
      invariant 0 <= i <= |chain|
      invariant forall j :: 0 <= j < i ==> !Defines(rt, chain[j], msg)
    {
      var a := chain[i];
      var instanceMeths := OwnMethodNames(rt.links[a]);
      if msg in instanceMeths {
        FindInFirstMatch(rt, chain, msg, obj, i);
        return Some(BoundMethod(a, rt.links[a].methods[msg].impl, obj));
      }
      i := i + 1;
    }
    return None;
  }

  /**
   `Look.up`: the lookup starts at the receiver's singleton class, so a
   method defined on the object itself wins over every class and module.
   */
  method Up(rt: Runtime, msg: Name, obj: Obj) returns (r: Option<BoundMethod>)
    requires WellFormed(rt) && obj.singletonClass in rt.links
    ensures r == Resolution(rt, msg, obj)
    ensures Defines(rt, obj.singletonClass, msg) ==>
              r == Some(BoundMethod(obj.singletonClass, OwnImpl(rt, obj.singletonClass, msg), obj))
  {
    r := UpHelper(rt, msg, obj, obj.singletonClass);
    if Defines(rt, obj.singletonClass, msg) {
      PerInstanceFirst(rt, msg, obj);
    }
  }
}
