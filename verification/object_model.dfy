/**
 The part of Ruby's object model that method lookup reads: classes, singleton
 classes and modules ("links"), the methods each defines directly, the modules
 each reports as included, and the superclass of each class.  The model is a
 read-only value.  In Ruby, asking an object for its singleton class may
 create one; the model takes every receiver's singleton class to exist
 already.
 */
module ObjectModel {

  datatype Option<+T> = None | Some(value: T)

  /** Identity of a class, singleton class or module (compared by identity, as `Array#-` does). */
  type LinkId = nat

  /** A message name (a Ruby symbol such as `:say_hi`). */
  type Name = string

  /** Identity of a method body; two links defining the same name have different bodies. */
  type Impl = string

  datatype Visibility = Public | Protected | Private

  datatype Method = Method(impl: Impl, visibility: Visibility)

  /**
   A link either answers `superclass` (a class or a singleton class; the parent
   is `None` for the root `BasicObject`) or it does not (a module).
   */
  datatype LinkKind = ClassLike(parent: Option<LinkId>) | ModuleLink

  /**
   `methods` holds only the methods defined directly on this link.
   `includedModules` is what Ruby's `included_modules` answers: for a class it
   also lists the modules of all its ancestors, in Ruby's own order.
   */
  datatype Link = Link(kind: LinkKind, methods: map<Name, Method>, includedModules: seq<LinkId>)

  /** A receiver: its identity and its singleton class, whose parent is the object's class. */
  datatype Obj = Obj(id: nat, singletonClass: LinkId)

  /**
   A snapshot of the runtime.  `depth` is a proof device only: it witnesses that
   every superclass chain is finite.
   */
  datatype Runtime = Runtime(links: map<LinkId, Link>, ghost depth: map<LinkId, nat>)

  /** `a.instance_methods(false)`: public and protected methods defined directly on `a`. */
  function InstanceMethods(l: Link): (r: set<Name>)
    ensures r <= l.methods.Keys
    ensures forall n :: n in l.methods ==> (n in r <==> l.methods[n].visibility in {Public, Protected})
  {
    set n | n in l.methods && l.methods[n].visibility != Private
  }

  /** `a.private_instance_methods(false)`: private methods defined directly on `a`. */
  function PrivateInstanceMethods(l: Link): (r: set<Name>)
    ensures r <= l.methods.Keys
    ensures r !! InstanceMethods(l)
    ensures forall n :: n in l.methods ==> (n in r <==> l.methods[n].visibility == Private)
  {
    set n | n in l.methods && l.methods[n].visibility == Private
  }

  /**
   The names the lookup accepts at one link, the union of the two reflective
   queries: every directly defined method, whatever its visibility.
   */
  function OwnMethodNames(l: Link): (r: set<Name>)
    ensures r == l.methods.Keys
  {
    var r := InstanceMethods(l) + PrivateInstanceMethods(l);
    assert forall n :: n in r <==> n in l.methods;
    r
  }

  /** Every superclass exists and sits strictly lower in `depth`: superclass chains are acyclic. */
  ghost predicate Ranked(rt: Runtime) {
    forall id :: id in rt.links ==> id in rt.depth && ParentRanked(rt, id)
  }

  ghost predicate ParentRanked(rt: Runtime, id: LinkId)
    requires id in rt.links && id in rt.depth
  {
    match rt.links[id].kind
    case ClassLike(Some(p)) => p in rt.links && p in rt.depth && rt.depth[p] < rt.depth[id]
    case _ => true
  }

  /** Every module a link reports as included exists in the runtime. */
  ghost predicate Closed(rt: Runtime) {
    forall id :: id in rt.links ==> forall k :: k in rt.links[id].includedModules ==> k in rt.links
  }

  ghost predicate WellFormed(rt: Runtime) {
    Ranked(rt) && Closed(rt)
  }

  ghost predicate Distinct(s: seq<LinkId>) {
    forall i, j :: 0 <= i < j < |s| ==> s[i] != s[j]
  }

  /**
   What Ruby itself guarantees about `included_modules`: only modules are
   listed, and no link lists itself (a cyclic include is refused).  A module
   may be listed twice, for instance when a superclass later includes a
   module its subclass already included.
   */
  ghost predicate MixinInvariants(rt: Runtime) {
    forall id :: id in rt.links ==>
      && id !in rt.links[id].includedModules
      && forall k :: k in rt.links[id].includedModules ==> k in rt.links && rt.links[k].kind.ModuleLink?
  }
}
