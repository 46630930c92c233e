# Look: method lookup in Ruby's object model

`Look` (look.rb) finds the method to run when a message is sent to an object,
without sending the message. Its answer matches Ruby's own in the common
cases. It can differ when `included_modules` lists a module twice, or after
`undef_method` (see "## Left out"). `Look.up(msg, obj)` starts at the
receiver's singleton class. `Look.real_ancestors` lists the search order:
for a class-like link, the link comes first; after it come the included
modules that the parent's order does not already hold; the parent's whole
order comes last. For a module, the order is the module followed by its
`included_modules`. `Look.up_helper` walks that order and returns the first
link's own method named `msg`, public, protected or private, bound to the
receiver. When no link defines `msg` it returns `nil`.

The model has four modules:

- `ObjectModel` (object_model.dfy) holds the part of the runtime the lookup
  reads:
  - links (classes, singleton classes and modules) and their superclasses;
  - the methods defined directly on each link, with their visibility;
  - the `included_modules` each link reports.

  The runtime is an immutable value. In Ruby, `obj.singleton_class` (look.rb:3)
  can create the receiver's singleton class. The model takes that class to
  exist already (see `Up` under "## Left out"). A ghost `depth` map witnesses
  that superclass chains are finite.
- `Linearizer` (linearizer.dfy) covers `real_ancestors`, written as a
  recursive function. It also models Ruby's `Array#-` and proves the shape of
  the order.
- `Resolver` (resolver.dfy) covers `up_helper` and `up`:
  - a specification function `FindIn` (first defining link of a chain);
  - the loop method `UpHelper`, proved against `FindIn`;
  - `Up`;
  - lemmas on how lookup behaves.
- `Fixtures` (fixtures.dfy) builds small runtimes for the scenarios of
  lookup_tests.rb and proves what the lookup answers on each.

## Model

| member | source | states |
|---|---|---|
| ObjectModel.InstanceMethods | look.rb:8 | `instance_methods(false)`: of the names the link defines itself, exactly the public and protected ones |
| ObjectModel.PrivateInstanceMethods | look.rb:8 | `private_instance_methods(false)`: of the names the link defines itself, exactly the private ones, disjoint from `instance_methods(false)` |
| ObjectModel.OwnMethodNames | look.rb:8 | the union of the two queries is exactly the set of names the link defines itself, whatever their visibility |
| Resolver.OwnImpl | look.rb:10 | `a.instance_method(msg)` for a link that defines `msg`: the body of that link's own method named `msg`, whatever its visibility |
| Linearizer.Minus | look.rb:23 | `s - t` holds exactly the elements of `s` that are not in `t`, and is a subsequence of `s` (their order in `s`). It has no duplicates when `s` has none, and is empty iff every element of `s` is in `t` |
| Linearizer.MinusMultiplicity | look.rb:23 | every copy is kept: each element occurs in `s - t` as often as in `s`, or not at all when it is in `t`. Together with the subsequence property, this fixes `s - t` uniquely |
| Linearizer.RealAncestors | look.rb:17-29 | `nil` gives the empty order and only `nil` does; otherwise the order starts with the link itself; every element is a link of the runtime |
| Linearizer.AncestorsOfClass | look.rb:21-24 | for a class-like link: the link comes first and the parent's order is an exact suffix. In between stand the link's included modules that are not already in that suffix, in their own order, with every copy kept |
| Linearizer.AncestorsOfModule | look.rb:25-26 | for a module: the module followed by exactly its `included_modules` |
| Linearizer.ClassesBelow | look.rb:21-24 | when `included_modules` lists only modules, never the link itself, every class-like link of the order from `a` sits no higher than `a` |
| Linearizer.NoPromotion | look.rb:22-24 | no link of the parent's order also appears before it, so a module already placed by an ancestor is not moved forward |
| Linearizer.ReincludeIsNoOp | look.rb:23 | a class whose included modules are all in its parent's order has exactly its parent's order behind it |
| Linearizer.DistinctIncludedModulesSuffice | look.rb:23 | duplicate-free `included_modules` lists meet the assumption of `AncestorsDistinct`, which is weaker |
| Linearizer.AncestorsDistinct | look.rb:17-29 | the order lists no link twice, when `included_modules` lists only modules, never the link itself, and each link adds distinct modules. A module that `included_modules` repeats because an ancestor also includes it is allowed |
| Resolver.FindIn | look.rb:7-14 | the result is `nil` iff no link of the chain defines `msg`; otherwise it is a method some link of the chain defines, with that link's implementation, bound to `obj` |
| Resolver.FindInFirstMatch | look.rb:7-12 | the first link that defines `msg` is the one returned |
| Resolver.FindInConcat | look.rb:7-14 | scanning `s + t` returns what `s` returns, and otherwise what `t` returns |
| Resolver.PerInstanceFirst | look.rb:2-4 | a method on the receiver's singleton class beats every class and module definition |
| Resolver.Inherited | look.rb:21-24 | when a class and the modules it adds do not define `msg`, its lookup answers what its parent's lookup answers |
| Resolver.ReincludedModuleDoesNotShadow | look.rb:23 | re-including a module an ancestor already includes cannot shadow an override between them |
| Resolver.UpHelper | look.rb:6-15 | the loop returns the first defining link of the order from `ancestor`, bound to `obj`, or `nil` |
| Resolver.Up | look.rb:2-4 | `up` is the lookup from the singleton class; a singleton method of the receiver is the answer |
| Fixtures.ReincludeOrder | lookup_tests.rb:148-163 | `C` re-including `M` leaves `M` behind `A`: order `c`'s singleton, `C`, `B`, `A`, `M` |
| Fixtures.ReincludedModuleFindsOverride | lookup_tests.rb:165-171 | `say_hi` on an instance of `C` finds `B#say_hi`, not `M#say_hi` |
| Fixtures.LateIncludeWellFormed | look.rb:21-24 | a subclass includes `M`, then its superclass includes `M`: the subclass's `included_modules` lists `M` twice |
| Fixtures.LateIncludeOrder | look.rb:21-24 | in that runtime the second listing of `M` adds nothing: the order is `B`, `A`, `M` |
| Fixtures.LateIncludeFindsSuperclassMethod | look.rb:2-4 | in that runtime, with `say_hi` on both `A` and `M`, `up(:say_hi, b)` on an instance of `B` answers `A#say_hi` |
| Fixtures.LateIncludeOrderDistinct | look.rb:17-29 | that runtime meets the hypotheses of `AncestorsDistinct`, and its order has no repeats |
| Fixtures.UtensilOrder | lookup_tests.rb:136-141 | `Kernel`, listed again by `Utensil`, stays behind `Object` |
| Fixtures.UtensilForkFound | lookup_tests.rb:143-146 | `fork` on a `Utensil` finds `Utensil#fork`, not `Kernel#fork` |
| Fixtures.PrivateRaiseFound | lookup_tests.rb:130-132 | `raise` on a plain object finds the private `Kernel#raise` |
| Fixtures.InstanceMethodFound | lookup_tests.rb:15-19 | `say_hi` on a `Food` finds `Food#say_hi` bound to that food |
| Fixtures.UndefinedNotFound | lookup_tests.rb:21-33 | every name no link of a food's order defines resolves to `nil` |
| Fixtures.MissesNotFound | lookup_tests.rb:21-33 | `derp`, `kind` and `calories` resolve to `nil` |
| Fixtures.PerInstanceMethodsFound | lookup_tests.rb:62-83 | three foods each resolve `tastes` to their own singleton method |
| Fixtures.GreetedOrder | lookup_tests.rb:36-45 | the included module stands right after the class that includes it |
| Fixtures.ModuleMethodFound | lookup_tests.rb:47-51 | `say_hi` is found on the included module |
| Fixtures.ClassOrders | lookup_tests.rb:86-103 | class methods are searched along the singleton classes' superclass chain |
| Fixtures.DirectClassMethodsFound | lookup_tests.rb:105-112 | `Foo.foo!`, `Bar.bar!` and `Baz.baz!` are found on each class's singleton class |
| Fixtures.AncestralClassMethodsFound | lookup_tests.rb:114-121 | `Bar` and `Baz` find the class methods of their superclasses, bound to themselves |

## Left out

- Reflection (`instance_methods`, `instance_method`, `bind`) is not executed. A link's methods are a map, and the bound method is a value naming the owner, the implementation and the receiver. Calling the bound method (`.call` in lookup_tests.rb) is not modelled.
- Ruby's real built-in hierarchy is not modelled. Only the `Kernel` scenarios have `BasicObject`, `Kernel` and `Object`. The other scenarios make their own classes roots, and the class-method scenario leaves out the metaclass chain above `Foo`'s singleton class.
- The check that `include` is found on `Class` and `Module` but not on a plain object (lookup_tests.rb:125-129) is not modelled, because it needs the real `Module` and `Class` with their method tables.
- `RealAncestors`, `UpHelper`, `Up`: acyclic superclass chains are a precondition, expressed by `depth`. Ruby does not let a cyclic superclass chain be created, and look.rb does not check for one. No error for a malformed graph is modelled.
- The order is look.rb's, not Ruby's own `ancestors`. Take a class `B < A` that includes `M`, after which `A` also includes `M`. Ruby's chain for `B` is `B, M, A, M`, but look.rb:23 drops the first `M` because `A`'s order already holds it, and builds `B, A, M` (`Fixtures.LateIncludeOrder`). When `A` and `M` both define a method, Ruby runs `M`'s while look.rb answers `A`'s (`Fixtures.LateIncludeFindsSuperclassMethod`). The model proves look.rb's answer and does not model Ruby's chain.
- Protected methods are accepted, because `instance_methods(false)` (look.rb:8) returns public and protected methods.
- UpHelper: `unbound_meth.bind(obj)` (look.rb:11) raises `TypeError` when the method's owner is a class that `obj` is not an instance of. That happens when `up_helper` is called directly with an `ancestor` outside `obj`'s order. `UpHelper` does not relate `obj` to `ancestor` and returns the bound method anyway. `Up` never reaches this case, because its order starts at `obj`'s singleton class.
- OwnImpl: `a.instance_method(msg)` (look.rb:10) does a full lookup from `a`. When `a` prepends a module that defines `msg`, it returns the prepended module's method, not `a`'s own. The object model has no `prepend`, so `OwnImpl` reads only `a`'s own table.
- Up: the model takes every receiver to have its singleton class already. In Ruby, `obj.singleton_class` at look.rb:3 creates it on first use. The created class defines nothing and lists only its class's modules, so by `Resolver.ReincludedModuleDoesNotShadow` no answer changes.
- Up: receivers for which look.rb:3 raises are not modelled:
  - immediates such as integers and symbols, where `singleton_class` raises `TypeError`;
  - instances of `BasicObject` and of classes deriving from it directly, which lack `singleton_class` because it is defined in `Kernel`, so it raises `NoMethodError`.
- After `undef_method :m` on a link, `instance_methods(false)` omits `m`, so look.rb:8-9 passes that link and answers an ancestor's `m`, while Ruby itself raises `NoMethodError`. Undefined methods are not modelled; a link's method table holds only defined methods.
- The cost of `Array#-` is not modelled, and neither are concurrent changes to classes during a lookup.
- Message names and method bodies are strings. A method body is identified by its name alone.
