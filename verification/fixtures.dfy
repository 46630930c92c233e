/**
 Small hand-built runtimes mirroring the scenarios of lookup_tests.rb, with the
 lookup's answer on each worked out.  Ruby's built-in hierarchy appears only
 where a scenario needs it, cut down to `BasicObject`, `Kernel` and `Object`;
 elsewhere the scenario's own classes are roots.  Each class's
 `included_modules` lists its ancestors' modules too, as Ruby reports it.
 */
module Fixtures {
  import opened ObjectModel
  import opened Linearizer
  import opened Resolver

  function Pub(impl: Impl): Method { Method(impl, Public) }
  function Priv(impl: Impl): Method { Method(impl, Private) }

  /** A class (or singleton class) with parent `p`. */
  function Class(p: LinkId, methods: map<Name, Method>, included: seq<LinkId>): Link {
    Link(ClassLike(Some(p)), methods, included)
  }

  // ---- `TestWeirdAncestors`: a re-included module ----

  const M: LinkId := 4
  const A: LinkId := 5
  const B: LinkId := 6
  const C: LinkId := 7
  const C_SINGLETON: LinkId := 11

  const REINCLUDE := Runtime(
    map[
      M := Link(ModuleLink, map["say_hi" := Pub("M#say_hi")], []),
      A := Link(ClassLike(None), map[], [M]),
      B := Class(A, map["say_hi" := Pub("B#say_hi")], [M]),
      C := Class(B, map[], [M]),
      C_SINGLETON := Class(C, map[], [M])
    ],
    map[M := 0, A := 0, B := 1, C := 2, C_SINGLETON := 3])

  const C_OBJ := Obj(101, C_SINGLETON)

  lemma ReincludeWellFormed()
    ensures WellFormed(REINCLUDE)
  {
    assert REINCLUDE.links.Keys == {M, A, B, C, C_SINGLETON};
    forall id | id in REINCLUDE.links
      ensures id in REINCLUDE.depth && ParentRanked(REINCLUDE, id)
      ensures forall k :: k in REINCLUDE.links[id].includedModules ==> k in REINCLUDE.links
    {
    }
  }

  /** `B`, `C` and `c`'s singleton class all list `M`, which `A` already placed: none of them moves it. */
  lemma ReincludeOrder()
    requires WellFormed(REINCLUDE)
    ensures RealAncestors(REINCLUDE, Some(C_SINGLETON)) == [C_SINGLETON, C, B, A, M]
  {
    assert RealAncestors(REINCLUDE, Some(A)) == [A] + Minus([M], []) + [];
    ReincludeIsNoOp(REINCLUDE, B);
    ReincludeIsNoOp(REINCLUDE, C);
    ReincludeIsNoOp(REINCLUDE, C_SINGLETON);
  }

  lemma SayHiInReincludeOrder(chain: seq<LinkId>)
    requires chain == [C_SINGLETON, C, B, A, M]
    ensures AllExist(REINCLUDE, chain)
    ensures FindIn(REINCLUDE, chain, "say_hi", C_OBJ) == Some(BoundMethod(B, "B#say_hi", C_OBJ))
  {
    FindInFirstMatch(REINCLUDE, chain, "say_hi", C_OBJ, 2);
  }

  /** `C < B < A`, `A` includes `M`, `B` overrides `say_hi`, `C` re-includes `M`: `B`'s method is found. */
  lemma ReincludedModuleFindsOverride()
    ensures WellFormed(REINCLUDE)
    ensures Resolution(REINCLUDE, "say_hi", C_OBJ) == Some(BoundMethod(B, "B#say_hi", C_OBJ))
  {
    ReincludeWellFormed();
    ReincludeOrder();
    SayHiInReincludeOrder(RealAncestors(REINCLUDE, Some(C_SINGLETON)));
  }

  // ---- A module listed twice: `class B < A; include M; end`, then `class A; include M; end` ----

  const LATE_M: LinkId := 50
  const LATE_A: LinkId := 51
  const LATE_B: LinkId := 52
  const LATE_B_SINGLETON: LinkId := 53

  /** `B`'s `included_modules` walks `B`'s ancestors, where `M` now occurs twice. */
  const LATE_RT := Runtime(
    map[
      LATE_M := Link(ModuleLink, map["say_hi" := Pub("M#say_hi")], []),
      LATE_A := Link(ClassLike(None), map["say_hi" := Pub("A#say_hi")], [LATE_M]),
      LATE_B := Class(LATE_A, map[], [LATE_M, LATE_M]),
      LATE_B_SINGLETON := Class(LATE_B, map[], [LATE_M, LATE_M])
    ],
    map[LATE_M := 0, LATE_A := 0, LATE_B := 1, LATE_B_SINGLETON := 2])

  lemma LateIncludeWellFormed()
    ensures WellFormed(LATE_RT) && MixinInvariants(LATE_RT)
    ensures !Distinct(LATE_RT.links[LATE_B].includedModules)
  {
    assert LATE_RT.links.Keys == {LATE_M, LATE_A, LATE_B, LATE_B_SINGLETON};
    forall id | id in LATE_RT.links
      ensures id in LATE_RT.depth && ParentRanked(LATE_RT, id)
      ensures forall k :: k in LATE_RT.links[id].includedModules ==> k in LATE_RT.links
    {
    }
    assert LATE_RT.links[LATE_B].includedModules[0] == LATE_RT.links[LATE_B].includedModules[1];
  }

  /** The second listing of `M` is already in `A`'s order, so `B` and its instance's singleton class add nothing. */
  lemma LateIncludeOrder()
    requires WellFormed(LATE_RT)
    ensures RealAncestors(LATE_RT, Some(LATE_A)) == [LATE_A, LATE_M]
    ensures RealAncestors(LATE_RT, Some(LATE_B)) == [LATE_B, LATE_A, LATE_M]
    ensures RealAncestors(LATE_RT, Some(LATE_B_SINGLETON)) == [LATE_B_SINGLETON, LATE_B, LATE_A, LATE_M]
  {
    assert RealAncestors(LATE_RT, Some(LATE_A)) == [LATE_A] + Minus([LATE_M], []) + [];
    ReincludeIsNoOp(LATE_RT, LATE_B);
    ReincludeIsNoOp(LATE_RT, LATE_B_SINGLETON);
  }

  const LATE_B_OBJ := Obj(500, LATE_B_SINGLETON)

  lemma SayHiInLateOrder(chain: seq<LinkId>)
    requires chain == [LATE_B_SINGLETON, LATE_B, LATE_A, LATE_M]
    ensures AllExist(LATE_RT, chain)
    ensures FindIn(LATE_RT, chain, "say_hi", LATE_B_OBJ) == Some(BoundMethod(LATE_A, "A#say_hi", LATE_B_OBJ))
  {
    FindInFirstMatch(LATE_RT, chain, "say_hi", LATE_B_OBJ, 2);
  }

  /**
   When `A` and `M` both define `say_hi`, the lookup on an instance of `B`
   answers `A#say_hi`.  Ruby's own chain for `B` is `B, M, A, M`, so Ruby
   itself would run `M#say_hi`.
   */
  lemma LateIncludeFindsSuperclassMethod()
    ensures WellFormed(LATE_RT)
    ensures Resolution(LATE_RT, "say_hi", LATE_B_OBJ) == Some(BoundMethod(LATE_A, "A#say_hi", LATE_B_OBJ))
  {
    LateIncludeWellFormed();
    LateIncludeOrder();
    SayHiInLateOrder(RealAncestors(LATE_RT, Some(LATE_B_SINGLETON)));
  }

  /** A runtime whose `included_modules` repeats a module still meets the hypotheses of `AncestorsDistinct`. */
  lemma LateIncludeOrderDistinct()
    ensures WellFormed(LATE_RT) && MixinInvariants(LATE_RT) && AddedModulesDistinct(LATE_RT)
    ensures Distinct(RealAncestors(LATE_RT, Some(LATE_B)))
  {
    LateIncludeWellFormed();
    LateIncludeOrder();
    assert LATE_RT.links.Keys == {LATE_M, LATE_A, LATE_B, LATE_B_SINGLETON};
    assert Minus(LATE_RT.links[LATE_B].includedModules, [LATE_A, LATE_M]) == [];
    assert Minus(LATE_RT.links[LATE_B_SINGLETON].includedModules, [LATE_B, LATE_A, LATE_M]) == [];
    assert Minus(LATE_RT.links[LATE_A].includedModules, []) == [LATE_M];
    AncestorsDistinct(LATE_RT, Some(LATE_B));
  }

  // ---- `TestWeirdAncestors` and `TestFunkyPrivateMethodStuff`: `Kernel` and private methods ----

  const BASIC_OBJECT: LinkId := 0
  const KERNEL: LinkId := 1
  const OBJECT: LinkId := 2
  const UTENSIL: LinkId := 3
  const UTENSIL_SINGLETON: LinkId := 10
  const OBJECT_SINGLETON: LinkId := 12

  const KERNEL_RT := Runtime(
    map[
      BASIC_OBJECT := Link(ClassLike(None), map[], []),
      KERNEL := Link(ModuleLink, map["fork" := Priv("Kernel#fork"), "raise" := Priv("Kernel#raise")], []),
      OBJECT := Class(BASIC_OBJECT, map[], [KERNEL]),
      UTENSIL := Class(OBJECT, map["fork" := Pub("Utensil#fork")], [KERNEL]),
      UTENSIL_SINGLETON := Class(UTENSIL, map[], [KERNEL]),
      OBJECT_SINGLETON := Class(OBJECT, map[], [KERNEL])
    ],
    map[BASIC_OBJECT := 0, KERNEL := 0, OBJECT := 1, UTENSIL := 2, UTENSIL_SINGLETON := 3, OBJECT_SINGLETON := 2])

  const U_OBJ := Obj(100, UTENSIL_SINGLETON)
  const PLAIN_OBJ := Obj(102, OBJECT_SINGLETON)

  lemma KernelRanked()
    ensures Ranked(KERNEL_RT)
  {
    assert KERNEL_RT.links.Keys == {BASIC_OBJECT, KERNEL, OBJECT, UTENSIL, UTENSIL_SINGLETON, OBJECT_SINGLETON};
    forall id | id in KERNEL_RT.links
      ensures id in KERNEL_RT.depth && ParentRanked(KERNEL_RT, id)
    {
    }
  }

  lemma KernelWellFormed()
    ensures WellFormed(KERNEL_RT)
  {
    KernelRanked();
    assert KERNEL_RT.links.Keys == {BASIC_OBJECT, KERNEL, OBJECT, UTENSIL, UTENSIL_SINGLETON, OBJECT_SINGLETON};
    forall id | id in KERNEL_RT.links
      ensures forall k :: k in KERNEL_RT.links[id].includedModules ==> k in KERNEL_RT.links
    {
    }
  }

  /** `Object`'s `Kernel` goes after `Object`, ahead of `BasicObject`. */
  lemma ObjectOrder()
    requires WellFormed(KERNEL_RT)
    ensures RealAncestors(KERNEL_RT, Some(OBJECT)) == [OBJECT, KERNEL, BASIC_OBJECT]
  {
    assert RealAncestors(KERNEL_RT, Some(OBJECT)) == [OBJECT] + Minus([KERNEL], [BASIC_OBJECT]) + [BASIC_OBJECT];
  }

  /** The `Kernel` that `Utensil` and its singleton class list adds nothing in front of `Utensil`. */
  lemma UtensilOrder()
    requires WellFormed(KERNEL_RT)
    ensures RealAncestors(KERNEL_RT, Some(UTENSIL_SINGLETON)) == [UTENSIL_SINGLETON, UTENSIL, OBJECT, KERNEL, BASIC_OBJECT]
  {
    ObjectOrder();
    ReincludeIsNoOp(KERNEL_RT, UTENSIL);
    ReincludeIsNoOp(KERNEL_RT, UTENSIL_SINGLETON);
  }

  lemma PlainObjectOrder()
    requires WellFormed(KERNEL_RT)
    ensures RealAncestors(KERNEL_RT, Some(OBJECT_SINGLETON)) == [OBJECT_SINGLETON, OBJECT, KERNEL, BASIC_OBJECT]
  {
    ObjectOrder();
    ReincludeIsNoOp(KERNEL_RT, OBJECT_SINGLETON);
  }

  lemma ForkInUtensilOrder(chain: seq<LinkId>)
    requires chain == [UTENSIL_SINGLETON, UTENSIL, OBJECT, KERNEL, BASIC_OBJECT]
    ensures AllExist(KERNEL_RT, chain)
    ensures FindIn(KERNEL_RT, chain, "fork", U_OBJ) == Some(BoundMethod(UTENSIL, "Utensil#fork", U_OBJ))
  {
    FindInFirstMatch(KERNEL_RT, chain, "fork", U_OBJ, 1);
  }

  /** `Kernel`, listed by the singleton class, does not get ahead of `Utensil#fork`. */
  lemma UtensilForkFound()
    ensures WellFormed(KERNEL_RT)
    ensures Resolution(KERNEL_RT, "fork", U_OBJ) == Some(BoundMethod(UTENSIL, "Utensil#fork", U_OBJ))
  {
    KernelWellFormed();
    UtensilOrder();
    ForkInUtensilOrder(RealAncestors(KERNEL_RT, Some(UTENSIL_SINGLETON)));
  }

  lemma RaiseInObjectOrder(chain: seq<LinkId>)
    requires chain == [OBJECT_SINGLETON, OBJECT, KERNEL, BASIC_OBJECT]
    ensures AllExist(KERNEL_RT, chain)
    ensures FindIn(KERNEL_RT, chain, "raise", PLAIN_OBJ) == Some(BoundMethod(KERNEL, "Kernel#raise", PLAIN_OBJ))
  {
    FindInFirstMatch(KERNEL_RT, chain, "raise", PLAIN_OBJ, 2);
  }

  /** The private `Kernel#raise` is found on a plain object: private methods are not skipped. */
  lemma PrivateRaiseFound()
    ensures WellFormed(KERNEL_RT)
    ensures Resolution(KERNEL_RT, "raise", PLAIN_OBJ) == Some(BoundMethod(KERNEL, "Kernel#raise", PLAIN_OBJ))
  {
    KernelWellFormed();
    PlainObjectOrder();
    RaiseInObjectOrder(RealAncestors(KERNEL_RT, Some(OBJECT_SINGLETON)));
  }

  // ---- `TestSimpleStuff` and `TestSingletonMethods`: instance methods, per-instance methods, misses ----

  const FOOD: LinkId := 20
  const BAGEL_SINGLETON: LinkId := 21
  const PIZZA_SINGLETON: LinkId := 22
  const PIZZABAGEL_SINGLETON: LinkId := 23

  /**
   One `Food` stands for the two test classes of that name. Only the first defines
   `say_hi`, and only the second's instances carry `tastes`, so merging them
   changes none of the answers proved below.
   */
  const FOOD_RT := Runtime(
    map[
      FOOD := Link(ClassLike(None), map["initialize" := Priv("Food#initialize"), "say_hi" := Pub("Food#say_hi")], []),
      BAGEL_SINGLETON := Class(FOOD, map["tastes" := Pub("bagel.tastes")], []),
      PIZZA_SINGLETON := Class(FOOD, map["tastes" := Pub("pizza.tastes")], []),
      PIZZABAGEL_SINGLETON := Class(FOOD, map["tastes" := Pub("pizzabagel.tastes")], [])
    ],
    map[FOOD := 0, BAGEL_SINGLETON := 1, PIZZA_SINGLETON := 1, PIZZABAGEL_SINGLETON := 1])

  const BAGEL := Obj(200, BAGEL_SINGLETON)
  const PIZZA := Obj(201, PIZZA_SINGLETON)
  const PIZZABAGEL := Obj(202, PIZZABAGEL_SINGLETON)

  lemma FoodWellFormed()
    ensures WellFormed(FOOD_RT)
  {
    assert FOOD_RT.links.Keys == {FOOD, BAGEL_SINGLETON, PIZZA_SINGLETON, PIZZABAGEL_SINGLETON};
    forall id | id in FOOD_RT.links
      ensures id in FOOD_RT.depth && ParentRanked(FOOD_RT, id)
      ensures FOOD_RT.links[id].includedModules == []
    {
    }
  }

  /** Each per-instance singleton class is followed by `Food` alone. */
  lemma FoodOrders()
    requires WellFormed(FOOD_RT)
    ensures RealAncestors(FOOD_RT, Some(BAGEL_SINGLETON)) == [BAGEL_SINGLETON, FOOD]
    ensures RealAncestors(FOOD_RT, Some(PIZZA_SINGLETON)) == [PIZZA_SINGLETON, FOOD]
  {
    assert RealAncestors(FOOD_RT, Some(FOOD)) == [FOOD] + Minus([], []) + [];
    ReincludeIsNoOp(FOOD_RT, BAGEL_SINGLETON);
    ReincludeIsNoOp(FOOD_RT, PIZZA_SINGLETON);
  }

  lemma InstanceMethodInBagelOrder(chain: seq<LinkId>)
    requires chain == [BAGEL_SINGLETON, FOOD]
    ensures AllExist(FOOD_RT, chain)
    ensures FindIn(FOOD_RT, chain, "say_hi", BAGEL) == Some(BoundMethod(FOOD, "Food#say_hi", BAGEL))
  {
    FindInFirstMatch(FOOD_RT, chain, "say_hi", BAGEL, 1);
  }

  /** An ordinary instance method is found on the class, bound to the receiver. */
  lemma InstanceMethodFound()
    ensures WellFormed(FOOD_RT)
    ensures Resolution(FOOD_RT, "say_hi", BAGEL) == Some(BoundMethod(FOOD, "Food#say_hi", BAGEL))
  {
    FoodWellFormed();
    FoodOrders();
    InstanceMethodInBagelOrder(RealAncestors(FOOD_RT, Some(BAGEL_SINGLETON)));
  }

  /** Three instances of one class each resolve `tastes` to their own per-instance method. */
  lemma PerInstanceMethodsFound()
    ensures WellFormed(FOOD_RT)
    ensures Resolution(FOOD_RT, "tastes", BAGEL) == Some(BoundMethod(BAGEL_SINGLETON, "bagel.tastes", BAGEL))
    ensures Resolution(FOOD_RT, "tastes", PIZZA) == Some(BoundMethod(PIZZA_SINGLETON, "pizza.tastes", PIZZA))
    ensures Resolution(FOOD_RT, "tastes", PIZZABAGEL) ==
              Some(BoundMethod(PIZZABAGEL_SINGLETON, "pizzabagel.tastes", PIZZABAGEL))
  {
    FoodWellFormed();
    PerInstanceFirst(FOOD_RT, "tastes", BAGEL);
    PerInstanceFirst(FOOD_RT, "tastes", PIZZA);
    PerInstanceFirst(FOOD_RT, "tastes", PIZZABAGEL);
  }

  lemma UndefinedInPizzaOrder(chain: seq<LinkId>, msg: Name)
    requires chain == [PIZZA_SINGLETON, FOOD]
    requires msg !in {"tastes", "initialize", "say_hi"}
    ensures AllExist(FOOD_RT, chain)
    ensures FindIn(FOOD_RT, chain, msg, PIZZA) == None
  {
  }

  /** On `pizza`, every name that no link of its order defines resolves to nothing. */
  lemma UndefinedNotFound(msg: Name)
    requires msg !in {"tastes", "initialize", "say_hi"}
    ensures WellFormed(FOOD_RT)
    ensures Resolution(FOOD_RT, msg, PIZZA) == None
  {
    FoodWellFormed();
    FoodOrders();
    UndefinedInPizzaOrder(RealAncestors(FOOD_RT, Some(PIZZA_SINGLETON)), msg);
  }

  /** A name defined nowhere, and the names of instance variables, resolve to nothing. */
  lemma MissesNotFound()
    ensures WellFormed(FOOD_RT)
    ensures Resolution(FOOD_RT, "derp", PIZZA) == None
    ensures Resolution(FOOD_RT, "kind", PIZZA) == None
    ensures Resolution(FOOD_RT, "calories", PIZZA) == None
  {
    UndefinedNotFound("derp");
    UndefinedNotFound("kind");
    UndefinedNotFound("calories");
  }

  // ---- `TestIncludingModules`: a method found on an included module ----

  const GREETER: LinkId := 40
  const GREETED: LinkId := 41
  const GREETED_SINGLETON: LinkId := 42

  const MIXIN_RT := Runtime(
    map[
      GREETER := Link(ModuleLink, map["say_hi" := Pub("M#say_hi")], []),
      GREETED := Link(ClassLike(None), map[], [GREETER]),
      GREETED_SINGLETON := Class(GREETED, map[], [GREETER])
    ],
    map[GREETER := 0, GREETED := 0, GREETED_SINGLETON := 1])

  const GREETED_OBJ := Obj(400, GREETED_SINGLETON)

  lemma MixinWellFormed()
    ensures WellFormed(MIXIN_RT)
  {
    assert MIXIN_RT.links.Keys == {GREETER, GREETED, GREETED_SINGLETON};
    forall id | id in MIXIN_RT.links
      ensures id in MIXIN_RT.depth && ParentRanked(MIXIN_RT, id)
      ensures forall k :: k in MIXIN_RT.links[id].includedModules ==> k in MIXIN_RT.links
    {
    }
  }

  /** The included module stands right after the class; the singleton class's copy adds nothing. */
  lemma GreetedOrder()
    requires WellFormed(MIXIN_RT)
    ensures RealAncestors(MIXIN_RT, Some(GREETED_SINGLETON)) == [GREETED_SINGLETON, GREETED, GREETER]
  {
    assert RealAncestors(MIXIN_RT, Some(GREETED)) == [GREETED] + Minus([GREETER], []) + [];
    ReincludeIsNoOp(MIXIN_RT, GREETED_SINGLETON);
  }

  lemma ModuleMethodInGreetedOrder(chain: seq<LinkId>)
    requires chain == [GREETED_SINGLETON, GREETED, GREETER]
    ensures AllExist(MIXIN_RT, chain)
    ensures FindIn(MIXIN_RT, chain, "say_hi", GREETED_OBJ) == Some(BoundMethod(GREETER, "M#say_hi", GREETED_OBJ))
  {
    FindInFirstMatch(MIXIN_RT, chain, "say_hi", GREETED_OBJ, 2);
  }

  /** A method defined only on an included module is found there. */
  lemma ModuleMethodFound()
    ensures WellFormed(MIXIN_RT)
    ensures Resolution(MIXIN_RT, "say_hi", GREETED_OBJ) == Some(BoundMethod(GREETER, "M#say_hi", GREETED_OBJ))
  {
    MixinWellFormed();
    GreetedOrder();
    ModuleMethodInGreetedOrder(RealAncestors(MIXIN_RT, Some(GREETED_SINGLETON)));
  }

  // ---- `TestClassMethods`: class methods live on singleton classes, which inherit ----

  const FOO_SINGLETON: LinkId := 31
  const BAR_SINGLETON: LinkId := 32
  const BAZ_SINGLETON: LinkId := 33

  /** Above `Foo`'s singleton class Ruby has `Object`'s, `Class`, `Module` and the rest; they are left out. */
  const CLASSES_RT := Runtime(
    map[
      FOO_SINGLETON := Link(ClassLike(None), map["foo!" := Pub("Foo.foo!")], []),
      BAR_SINGLETON := Class(FOO_SINGLETON, map["bar!" := Pub("Bar.bar!")], []),
      BAZ_SINGLETON := Class(BAR_SINGLETON, map["baz!" := Pub("Baz.baz!")], [])
    ],
    map[FOO_SINGLETON := 0, BAR_SINGLETON := 1, BAZ_SINGLETON := 2])

  /** The class objects `Foo`, `Bar` and `Baz` as receivers. */
  const FOO_CLASS := Obj(300, FOO_SINGLETON)
  const BAR_CLASS := Obj(301, BAR_SINGLETON)
  const BAZ_CLASS := Obj(302, BAZ_SINGLETON)

  lemma ClassesWellFormed()
    ensures WellFormed(CLASSES_RT)
  {
    assert CLASSES_RT.links.Keys == {FOO_SINGLETON, BAR_SINGLETON, BAZ_SINGLETON};
    forall id | id in CLASSES_RT.links
      ensures id in CLASSES_RT.depth && ParentRanked(CLASSES_RT, id)
      ensures CLASSES_RT.links[id].includedModules == []
    {
    }
  }

  /** Each class finds the class method it defines itself. */
  lemma DirectClassMethodsFound()
    ensures WellFormed(CLASSES_RT)
    ensures Resolution(CLASSES_RT, "foo!", FOO_CLASS) == Some(BoundMethod(FOO_SINGLETON, "Foo.foo!", FOO_CLASS))
    ensures Resolution(CLASSES_RT, "bar!", BAR_CLASS) == Some(BoundMethod(BAR_SINGLETON, "Bar.bar!", BAR_CLASS))
    ensures Resolution(CLASSES_RT, "baz!", BAZ_CLASS) == Some(BoundMethod(BAZ_SINGLETON, "Baz.baz!", BAZ_CLASS))
  {
    ClassesWellFormed();
    PerInstanceFirst(CLASSES_RT, "foo!", FOO_CLASS);
    PerInstanceFirst(CLASSES_RT, "bar!", BAR_CLASS);
    PerInstanceFirst(CLASSES_RT, "baz!", BAZ_CLASS);
  }

  /** The class-method order follows the superclass chain. */
  lemma ClassOrders()
    requires WellFormed(CLASSES_RT)
    ensures RealAncestors(CLASSES_RT, Some(BAR_SINGLETON)) == [BAR_SINGLETON, FOO_SINGLETON]
    ensures RealAncestors(CLASSES_RT, Some(BAZ_SINGLETON)) == [BAZ_SINGLETON, BAR_SINGLETON, FOO_SINGLETON]
  {
    assert RealAncestors(CLASSES_RT, Some(FOO_SINGLETON)) == [FOO_SINGLETON] + Minus([], []) + [];
    ReincludeIsNoOp(CLASSES_RT, BAR_SINGLETON);
    ReincludeIsNoOp(CLASSES_RT, BAZ_SINGLETON);
  }

  lemma ClassMethodsInBazOrder(chain: seq<LinkId>)
    requires chain == [BAZ_SINGLETON, BAR_SINGLETON, FOO_SINGLETON]
    ensures AllExist(CLASSES_RT, chain)
    ensures FindIn(CLASSES_RT, chain, "foo!", BAZ_CLASS) == Some(BoundMethod(FOO_SINGLETON, "Foo.foo!", BAZ_CLASS))
    ensures FindIn(CLASSES_RT, chain, "bar!", BAZ_CLASS) == Some(BoundMethod(BAR_SINGLETON, "Bar.bar!", BAZ_CLASS))
  {
    FindInFirstMatch(CLASSES_RT, chain, "foo!", BAZ_CLASS, 2);
    FindInFirstMatch(CLASSES_RT, chain, "bar!", BAZ_CLASS, 1);
  }

  lemma ClassMethodInBarOrder(chain: seq<LinkId>)
    requires chain == [BAR_SINGLETON, FOO_SINGLETON]
    ensures AllExist(CLASSES_RT, chain)
    ensures FindIn(CLASSES_RT, chain, "foo!", BAR_CLASS) == Some(BoundMethod(FOO_SINGLETON, "Foo.foo!", BAR_CLASS))
  {
    FindInFirstMatch(CLASSES_RT, chain, "foo!", BAR_CLASS, 1);
  }

  /** Subclasses find the class methods of their superclasses, bound to themselves. */
  lemma AncestralClassMethodsFound()
    ensures WellFormed(CLASSES_RT)
    ensures Resolution(CLASSES_RT, "foo!", BAR_CLASS) == Some(BoundMethod(FOO_SINGLETON, "Foo.foo!", BAR_CLASS))
    ensures Resolution(CLASSES_RT, "foo!", BAZ_CLASS) == Some(BoundMethod(FOO_SINGLETON, "Foo.foo!", BAZ_CLASS))
    ensures Resolution(CLASSES_RT, "bar!", BAZ_CLASS) == Some(BoundMethod(BAR_SINGLETON, "Bar.bar!", BAZ_CLASS))
  {
    ClassesWellFormed();
    ClassOrders();
    ClassMethodInBarOrder(RealAncestors(CLASSES_RT, Some(BAR_SINGLETON)));
    ClassMethodsInBazOrder(RealAncestors(CLASSES_RT, Some(BAZ_SINGLETON)));
  }
}
