/** When one union is a supertype of another. */
module Unions {
  import opened Types
  import opened Subtyping

  /** No union occurs in the type, but in what an interface declares and what is inside of others. */
  predicate NoUnion(t: Type)
    decreases t
  {
    !t.Union? && (t.Interface? ==> forall b | b in t.bases :: NoUnion(b))
  }

  /** A union of at least one type of `kinds`. */
  ghost predicate UnionOf(t: Type, kinds: iset<Type>) {
    t.Union? && t.options != [] && forall o | o in t.options :: o in kinds
  }

  ghost predicate TakesEach(x: Type, b: Type)
    requires b.Union?
  {
    forall o | o in b.options :: IsSupertype(x, o)
  }

  /** Some option of `a` takes the type. */
  ghost predicate Taken(a: Type, y: Type)
    requires a.Union?
  {
    exists x | x in a.options :: IsSupertype(x, y)
  }

  /** Some option of `a` is taken by the type. */
  ghost predicate Takes(a: Type, y: Type)
    requires a.Union?
  {
    exists x | x in a.options :: IsSupertype(y, x)
  }

  /** What a union ought to take: each option of the other is taken by one of its own. */
  ghost predicate Covers(a: Type, b: Type)
    requires a.Union? && b.Union?
  {
    forall y | y in b.options :: Taken(a, y)
  }

  /** What it does take: each option of the other takes one of its own. */
  ghost predicate CoversBackward(a: Type, b: Type)
    requires a.Union? && b.Union?
  {
    forall y | y in b.options :: Takes(a, y)
  }

  // ----- a type against a union -----

  lemma OptionsTaken(x: Type, b: Type)
    requires b.Union?
    ensures TakesOptions(x, b) <==> TakesEach(x, b)
  {
    if TakesEach(x, b) {
      forall k: nat | k < |b.options| ensures TakesOption(x, b, k) {
        assert b.options[k] in b.options;
      }
    }
    if TakesOptions(x, b) {
      forall o | o in b.options ensures IsSupertype(x, o) {
        var k: nat :| k < |b.options| && b.options[k] == o;
        assert TakesOption(x, b, k);
      }
    }
  }

  /** None of the options is a union, and there is one. */
  predicate Flat(b: Type) { b.Union? && b.options != [] && forall o | o in b.options :: !o.Union? }

  /** An interface takes no more than interfaces, and so do its ancestors. */
  lemma {:induction false} InterfaceTakesEach(x: Type, b: Type)
    requires x.Interface? && NoUnion(x) && Flat(b)
    ensures IsSupertype(x, b) <==> TakesEach(x, b)
    decreases x
  {
    OptionsTaken(x, b);
    assert HasMembersOf(x, b) <==> TakesOptions(x, b);
    if TakesEach(x, b) {
      forall k: nat | k < |x.bases| ensures BaseIsSupertype(x, k, b) {
        BaseTakesUnion(x, x.bases[k], b, k);
        assert x.bases[k] in x.bases;
        if x.bases[k].Interface? {
          InterfaceTakesEach(x.bases[k], b);
        } else {
          OthersTakeEach(x.bases[k], b);
          assert b.options[0] in b.options;
        }
      }
      assert BasesAreSupertypes(x, b);
    }
  }

  /** A base takes every option that the interface takes, and all of those are interfaces. */
  lemma BaseTakesUnion(x: Type, base: Type, b: Type, k: nat)
    requires x.Interface? && NoUnion(x) && Flat(b) && TakesEach(x, b)
    requires k < |x.bases| && base == x.bases[k]
    ensures TakesEach(base, b) && b.options[0].Interface? && IsSupertype(base, b.options[0]) && NoUnion(base)
  {
    assert b.options[0] in b.options && base in x.bases;
    InterfaceStep(x, b.options[0]);
    forall o | o in b.options ensures IsSupertype(base, o) {
      InterfaceStep(x, o);
      assert BaseIsSupertype(x, k, o);
    }
  }

  /** The other types take what they take of its options, but for those that take nothing but their like. */
  lemma OthersTakeEach(x: Type, b: Type)
    requires !x.Interface? && !x.Union? && b.Union?
    ensures IsSupertype(x, b) <==> x.Any? || (TakesEach(x, b) && !x.Void? && !x.Enum? && !x.Future?)
  {
    OptionsTaken(x, b);
  }

  lemma TypeTakesUnion(x: Type, b: Type)
    requires NoUnion(x) && Flat(b)
    ensures IsSupertype(x, b) <==> x.Any? || (TakesEach(x, b) && !x.Void? && !x.Enum? && !x.Future?)
  {
    if x.Interface? { InterfaceTakesEach(x, b); } else { OthersTakeEach(x, b); }
  }

  // ----- a union against a union -----

  lemma SomeOption(a: Type, b: Type)
    requires a.Union?
    ensures SomeIsSupertype(a, b) <==> Taken(a, b)
  {
    forall k | 0 <= k < |a.options| ensures OptionTakes(a, k, b) <==> IsSupertype(a.options[k], b) {
      assert a.options[k] in a.options;
    }
    if Taken(a, b) {
      var x :| x in a.options && IsSupertype(x, b);
      var k: nat :| k < |a.options| && a.options[k] == x;
      assert OptionTakes(a, k, b);
    } else {
      assert forall k | 0 <= k < |a.options| :: a.options[k] in a.options && !OptionTakes(a, k, b);
    }
  }

  lemma FoundBackward(a: Type, b: Type, y: nat)
    requires a.Union? && b.Union? && y < |b.options|
    ensures FoundIn(b, y, a) <==> Takes(a, b.options[y])
  {
    forall k | 0 <= k < |a.options| ensures OptionCovers(b, y, a, k) <==> IsSupertype(b.options[y], a.options[k]) {
      assert a.options[k] in a.options;
    }
    if Takes(a, b.options[y]) {
      var x :| x in a.options && IsSupertype(b.options[y], x);
      var k: nat :| k < |a.options| && a.options[k] == x;
      assert OptionCovers(b, y, a, k);
    } else {
      assert forall k | 0 <= k < |a.options| :: a.options[k] in a.options && !OptionCovers(b, y, a, k);
    }
  }

  /** What the comparison of two unions comes to. */
  lemma UnionTakesUnion(a: Type, b: Type)
    requires a.Union? && b.Union?
    ensures IsSupertype(a, b) <==> Taken(a, b) || CoversBackward(a, b)
  {
    SomeOption(a, b);
    if CoversBackward(a, b) {
      forall y: nat | y < |b.options| ensures FoundIn(b, y, a) {
        FoundBackward(a, b, y);
        assert b.options[y] in b.options;
      }
    }
    if forall y | 0 <= y < |b.options| :: FoundIn(b, y, a) {
      forall o | o in b.options ensures Takes(a, o) {
        var y: nat :| y < |b.options| && b.options[y] == o;
        FoundBackward(a, b, y);
      }
    }
  }

  // ----- when the comparison is right -----

  /** Unions of these types take each other as they ought to. */
  ghost predicate Compared(kinds: iset<Type>) {
    forall a: Type, b: Type {:trigger IsSupertype(a, b)} | UnionOf(a, kinds) && UnionOf(b, kinds) ::
      IsSupertype(a, b) <==> Covers(a, b)
  }

  ghost predicate Symmetric(kinds: iset<Type>) {
    forall x: Type, y: Type {:trigger IsSupertype(x, y)} | x in kinds && y in kinds && IsSupertype(x, y) ::
      IsSupertype(y, x)
  }

  /** `any` does not stand beside a type that it does not take. */
  ghost predicate AnyApart(kinds: iset<Type>) {
    Any in kinds ==> forall t | t in kinds :: IsSupertype(Any, t)
  }

  lemma Singles(x: Type, y: Type)
    requires NoUnion(x) && NoUnion(y)
    ensures var a, b := Union([x]), Union([y]);
            && (Covers(a, b) <==> IsSupertype(x, y))
            && (IsSupertype(a, b) <==>
               x.Any? || IsSupertype(y, x) || (IsSupertype(x, y) && !x.Void? && !x.Enum? && !x.Future?))
  {
    var a, b := Union([x]), Union([y]);
    assert x in a.options && y in b.options;
    UnionTakesUnion(a, b);
    TypeTakesUnion(x, b);
    assert Taken(a, b) <==> IsSupertype(x, b);
    assert Takes(a, y) <==> IsSupertype(y, x);
  }

  /**
   Unions of some types are compared rightly if and only if no two of the types are related one way only, and `any`,
     if it
   is one of them, takes all the others.
   */
  lemma ComparedExactly(kinds: iset<Type>)
    requires forall t | t in kinds :: NoUnion(t)
    ensures Compared(kinds) <==> Symmetric(kinds) && AnyApart(kinds)
  {
    if Compared(kinds) {
      forall x, y | x in kinds && y in kinds && IsSupertype(x, y) ensures IsSupertype(y, x) {
        Singles(y, x);
        assert UnionOf(Union([x]), kinds) && UnionOf(Union([y]), kinds);
      }
      if Any in kinds {
        forall t | t in kinds ensures IsSupertype(Any, t) {
          Singles(Any, t);
          assert UnionOf(Union([Any]), kinds) && UnionOf(Union([t]), kinds);
        }
      }
    }
    if Symmetric(kinds) && AnyApart(kinds) {
      forall a, b | UnionOf(a, kinds) && UnionOf(b, kinds) ensures IsSupertype(a, b) <==> Covers(a, b) {
        ComparedRightly(kinds, a, b);
      }
    }
  }

  lemma ComparedRightly(kinds: iset<Type>, a: Type, b: Type)
    requires forall t | t in kinds :: NoUnion(t)
    requires Symmetric(kinds) && AnyApart(kinds) && UnionOf(a, kinds) && UnionOf(b, kinds)
    ensures IsSupertype(a, b) <==> Covers(a, b)
  {
    UnionTakesUnion(a, b);
    forall y | y in b.options ensures Taken(a, y) <==> Takes(a, y) {
      EitherWay(kinds, a, y);
    }
    if Taken(a, b) {
      var x :| x in a.options && IsSupertype(x, b);
      TypeTakesUnion(x, b);
      forall y | y in b.options ensures Taken(a, y) {
        assert IsSupertype(x, y);
      }
    }
  }

  lemma EitherWay(kinds: iset<Type>, a: Type, y: Type)
    requires Symmetric(kinds) && UnionOf(a, kinds) && y in kinds
    ensures Taken(a, y) <==> Takes(a, y)
  {
    if Taken(a, y) {
      var x :| x in a.options && IsSupertype(x, y);
      assert IsSupertype(y, x);
    }
    if Takes(a, y) {
      var x :| x in a.options && IsSupertype(y, x);
      assert IsSupertype(x, y);
    }
  }

  // ----- unions that are compared wrongly -----

  /** Numbers take integers, so that the union with the smaller option is taken for the supertype. */
  lemma UnionsAreReversed()
    ensures var number, integer := Numeric(Number), Numeric(Int);
            && IsSupertype(Union([integer]), Union([number])) && !Covers(Union([integer]), Union([number]))
            && !Compared(iset{number, integer, Text})
  {
    var number, integer := Numeric(Number), Numeric(Int);
    assert IsSupertype(number, integer) && !IsSupertype(integer, number);
    Singles(integer, number);
    ComparedExactly(iset{number, integer, Text});
  }
}
