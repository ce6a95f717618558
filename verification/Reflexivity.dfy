/** Which types are supertypes of themselves. */
module Reflexivity {
  import opened Options
  import opened Types
  import opened Subtyping

  // ----- what an interface asks of its subtypes -----

  /** The interface, or an interface among its ancestors, declares the member. */
  predicate Declares(t: Type, m: Member)
    decreases t
  {
    t.Interface? && (m in t.members || exists b | b in t.bases :: Declares(b, m))
  }

  /** A type that is no interface stands among the ancestors. */
  predicate Extends(t: Type, a: Type)
    decreases t
  {
    t.Interface? && exists b | b in t.bases :: (b == a && !b.Interface?) || Extends(b, a)
  }

  /** The member is found in the interface `c`, with a type that the member takes. */
  predicate Fits(m: Member, c: Type) {
    var found := Lookup(c, m.name);
    found.Some? && IsSupertype(m.of, found.value)
  }

  /** Every member that is declared or inherited fits, and every other ancestor takes `c`. */
  ghost predicate Provides(t: Type, c: Type) {
    && (forall m {:trigger Declares(t, m)} | Declares(t, m) :: Fits(m, c))
    && forall a {:trigger Extends(t, a)} | Extends(t, a) :: IsSupertype(a, c)
  }

  lemma OwnMembersFit(t: Type, c: Type)
    requires t.Interface? && c.Interface?
    ensures HasMembersOf(t, c) <==> forall m | m in t.members :: Fits(m, c)
  {
    forall k: nat | k < |t.members| ensures MemberFits(t, k, c) <==> Fits(t.members[k], c) {
    }
    if HasMembersOf(t, c) {
      forall m | m in t.members ensures Fits(m, c) {
        var k: nat :| k < |t.members| && t.members[k] == m;
        assert MemberFits(t, k, c);
      }
    }
  }

  lemma BasesTake(t: Type, c: Type)
    requires t.Interface?
    ensures BasesAreSupertypes(t, c) <==> forall b | b in t.bases :: IsSupertype(b, c)
  {
    if forall b | b in t.bases :: IsSupertype(b, c) {
      forall k: nat | k < |t.bases| ensures BaseIsSupertype(t, k, c) {
        assert t.bases[k] in t.bases;
      }
    }
    if BasesAreSupertypes(t, c) {
      forall b | b in t.bases ensures IsSupertype(b, c) {
        var k: nat :| k < |t.bases| && t.bases[k] == b;
        assert BaseIsSupertype(t, k, c);
      }
    }
  }

  /** An interface takes another exactly if that provides all that the first and its ancestors ask for. */
  lemma {:induction false} TakesExactly(t: Type, c: Type)
    requires t.Interface? && c.Interface?
    ensures IsSupertype(t, c) <==> Provides(t, c)
    decreases t
  {
    OwnMembersFit(t, c);
    BasesTake(t, c);
    forall b | b in t.bases && b.Interface? ensures IsSupertype(b, c) <==> Provides(b, c) {
      TakesExactly(b, c);
    }
    if IsSupertype(t, c) { TakesAll(t, c); }
    if Provides(t, c) { ProvidedToBases(t, c); }
  }

  lemma TakesAll(t: Type, c: Type)
    requires t.Interface? && c.Interface?
    requires forall m | m in t.members :: Fits(m, c)
    requires forall b | b in t.bases :: IsSupertype(b, c) && (b.Interface? ==> Provides(b, c))
    ensures Provides(t, c)
  {
    hide Fits, IsSupertype;
    forall m | Declares(t, m) ensures Fits(m, c) {
      if m !in t.members {
        var b :| b in t.bases && Declares(b, m);
        assert Provides(b, c);
      }
    }
    forall a | Extends(t, a) ensures IsSupertype(a, c) {
      var b :| b in t.bases && ((b == a && !b.Interface?) || Extends(b, a));
      if Extends(b, a) { assert Provides(b, c); }
    }
  }

  lemma ProvidedToBases(t: Type, c: Type)
    requires t.Interface? && c.Interface? && Provides(t, c)
    requires forall b | b in t.bases && b.Interface? :: IsSupertype(b, c) <==> Provides(b, c)
    ensures forall m | m in t.members :: Fits(m, c)
    ensures forall b | b in t.bases :: IsSupertype(b, c)
  {
    hide Fits, IsSupertype;
    forall m | m in t.members ensures Fits(m, c) {
      assert Declares(t, m);
    }
    forall b | b in t.bases ensures IsSupertype(b, c) {
      if b.Interface? {
        forall m | Declares(b, m) ensures Fits(m, c) {
          assert Declares(t, m);
        }
        forall a | Extends(b, a) ensures IsSupertype(a, c) {
          assert Extends(t, a);
        }
        assert Provides(b, c);
      } else {
        assert Extends(t, b);
      }
    }
  }

  // ----- types that take themselves -----

  /** The interfaces that the type is made of are provided with all they ask for. */
  ghost predicate SelfProviding(t: Type)
    decreases t
  {
    match t
    case Array(e) => SelfProviding(e)
    case Future(w) => SelfProviding(w)
    case Function(r, ps) => SelfProviding(r) && forall p | p in ps :: SelfProviding(p)
    case Interface(_, _) => Provides(t, t)
    case _ => true
  }

  /**
   A type without unions takes itself if and only if in every interface it is made of each member, declared or inherited
   from any ancestor, takes the member that is found under its name.
   */
  lemma {:induction false} TakesItselfExactly(t: Type, kinds: set<Scalar>)
    requires Plain(t, kinds)
    ensures IsSupertype(t, t) <==> SelfProviding(t)
    decreases t
  {
    match t
    case Array(e) => TakesItselfExactly(e, kinds);
    case Future(w) => TakesItselfExactly(w, kinds);
    case Function(r, ps) =>
      TakesItselfExactly(r, kinds);
      forall p | p in ps ensures IsSupertype(p, p) <==> SelfProviding(p) {
        TakesItselfExactly(p, kinds);
      }
      FunctionTakesItself(t);
    case Interface(_, _) => TakesExactly(t, t);
    case _ =>
  }

  lemma FunctionTakesItself(t: Type)
    requires t.Function?
    ensures IsSupertype(t, t) <==> IsSupertype(t.result, t.result) && forall p | p in t.parameters :: IsSupertype(p, p)
  {
    if IsSupertype(t.result, t.result) && forall p | p in t.parameters :: IsSupertype(p, p) {
      forall k: nat | k < |t.parameters| ensures ParameterFits(t, t, k) {
        assert t.parameters[k] in t.parameters;
      }
      assert TakesPlain(t, t);
    }
    if IsSupertype(t, t) {
      assert TakesPlain(t, t);
      forall p | p in t.parameters ensures IsSupertype(p, p) {
        var k: nat :| k < |t.parameters| && t.parameters[k] == p;
        assert ParameterFits(t, t, k);
      }
    }
  }

  // ----- types that do not -----

  /** An interface that gives a member of its base another type is no supertype of itself. */
  lemma OverridingBreaksReflexivity()
    ensures var base := Interface([], [Member("x", Text)]);
            var t := Interface([base], [Member("x", Null)]);
            !IsSupertype(t, t)
  {
    var base := Interface([], [Member("x", Text)]);
    var t := Interface([base], [Member("x", Null)]);
    assert Lookup(t, "x") == Some(Null) && Declares(base, Member("x", Text)) && !Fits(Member("x", Text), t);
    assert base in t.bases && Declares(t, Member("x", Text));
    TakesExactly(t, t);
  }

  /** Nor is one whose bases give the same name different types, though it declares nothing. */
  lemma DiamondBreaksReflexivity()
    ensures var text, nothing := Interface([], [Member("x", Text)]), Interface([], [Member("x", Null)]);
            var t := Interface([text, nothing], []);
            !IsSupertype(t, t)
  {
    var text, nothing := Interface([], [Member("x", Text)]), Interface([], [Member("x", Null)]);
    var t := Interface([text, nothing], []);
    assert text.members[0] == Member("x", Text) && Lookup(text, "x") == Some(Text) && t.bases[0] == text;
    assert LookupInBases(t.bases, "x") == Some(Text);
    assert Lookup(t, "x") == Some(Text) && Declares(nothing, Member("x", Null)) && !Fits(Member("x", Null), t);
    assert nothing in t.bases && Declares(t, Member("x", Null));
    TakesExactly(t, t);
  }
}
