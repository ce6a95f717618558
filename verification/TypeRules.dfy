/** The rules of subtyping, one for each kind of type, in terms of the parts of the types alone. */
module TypeRules {
  import opened Options
  import opened Types
  import opened PtrLists

  /** The parameters of a function are compared the other way round than its result. */
  lemma FunctionsExactly(f: Type, g: Type)
    requires f.Function? && g.Function?
    ensures IsSupertype(f, g) <==>
            && |f.parameters| == |g.parameters| && IsSupertype(f.result, g.result)
            && forall k: nat | k < |f.parameters| :: IsSupertype(g.parameters[k], f.parameters[k])
  {
    assert IsSupertype(f, g) <==> TakesPlain(f, g);
    if |f.parameters| == |g.parameters| {
      forall k: nat | k < |f.parameters|
        ensures ParameterFits(f, g, k) <==> IsSupertype(g.parameters[k], f.parameters[k])
      {
      }
    }
    if TakesPlain(f, g) {
      forall k: nat | k < |f.parameters| ensures IsSupertype(g.parameters[k], f.parameters[k]) {
        assert ParameterFits(f, g, k);
      }
    }
  }

  /** So a function for all numbers stands in for one for integers, and not the other way round. */
  lemma ParametersAreContravariant()
    ensures var all, some := Function(Void, [Numeric(Number)]), Function(Void, [Numeric(Int)]);
            IsSupertype(some, all) && !IsSupertype(all, some)
  {
    var all, some := Function(Void, [Numeric(Number)]), Function(Void, [Numeric(Int)]);
    hide IsSupertype, TAKEN;
    FunctionsExactly(some, all);
    FunctionsExactly(all, some);
    assert all.parameters[0] == Numeric(Number) && some.parameters[0] == Numeric(Int);
    NumbersAndIntegers();
    assert !IsSupertype(some.parameters[0], all.parameters[0]);
  }

  lemma NumbersAndIntegers()
    ensures IsSupertype(Numeric(Number), Numeric(Int)) && !IsSupertype(Numeric(Int), Numeric(Number))
    ensures IsSupertype(Void, Void)
  {
    NumbersExactly(Number, Int);
    NumbersExactly(Int, Number);
  }

  /** The elements of arrays take each other; futures go with what they wrap. */
  lemma WrappersExactly(a: Type, b: Type)
    ensures IsSupertype(Array(a), Array(b)) <==> IsSupertype(a, b) && IsSupertype(b, a)
    ensures IsSupertype(Future(a), Future(b)) <==> IsSupertype(a, b)
  {
    hide IsSupertype, TakesPlain;
    ArraysExactly(a, b);
    FuturesExactly(a, b);
  }

  lemma ArraysExactly(a: Type, b: Type)
    ensures IsSupertype(Array(a), Array(b)) <==> IsSupertype(a, b) && IsSupertype(b, a)
  {
    assert IsSupertype(Array(a), Array(b)) <==> TakesPlain(Array(a), Array(b));
  }

  lemma FuturesExactly(a: Type, b: Type)
    ensures IsSupertype(Future(a), Future(b)) <==> IsSupertype(a, b)
  {
  }

  const TAKEN: set<(Scalar, Scalar)> :=
    {(Bool, Bool), (Int, Int), (Int, Bool), (Double, Double), (Double, Int),
     (Number, Bool), (Number, Int), (Number, Double), (Number, Number)}

  lemma NumbersExactly(s: Scalar, t: Scalar)
    ensures IsSupertype(Numeric(s), Numeric(t)) <==> (s, t) in TAKEN
  {
    hide IsSupertype, ScalarIsSupertype;
    NumbersByScalar(s, t);
    ScalarsTaken(s, t);
  }

  lemma NumbersByScalar(s: Scalar, t: Scalar)
    ensures IsSupertype(Numeric(s), Numeric(t)) <==> ScalarIsSupertype(s, t)
  {
    hide ScalarIsSupertype;
    assert IsSupertype(Numeric(s), Numeric(t)) <==> TakesPlain(Numeric(s), Numeric(t));
  }

  lemma ScalarsTaken(s: Scalar, t: Scalar)
    ensures ScalarIsSupertype(s, t) <==> (s, t) in TAKEN
  {
  }

  /** What the types without parts take of the types other than unions. */
  lemma SimpleTypesExactly(t: Type)
    requires !t.Union?
    ensures IsSupertype(Any, t) <==> t != Void && !t.Future?
    ensures IsSupertype(Void, t) <==> t == Void
    ensures IsSupertype(Null, t) <==> t == Null
    ensures IsSupertype(Text, t) <==> t == Text
  {
    assert IsSupertype(Null, t) <==> TakesPlain(Null, t);
    assert IsSupertype(Text, t) <==> TakesPlain(Text, t);
  }

  lemma ObjectsExactly(t: Type)
    requires !t.Union?
    ensures IsSupertype(Object, t) <==> t == Object || t.Interface?
    ensures IsSupertype(Pattern, t) <==> t != Any && t != Void && !t.Future? && !t.Function?
  {
    assert IsSupertype(Object, t) <==> TakesPlain(Object, t);
    assert IsSupertype(Pattern, t) <==> TakesPlain(Pattern, t);
  }

  lemma NamedTypesExactly(id: nat, s: Scalar, t: Type)
    requires !t.Union?
    ensures IsSupertype(Enum(id), t) <==> t == Enum(id)
    ensures IsSupertype(Numeric(s), t) <==> t.Numeric? && (s, t.scalar) in TAKEN
  {
    assert IsSupertype(Numeric(s), t) <==> TakesPlain(Numeric(s), t);
    if t.Numeric? { NumbersExactly(s, t.scalar); }
  }

  /** Arrays, functions, futures and interfaces take no types of another kind. */
  lemma KindsAreKept(a: Type, t: Type)
    requires (a.Array? || a.Function? || a.Future? || a.Interface?) && !t.Union? && IsSupertype(a, t)
    ensures a.Array? <==> t.Array?
    ensures a.Function? <==> t.Function?
    ensures a.Future? <==> t.Future?
    ensures a.Interface? <==> t.Interface?
  {
    if a.Array? || a.Function? { assert TakesPlain(a, t); }
  }

  /** Under the name of the member there is one in the type that it takes. */
  predicate Finds(m: Member, t: Type) {
    var found := Lookup(t, m.name);
    found.Some? && IsSupertype(m.of, found.value)
  }

  /** An interface takes another exactly if its bases do, and the other has each of its members with a type it takes. */
  lemma InterfacesExactly(a: Type, b: Type)
    requires a.Interface? && b.Interface?
    ensures IsSupertype(a, b) <==>
            && (forall k: nat | k < |a.bases| :: IsSupertype(a.bases[k], b))
            && forall k: nat | k < |a.members| :: Finds(a.members[k], b)
  {
    hide IsSupertype, Lookup;
    BothParts(a, b);
    BasesTake(a, b);
    MembersTake(a, b);
  }

  lemma BasesTake(a: Type, b: Type)
    requires a.Interface?
    ensures BasesAreSupertypes(a, b) <==> forall k: nat | k < |a.bases| :: IsSupertype(a.bases[k], b)
  {
    hide IsSupertype;
    if BasesAreSupertypes(a, b) {
      forall k: nat | k < |a.bases| ensures IsSupertype(a.bases[k], b) { assert BaseIsSupertype(a, k, b); }
    }
    if forall k: nat | k < |a.bases| :: IsSupertype(a.bases[k], b) {
      forall k: nat | k < |a.bases| ensures BaseIsSupertype(a, k, b) {
        assert IsSupertype(a.bases[k], b);
      }
    }
  }

  lemma MembersTake(a: Type, b: Type)
    requires a.Interface? && b.Interface?
    ensures HasMembersOf(a, b) <==> forall k: nat | k < |a.members| :: Finds(a.members[k], b)
  {
    hide IsSupertype, Lookup;
    if HasMembersOf(a, b) {
      forall k: nat | k < |a.members| ensures Finds(a.members[k], b) { assert MemberFits(a, k, b); }
    }
    if forall k: nat | k < |a.members| :: Finds(a.members[k], b) {
      forall k: nat | k < |a.members| ensures MemberFits(a, k, b) {
        assert Finds(a.members[k], b);
      }
    }
  }

  lemma BothParts(a: Type, b: Type)
    requires a.Interface? && b.Interface?
    ensures IsSupertype(a, b) <==> BasesAreSupertypes(a, b) && HasMembersOf(a, b)
  {
  }

  // ----- members -----

  /** The members of an interface in the order in which they are looked for: its own, then those of base after base. */
  function AllMembers(t: Type): seq<Member>
    decreases t, 1
  {
    if t.Interface? then t.members + MembersOfAll(t.bases) else []
  }

  function MembersOfAll(ts: seq<Type>): seq<Member>
    decreases ts, 0
  {
    if ts == [] then [] else AllMembers(ts[0]) + MembersOfAll(ts[1..])
  }

  /** The type of the first member of that name. */
  function FirstNamed(ms: seq<Member>, name: string): Option<Type> {
    var k := FirstMatch(ms, (m: Member) => m.name == name);
    if k < |ms| then Some(ms[k].of) else None
  }

  lemma {:induction false} FirstOfBoth(a: seq<Member>, b: seq<Member>, name: string)
    ensures FirstNamed(a + b, name) == if FirstNamed(a, name).Some? then FirstNamed(a, name) else FirstNamed(b, name)
  {
    if a == [] {
      assert a + b == b;
    } else {
      assert (a + b)[0] == a[0] && (a + b)[1..] == a[1..] + b;
      FirstOfBoth(a[1..], b, name);
    }
  }

  lemma {:induction false} OwnIsFirst(ms: seq<Member>, name: string)
    ensures OwnMember(ms, name) == FirstNamed(ms, name)
  {
    if ms != [] { OwnIsFirst(ms[1..], name); }
  }

  /** A member is looked up in the interface itself, then in base after base, with the bases of each. */
  lemma {:induction false} LookupExactly(t: Type, name: string)
    ensures Lookup(t, name) == FirstNamed(AllMembers(t), name)
    decreases t, 1
  {
    if t.Interface? {
      OwnIsFirst(t.members, name);
      LookupInBasesExactly(t.bases, name);
      FirstOfBoth(t.members, MembersOfAll(t.bases), name);
    }
  }

  lemma {:induction false} LookupInBasesExactly(ts: seq<Type>, name: string)
    ensures LookupInBases(ts, name) == FirstNamed(MembersOfAll(ts), name)
    decreases ts, 0
  {
    if ts != [] {
      LookupExactly(ts[0], name);
      LookupInBasesExactly(ts[1..], name);
      FirstOfBoth(AllMembers(ts[0]), MembersOfAll(ts[1..]), name);
    }
  }
}
