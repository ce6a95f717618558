/** When the supertype relation is transitive. */
module Subtyping {
  import opened Options
  import opened Types

  /** No union occurs in the type, and no other scalar than those of `kinds`. */
  predicate Plain(t: Type, kinds: set<Scalar>)
    decreases t, 0
  {
    match t
    case Numeric(s) => s in kinds
    case Array(e) => Plain(e, kinds)
    case Future(w) => Plain(w, kinds)
    case Function(r, ps) => Plain(r, kinds) && forall p | p in ps :: Plain(p, kinds)
    case Interface(bs, ms) => (forall b | b in bs :: Plain(b, kinds)) && forall m | m in ms :: Plain(m.of, kinds)
    case Union(_) => false
    case _ => true
  }

  const NUMERIC_TOWER: set<Scalar> := {Bool, Int, Double}

  // ----- members that are found -----

  lemma {:induction false} OwnMemberIsPlain(ms: seq<Member>, name: string, kinds: set<Scalar>)
    requires forall m | m in ms :: Plain(m.of, kinds)
    ensures OwnMember(ms, name).Some? ==> Plain(OwnMember(ms, name).value, kinds)
  {
    if ms != [] && ms[0].name != name { OwnMemberIsPlain(ms[1..], name, kinds); }
  }

  lemma {:induction false} LookupIsPlain(t: Type, name: string, kinds: set<Scalar>)
    requires Plain(t, kinds)
    ensures Lookup(t, name).Some? ==> Plain(Lookup(t, name).value, kinds)
    decreases t, 1
  {
    if t.Interface? {
      OwnMemberIsPlain(t.members, name, kinds);
      LookupInBasesIsPlain(t.bases, name, kinds);
    }
  }

  lemma {:induction false} LookupInBasesIsPlain(bs: seq<Type>, name: string, kinds: set<Scalar>)
    requires forall b | b in bs :: Plain(b, kinds)
    ensures LookupInBases(bs, name).Some? ==> Plain(LookupInBases(bs, name).value, kinds)
    decreases bs, 0
  {
    if bs != [] {
      LookupIsPlain(bs[0], name, kinds);
      LookupInBasesIsPlain(bs[1..], name, kinds);
    }
  }

  lemma {:induction false} OwnMemberAt(ms: seq<Member>, name: string) returns (k: nat)
    requires OwnMember(ms, name).Some?
    ensures k < |ms| && ms[k].name == name && OwnMember(ms, name) == Some(ms[k].of)
  {
    if ms[0].name == name {
      k := 0;
    } else {
      k := OwnMemberAt(ms[1..], name);
      k := k + 1;
    }
  }

  lemma {:induction false} BaseWithMember(bs: seq<Type>, name: string) returns (k: nat)
    requires LookupInBases(bs, name).Some?
    ensures k < |bs| && Lookup(bs[k], name) == LookupInBases(bs, name)
  {
    if Lookup(bs[0], name).Some? {
      k := 0;
    } else {
      k := BaseWithMember(bs[1..], name);
      k := k + 1;
    }
  }

  /** A member of an interface, inherited or not, has a counterpart in each of its subtypes. */
  lemma {:induction false} MemberInSubtype(b: Type, c: Type, name: string, kinds: set<Scalar>)
    requires b.Interface? && IsSupertype(b, c) && Plain(c, kinds) && Lookup(b, name).Some?
    ensures c.Interface? && Lookup(c, name).Some? && IsSupertype(Lookup(b, name).value, Lookup(c, name).value)
    decreases b
  {
    assert c.Interface?;
    if OwnMember(b.members, name).Some? {
      var k := OwnMemberAt(b.members, name);
      assert MemberFits(b, k, c);
    } else {
      var k := BaseWithMember(b.bases, name);
      assert BaseIsSupertype(b, k, c) && b.bases[k] in b.bases;
      MemberInSubtype(b.bases[k], c, name, kinds);
    }
  }

  // ----- transitivity -----

  lemma ScalarsCompose(s: Scalar, t: Scalar, u: Scalar, kinds: set<Scalar>)
    requires !(NUMERIC_TOWER <= kinds) && s in kinds && t in kinds && u in kinds
    requires ScalarIsSupertype(s, t) && ScalarIsSupertype(t, u)
    ensures ScalarIsSupertype(s, u)
  {
  }

  /** Two steps of the relation between types without unions. */
  ghost predicate Steps(a: Type, b: Type, c: Type, kinds: set<Scalar>) {
    && Plain(a, kinds) && Plain(b, kinds) && Plain(c, kinds) && !(NUMERIC_TOWER <= kinds)
    && IsSupertype(a, b) && IsSupertype(b, c)
  }

  lemma PlainStep(a: Type, b: Type)
    requires IsSupertype(a, b) && !a.Union? && !b.Union? && !a.Interface?
    ensures a.Any? || a.Void? || a.Enum? || a.Future? || TakesPlain(a, b)
  {
  }

  lemma FunctionStep(a: Type, b: Type)
    requires IsSupertype(a, b) && a.Function? && !b.Union?
    ensures b.Function? && |a.parameters| == |b.parameters| && IsSupertype(a.result, b.result)
    ensures forall k: nat | k < |a.parameters| :: ParameterFits(a, b, k)
  {
    PlainStep(a, b);
  }

  lemma FunctionIsSupertype(a: Type, b: Type)
    requires a.Function? && b.Function? && |a.parameters| == |b.parameters| && IsSupertype(a.result, b.result)
    requires forall k: nat | k < |a.parameters| :: ParameterFits(a, b, k)
    ensures IsSupertype(a, b)
  {
    assert TakesPlain(a, b);
  }

  lemma InterfaceStep(a: Type, b: Type)
    requires IsSupertype(a, b) && a.Interface? && !b.Union?
    ensures b.Interface? && (forall k: nat | k < |a.bases| :: BaseIsSupertype(a, k, b))
    ensures forall k: nat | k < |a.members| :: MemberFits(a, k, b)
  {
    assert BasesAreSupertypes(a, b) && HasMembersOf(a, b);
  }

  lemma InterfaceIsSupertype(a: Type, b: Type)
    requires a.Interface? && b.Interface? && (forall k: nat | k < |a.bases| :: BaseIsSupertype(a, k, b))
    requires forall k: nat | k < |a.members| :: MemberFits(a, k, b)
    ensures IsSupertype(a, b)
  {
    assert BasesAreSupertypes(a, b) && HasMembersOf(a, b);
  }

  lemma {:induction false} FunctionsCompose(a: Type, b: Type, c: Type, kinds: set<Scalar>)
    requires Steps(a, b, c, kinds) && a.Function?
    ensures IsSupertype(a, c)
    decreases Size(a) + Size(b) + Size(c), 0
  {
    FunctionStep(a, b);
    FunctionStep(b, c);
    Compose(a.result, b.result, c.result, kinds);
    forall k: nat | k < |a.parameters| ensures ParameterFits(a, c, k) {
      assert ParameterFits(a, b, k) && ParameterFits(b, c, k);
      PartIsSmaller(a.parameters, k);
      PartIsSmaller(b.parameters, k);
      PartIsSmaller(c.parameters, k);
      assert a.parameters[k] in a.parameters && b.parameters[k] in b.parameters && c.parameters[k] in c.parameters;
      Compose(c.parameters[k], b.parameters[k], a.parameters[k], kinds);
    }
    FunctionIsSupertype(a, c);
  }

  lemma {:induction false} InterfacesCompose(a: Type, b: Type, c: Type, kinds: set<Scalar>)
    requires Steps(a, b, c, kinds) && a.Interface?
    ensures IsSupertype(a, c)
    decreases Size(a) + Size(b) + Size(c), 0
  {
    InterfaceStep(a, b);
    InterfaceStep(b, c);
    forall k: nat | k < |a.bases| ensures BaseIsSupertype(a, k, c) {
      assert BaseIsSupertype(a, k, b) && a.bases[k] in a.bases;
      PartIsSmaller(a.bases, k);
      Compose(a.bases[k], b, c, kinds);
    }
    forall k: nat | k < |a.members| ensures MemberFits(a, k, c) {
      MembersCompose(a, b, c, kinds, k);
    }
    InterfaceIsSupertype(a, c);
  }

  lemma {:induction false} MembersCompose(a: Type, b: Type, c: Type, kinds: set<Scalar>, k: nat)
    requires Steps(a, b, c, kinds) && a.Interface? && b.Interface? && c.Interface? && k < |a.members|
    ensures MemberFits(a, k, c)
    decreases Size(a) + Size(b) + Size(c), -1
  {
    var name := a.members[k].name;
    InterfaceStep(a, b);
    assert MemberFits(a, k, b) && a.members[k] in a.members;
    MemberIsSmaller(a.members, k);
    MemberInSubtype(b, c, name, kinds);
    LookupIsPlain(b, name, kinds);
    LookupIsPlain(c, name, kinds);
    Compose(a.members[k].of, Lookup(b, name).value, Lookup(c, name).value, kinds);
  }

  /**
   Between types without unions, a supertype of a supertype is a supertype, as long as not all of booleans, integers
   and doubles occur: through contravariant parameters, invariant elements and inherited members.
   */
  lemma {:induction false} Compose(a: Type, b: Type, c: Type, kinds: set<Scalar>)
    requires Steps(a, b, c, kinds)
    ensures IsSupertype(a, c)
    decreases Size(a) + Size(b) + Size(c), 1
  {
    if a.Function? {
      FunctionsCompose(a, b, c, kinds);
    } else if a.Interface? {
      InterfacesCompose(a, b, c, kinds);
    } else if a.Any? {
      AnyComposes(a, b, c, kinds);
    } else if a.Pattern? || a.Object? {
      PatternComposes(a, b, c, kinds);
    } else if a.Future? {
      Compose(a.wrapped, b.wrapped, c.wrapped, kinds);
    } else if a.Array? {
      ArrayStep(a, b);
      ArrayStep(b, c);
      Compose(a.element, b.element, c.element, kinds);
      Compose(c.element, b.element, a.element, kinds);
      assert TakesPlain(a, c);
    } else {
      SimpleComposes(a, b, c, kinds);
    }
  }

  lemma ArrayStep(a: Type, b: Type)
    requires IsSupertype(a, b) && a.Array? && !b.Union?
    ensures b.Array? && IsSupertype(a.element, b.element) && IsSupertype(b.element, a.element)
  {
    PlainStep(a, b);
  }

  lemma SimpleComposes(a: Type, b: Type, c: Type, kinds: set<Scalar>)
    requires Steps(a, b, c, kinds) && (a.Void? || a.Enum? || a.Null? || a.Text? || a.Numeric?)
    ensures IsSupertype(a, c)
  {
    if a.Void? || a.Enum? {
      assert IsSupertype(a, c);
    } else {
      PlainStep(a, b);
      PlainStep(b, c);
      if a.Numeric? { ScalarsCompose(a.scalar, b.scalar, c.scalar, kinds); }
      assert TakesPlain(a, c);
    }
  }

  /** A type that is no future, nor void, has neither as a subtype; the types of values have only such as subtypes. */
  lemma AnyComposes(a: Type, b: Type, c: Type, kinds: set<Scalar>)
    requires Steps(a, b, c, kinds) && a.Any?
    ensures IsSupertype(a, c)
  {
    if b.Interface? { InterfaceStep(b, c); } else if !b.Any? { PlainStep(b, c); }
  }

  lemma PatternComposes(a: Type, b: Type, c: Type, kinds: set<Scalar>)
    requires Steps(a, b, c, kinds) && (a.Pattern? || a.Object?)
    ensures IsSupertype(a, c)
  {
    PlainStep(a, b);
    if b.Interface? { InterfaceStep(b, c); } else { PlainStep(b, c); }
    assert TakesPlain(a, c);
  }

  /** The relation on the types over some scalars is transitive. */
  ghost predicate Transitive(kinds: set<Scalar>) {
    forall a: Type, b: Type, c: Type {:trigger IsSupertype(a, b), IsSupertype(b, c)} |
      Plain(a, kinds) && Plain(b, kinds) && Plain(c, kinds) && IsSupertype(a, b) && IsSupertype(b, c) ::
        IsSupertype(a, c)
  }

  /** It is exactly if not all of booleans, integers and doubles are among them. */
  lemma TransitiveExactly(kinds: set<Scalar>)
    ensures Transitive(kinds) <==> !(NUMERIC_TOWER <= kinds)
  {
    if NUMERIC_TOWER <= kinds {
      var d, i, b := Numeric(Double), Numeric(Int), Numeric(Bool);
      assert IsSupertype(d, i) && IsSupertype(i, b) && !IsSupertype(d, b);
    } else {
      forall a, b, c | Plain(a, kinds) && Plain(b, kinds) && Plain(c, kinds) && IsSupertype(a, b) && IsSupertype(b, c)
        ensures IsSupertype(a, c)
      {
        Compose(a, b, c, kinds);
      }
    }
  }

  // ----- unions in the middle -----

  /** A type that takes in every option of a union takes in what one of them takes in; `any` need not. */
  lemma ThroughUnion(a: Type, b: Type, c: Type, k: nat, kinds: set<Scalar>)
    requires Plain(a, kinds) && Plain(c, kinds) && !(NUMERIC_TOWER <= kinds) && !a.Any?
    requires b.Union? && k < |b.options| && Plain(b.options[k], kinds)
    requires IsSupertype(a, b) && IsSupertype(b.options[k], c)
    ensures IsSupertype(a, c)
  {
    assert TakesOption(a, b, k);
    Compose(a, b.options[k], c, kinds);
  }

  /** What is void or a future is of no value; no other type takes it. */
  predicate OfValue(t: Type) { !t.Void? && !t.Future? }

  lemma ValuesTakeValues(b: Type, c: Type, kinds: set<Scalar>)
    requires Plain(b, kinds) && Plain(c, kinds) && IsSupertype(b, c)
    ensures OfValue(b) <==> OfValue(c)
  {
    if OfValue(b) {
      if b.Interface? { InterfaceStep(b, c); } else if !b.Any? && !b.Enum? { PlainStep(b, c); }
    }
  }

  /**
   Through an option of a union, a type reaches what the option takes, unless it is `any` and the option is no value.
   */
  lemma ThroughUnionExactly(a: Type, b: Type, c: Type, k: nat, kinds: set<Scalar>)
    requires Plain(a, kinds) && Plain(c, kinds) && !(NUMERIC_TOWER <= kinds)
    requires b.Union? && k < |b.options| && Plain(b.options[k], kinds)
    requires IsSupertype(a, b) && IsSupertype(b.options[k], c)
    ensures IsSupertype(a, c) <==> !a.Any? || OfValue(b.options[k])
  {
    if a.Any? {
      ValuesTakeValues(b.options[k], c, kinds);
    } else {
      ThroughUnion(a, b, c, k, kinds);
    }
  }

  /** So `any` takes a union of `void`, which takes `void`, which `any` does not take. */
  lemma AnyTakesVoidInUnion()
    ensures IsSupertype(Any, Union([Void])) && IsSupertype(Union([Void]), Void) && !IsSupertype(Any, Void)
  {
    assert OptionTakes(Union([Void]), 0, Void);
  }
}
