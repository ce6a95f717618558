/** The comparison of types as it runs, by loops over options, parameters, bases and members. */
module TypeComparison {
  import opened Options
  import opened Types

  method GetMember(ms: seq<Member>, name: string) returns (r: Option<Type>)
    ensures r == OwnMember(ms, name)
  {
    for k := 0 to |ms|
      invariant OwnMember(ms, name) == OwnMember(ms[k..], name)
    {
      if ms[k].name == name { return Some(ms[k].of); }
      assert ms[k..][1..] == ms[k + 1..];
    }
    r := None;
  }

  /** Looks a member up, in the bases if the interface has none of its own. */
  method LookupMember(t: Type, name: string) returns (r: Option<Type>)
    requires t.Interface?
    ensures r == Lookup(t, name)
    decreases t
  {
    r := GetMember(t.members, name);
    if r.Some? { return; }
    for k := 0 to |t.bases|
      invariant LookupInBases(t.bases, name) == LookupInBases(t.bases[k..], name)
    {
      assert t.bases[k..][1..] == t.bases[k + 1..] && t.bases[k] in t.bases;
      if t.bases[k].Interface? {
        r := LookupMember(t.bases[k], name);
        if r.Some? { return; }
      }
    }
    r := None;
  }

  method Compare(a: Type, b: Type) returns (r: bool)
    ensures r == IsSupertype(a, b)
    decreases Size(a) + Size(b), 3
  {
    match a
    case Any => r := !b.Void? && !b.Future?;
    case Void => r := b.Void?;
    case Enum(id) => r := b.Enum? && b.id == id;
    case Future(w) =>
      if b.Future? { r := Compare(w, b.wrapped); } else { r := false; }
    case Union(_) => r := CompareUnion(a, b);
    case Interface(_, _) => r := CompareInterface(a, b);
    case _ =>
      if b.Union? { r := CompareOptions(a, b); } else { r := ComparePlain(a, b); }
  }

  method ComparePlain(a: Type, b: Type) returns (r: bool)
    requires !a.Interface? && !a.Union? && !b.Union?
    ensures r == TakesPlain(a, b)
    decreases Size(a) + Size(b), 2
  {
    match a
    case Array(e) =>
      r := b.Array?;
      if r { r := Compare(e, b.element); }
      if r { r := Compare(b.element, e); }
    case Function(_, _) =>
      r := b.Function?;
      if r { r := CompareFunctions(a, b); }
    case Null => r := b.Null?;
    case Text => r := b.Text?;
    case Object => r := b.Object? || b.Interface?;
    case Pattern => r := Matchable(b);
    case Numeric(s) => r := b.Numeric? && ScalarIsSupertype(s, b.scalar);
    case _ => r := false;
  }

  /** Every option of the union `b`. */
  method CompareOptions(a: Type, b: Type) returns (r: bool)
    requires b.Union?
    ensures r == TakesOptions(a, b)
    decreases Size(a) + Size(b), 2
  {
    for k := 0 to |b.options|
      invariant forall i | 0 <= i < k :: TakesOption(a, b, i)
    {
      PartIsSmaller(b.options, k);
      r := Compare(a, b.options[k]);
      if !r {
        assert !TakesOption(a, b, k);
        return;
      }
    }
    r := true;
  }

  /** The result, and then the parameters the other way around. */
  method CompareFunctions(a: Type, b: Type) returns (r: bool)
    requires a.Function? && b.Function?
    ensures r == TakesPlain(a, b)
    decreases Size(a) + Size(b), 1
  {
    if |a.parameters| != |b.parameters| { return false; }
    r := Compare(a.result, b.result);
    if !r { return; }
    for k := 0 to |a.parameters|
      invariant forall i | 0 <= i < k :: ParameterFits(a, b, i)
    {
      PartIsSmaller(a.parameters, k);
      PartIsSmaller(b.parameters, k);
      r := Compare(b.parameters[k], a.parameters[k]);
      if !r {
        assert !ParameterFits(a, b, k);
        return;
      }
    }
    r := true;
  }

  /** All bases, and then all members. */
  method CompareInterface(a: Type, b: Type) returns (r: bool)
    requires a.Interface?
    ensures r == (BasesAreSupertypes(a, b) && HasMembersOf(a, b))
    decreases Size(a) + Size(b), 2
  {
    for k := 0 to |a.bases|
      invariant forall i | 0 <= i < k :: BaseIsSupertype(a, i, b)
    {
      PartIsSmaller(a.bases, k);
      r := Compare(a.bases[k], b);
      if !r {
        assert !BaseIsSupertype(a, k, b);
        return;
      }
    }
    if b.Interface? {
      r := CompareMembers(a, b);
    } else if b.Union? {
      r := CompareEach(a, b);
    } else {
      r := false;
    }
  }

  method CompareEach(a: Type, b: Type) returns (r: bool)
    requires a.Interface? && b.Union?
    ensures r == HasMembersOf(a, b)
    decreases Size(a) + Size(b), 1
  {
    for k := 0 to |b.options|
      invariant forall i | 0 <= i < k :: TakesOption(a, b, i)
    {
      PartIsSmaller(b.options, k);
      r := Compare(a, b.options[k]);
      if !r {
        assert !TakesOption(a, b, k);
        return;
      }
    }
    r := true;
  }

  method CompareMembers(a: Type, b: Type) returns (r: bool)
    requires a.Interface? && b.Interface?
    ensures r == HasMembersOf(a, b)
    decreases Size(a) + Size(b), 1
  {
    for k := 0 to |a.members|
      invariant forall i | 0 <= i < k :: MemberFits(a, i, b)
    {
      var other := LookupMember(b, a.members[k].name);
      r := other.Some?;
      if r {
        MemberIsSmaller(a.members, k);
        r := Compare(a.members[k].of, other.value);
      }
      if !r {
        assert !MemberFits(a, k, b);
        return;
      }
    }
    r := true;
  }

  /** Some option takes in the other type; or, if that is a union, each of its options is found among those of `a`. */
  method CompareUnion(a: Type, b: Type) returns (r: bool)
    requires a.Union?
    ensures r == IsSupertype(a, b)
    decreases Size(a) + Size(b), 2
  {
    for k := 0 to |a.options|
      invariant forall i | 0 <= i < k :: !OptionTakes(a, i, b)
    {
      PartIsSmaller(a.options, k);
      r := Compare(a.options[k], b);
      if r {
        assert OptionTakes(a, k, b);
        return;
      }
    }
    assert !SomeIsSupertype(a, b);
    if !b.Union? { return false; }
    for y := 0 to |b.options|
      invariant forall i | 0 <= i < y :: FoundIn(b, i, a)
    {
      r := FindOption(b, y, a);
      if !r {
        assert !FoundIn(b, y, a);
        return;
      }
    }
    r := true;
  }

  /** Whether an option is found in `a`: it is the query, and asked for being the supertype. */
  method FindOption(b: Type, y: nat, a: Type) returns (r: bool)
    requires a.Union? && b.Union? && y < |b.options|
    ensures r == FoundIn(b, y, a)
    decreases Size(a) + Size(b), 1
  {
    for x := 0 to |a.options|
      invariant forall i | 0 <= i < x :: !OptionCovers(b, y, a, i)
    {
      PartIsSmaller(b.options, y);
      PartIsSmaller(a.options, x);
      r := Compare(b.options[y], a.options[x]);
      if r {
        assert OptionCovers(b, y, a, x);
        return;
      }
    }
    r := false;
  }

  // ----- unions -----

  /** No option is equal to one before it. */
  ghost predicate Different(options: seq<Type>) {
    forall i, j | 0 <= i < j < |options| :: !Equals(options[j], options[i])
  }

  class UnionType {
    var options: seq<Type>

    constructor (first: Type)
      ensures options == [first] && Different(options)
    {
      options := [first];
    }

    /** Adds an option, unless an equal one is there already. */
    method AddOption(t: Type)
      requires Different(options)
      modifies this
      ensures Different(options) && old(options) <= options <= old(options) + [t]
      ensures options == old(options) <==> exists k :: 0 <= k < |old(options)| && Equals(t, old(options)[k])
    {
      for k := 0 to |options|
        invariant options == old(options) && forall i | 0 <= i < k :: !Equals(t, options[i])
      {
        var covers := Compare(t, options[k]);
        if covers {
          var covered := Compare(options[k], t);
          if covered { return; }
        }
      }
      options := options + [t];
    }
  }
}
