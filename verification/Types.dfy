/** Data types, and when one is a supertype of another. */
module Types {
  import opened Options

  datatype Scalar = Bool | Int | Double | Number

  /**
   Resolved types. An interface stands with its bases and members, so that none contains itself; enumerations are
   told apart by their declarations.
   */
  datatype Type =
    | Any | Void | Null | Text | Object | Pattern
    | Numeric(scalar: Scalar)
    | Enum(id: nat)
    | Array(element: Type)
    | Future(wrapped: Type)
    | Function(result: Type, parameters: seq<Type>)
    | Interface(bases: seq<Type>, members: seq<Member>)
    | Union(options: seq<Type>)

  datatype Member = Member(name: string, of: Type)

  // ----- sizes -----

  function Size(t: Type): (r: nat)
    ensures r > 0
    decreases t, 0
  {
    match t
    case Array(e) => 1 + Size(e)
    case Future(w) => 1 + Size(w)
    case Function(r, ps) => 1 + Size(r) + SizeOfAll(ps)
    case Interface(bs, ms) => 1 + SizeOfAll(bs) + SizeOfMembers(ms)
    case Union(os) => 1 + SizeOfAll(os)
    case _ => 1
  }

  function SizeOfAll(ts: seq<Type>): nat
    decreases ts, 1
  {
    if ts == [] then 0 else Size(ts[0]) + SizeOfAll(ts[1..])
  }

  function SizeOfMembers(ms: seq<Member>): nat
    decreases ms, 1
  {
    if ms == [] then 0 else Size(ms[0].of) + SizeOfMembers(ms[1..])
  }

  lemma {:induction false} PartIsSmaller(ts: seq<Type>, k: nat)
    requires k < |ts|
    ensures Size(ts[k]) <= SizeOfAll(ts)
  {
    if k > 0 { PartIsSmaller(ts[1..], k - 1); }
  }

  lemma {:induction false} MemberIsSmaller(ms: seq<Member>, k: nat)
    requires k < |ms|
    ensures Size(ms[k].of) <= SizeOfMembers(ms)
  {
    if k > 0 { MemberIsSmaller(ms[1..], k - 1); }
  }

  // ----- members -----

  function OwnMember(ms: seq<Member>, name: string): (r: Option<Type>)
    ensures r.Some? ==> Size(r.value) <= SizeOfMembers(ms)
  {
    if ms == [] then None
    else if ms[0].name == name then Some(ms[0].of)
    else OwnMember(ms[1..], name)
  }

  /** The member of that name: the interface's own, or the first that is found in its bases. */
  function Lookup(t: Type, name: string): (r: Option<Type>)
    ensures r.Some? ==> Size(r.value) < Size(t)
    decreases t, 1
  {
    if !t.Interface? then None
    else if OwnMember(t.members, name).Some? then OwnMember(t.members, name)
    else LookupInBases(t.bases, name)
  }

  function LookupInBases(bs: seq<Type>, name: string): (r: Option<Type>)
    ensures r.Some? ==> Size(r.value) <= SizeOfAll(bs)
    decreases bs, 0
  {
    if bs == [] then None
    else if Lookup(bs[0], name).Some? then Lookup(bs[0], name)
    else LookupInBases(bs[1..], name)
  }

  // ----- supertypes -----

  /** The types that the pattern type takes in. */
  predicate Matchable(t: Type) {
    t.Numeric? || t.Array? || t.Enum? || t.Null? || t.Object? || t.Interface? || t.Text? || t.Pattern?
  }

  predicate IsSupertype(a: Type, b: Type)
    decreases Size(a) + Size(b), 3
  {
    match a
    case Any => !b.Void? && !b.Future?
    case Void => b.Void?
    case Enum(id) => b.Enum? && b.id == id
    case Future(w) => b.Future? && IsSupertype(w, b.wrapped)
    case Union(os) =>
      || SomeIsSupertype(a, b)
      || (b.Union? && forall y | 0 <= y < |b.options| :: FoundIn(b, y, a))
    case Interface(_, _) => BasesAreSupertypes(a, b) && HasMembersOf(a, b)
    case _ => if b.Union? then TakesOptions(a, b) else TakesPlain(a, b)
  }

  /** A type other than a union against one that is not a union either. */
  predicate TakesPlain(a: Type, b: Type)
    requires !a.Interface? && !a.Union?
    decreases Size(a) + Size(b), 1
  {
    match a
    case Null => b.Null?
    case Text => b.Text?
    case Object => b.Object? || b.Interface?
    case Pattern => Matchable(b)
    case Numeric(s) => b.Numeric? && ScalarIsSupertype(s, b.scalar)
    case Array(e) => b.Array? && IsSupertype(e, b.element) && IsSupertype(b.element, e)
    case Function(r, ps) =>
      && b.Function? && |ps| == |b.parameters| && IsSupertype(r, b.result)
      && forall k | 0 <= k < |ps| :: ParameterFits(a, b, k)
    case _ => false
  }

  /** Booleans are integers, and integers are doubles; but booleans are no doubles. */
  predicate ScalarIsSupertype(s: Scalar, t: Scalar) {
    match s
    case Bool => t == Bool
    case Int => t == Int || t == Bool
    case Double => t == Double || t == Int
    case Number => true
  }

  /** Parameters are contravariant. */
  predicate ParameterFits(a: Type, b: Type, k: nat)
    requires a.Function? && b.Function? && k < |a.parameters| == |b.parameters|
    decreases Size(a) + Size(b), 0
  {
    PartIsSmaller(a.parameters, k);
    PartIsSmaller(b.parameters, k);
    IsSupertype(b.parameters[k], a.parameters[k])
  }

  /** Every option of the union is taken in. */
  predicate TakesOptions(a: Type, b: Type)
    requires b.Union?
    decreases Size(a) + Size(b), 2
  {
    forall k | 0 <= k < |b.options| :: TakesOption(a, b, k)
  }

  predicate TakesOption(a: Type, b: Type, k: nat)
    requires b.Union? && k < |b.options|
    decreases Size(a) + Size(b), 0
  {
    PartIsSmaller(b.options, k);
    IsSupertype(a, b.options[k])
  }

  predicate SomeIsSupertype(a: Type, b: Type)
    requires a.Union?
    decreases Size(a) + Size(b), 2
  {
    exists k :: 0 <= k < |a.options| && OptionTakes(a, k, b)
  }

  predicate OptionTakes(a: Type, k: nat, b: Type)
    requires a.Union? && k < |a.options|
    decreases Size(a) + Size(b), 0
  {
    PartIsSmaller(a.options, k);
    IsSupertype(a.options[k], b)
  }

  /** An option of one union is compared with those of another the wrong way around. */
  predicate FoundIn(b: Type, y: nat, a: Type)
    requires a.Union? && b.Union? && y < |b.options|
    decreases Size(a) + Size(b), 2
  {
    exists x :: 0 <= x < |a.options| && OptionCovers(b, y, a, x)
  }

  predicate OptionCovers(b: Type, y: nat, a: Type, x: nat)
    requires a.Union? && b.Union? && y < |b.options| && x < |a.options|
    decreases Size(a) + Size(b), 1
  {
    PartIsSmaller(b.options, y);
    PartIsSmaller(a.options, x);
    IsSupertype(b.options[y], a.options[x])
  }

  /** All bases of the interface `a`. */
  predicate BasesAreSupertypes(a: Type, b: Type)
    requires a.Interface?
    decreases Size(a) + Size(b), 2
  {
    forall k | 0 <= k < |a.bases| :: BaseIsSupertype(a, k, b)
  }

  predicate BaseIsSupertype(a: Type, k: nat, b: Type)
    requires a.Interface? && k < |a.bases|
    decreases Size(a) + Size(b), 0
  {
    PartIsSmaller(a.bases, k);
    IsSupertype(a.bases[k], b)
  }

  /** The other type is an interface that has all members of `a`, or a union of such types. */
  predicate HasMembersOf(a: Type, b: Type)
    requires a.Interface?
    decreases Size(a) + Size(b), 2
  {
    if b.Interface? then forall k | 0 <= k < |a.members| :: MemberFits(a, k, b)
    else b.Union? && forall k | 0 <= k < |b.options| :: TakesOption(a, b, k)
  }

  predicate MemberFits(a: Type, k: nat, b: Type)
    requires a.Interface? && k < |a.members|
    decreases Size(a) + Size(b), 0
  {
    MemberIsSmaller(a.members, k);
    var other := Lookup(b, a.members[k].name);
    other.Some? && IsSupertype(a.members[k].of, other.value)
  }

  predicate Equals(a: Type, b: Type) { IsSupertype(a, b) && IsSupertype(b, a) }
}
