/** Sets of small numbers, packed into words: number 0 is the top bit of the first word. */
module IntSets {
  const ALL: bv64 := 0xFFFF_FFFF_FFFF_FFFF

  // ----- bits of a word -----

  /** A number below 64, bit by bit. */
  datatype Six = Six(b5: bool, b4: bool, b3: bool, b2: bool, b1: bool, b0: bool)

  function SixOf(n: nat): Six
    requires n < 64
  {
    var m5 := if n >= 32 then n - 32 else n;
    var m4 := if m5 >= 16 then m5 - 16 else m5;
    var m3 := if m4 >= 8 then m4 - 8 else m4;
    var m2 := if m3 >= 4 then m3 - 4 else m3;
    Six(n >= 32, m5 >= 16, m4 >= 8, m3 >= 4, m2 >= 2, m2 == 1 || m2 == 3)
  }

  function Pack(b: Six): (r: bv64)
    ensures r < 64
  {
    (if b.b5 then 32 else 0) | (if b.b4 then 16 else 0) | (if b.b3 then 8 else 0)
    | (if b.b2 then 4 else 0) | (if b.b1 then 2 else 0) | (if b.b0 then 1 else 0)
  }

  function Value(b: Six): nat {
    (if b.b5 then 32 else 0) + (if b.b4 then 16 else 0) + (if b.b3 then 8 else 0)
    + (if b.b2 then 4 else 0) + (if b.b1 then 2 else 0) + (if b.b0 then 1 else 0)
  }

  /** A number as the word by which another word is shifted. */
  function Amount(n: nat): (r: bv64)
    requires n < 64
    ensures r < 64
  {
    Pack(SixOf(n))
  }

  lemma PackOrder(a: Six, b: Six)
    ensures Pack(a) <= Pack(b) <==> Value(a) <= Value(b)
    ensures Pack(a) == Pack(b) <==> a == b
  {
  }

  lemma ValueOf(n: nat)
    requires n < 64
    ensures Value(SixOf(n)) == n
  {
  }

  lemma AmountOrder(a: nat, b: nat)
    requires a < 64 && b < 64
    ensures Amount(a) <= Amount(b) <==> a <= b
    ensures Amount(a) == Amount(b) <==> a == b
  {
    hide Pack, Value, SixOf;
    ValueOf(a);
    ValueOf(b);
    PackOrder(SixOf(a), SixOf(b));
  }

  function Bit(w: bv64, i: bv64): bool
    requires i < 64
  {
    (w >> i) & 1 == 1
  }

  function WithBit(w: bv64, k: bv64): bv64
    requires k < 64
  {
    w | (1 << k)
  }

  function WithoutBit(w: bv64, k: bv64): bv64
    requires k < 64
  {
    w & !(1 << k)
  }

  lemma BitOperations(w: bv64, v: bv64, i: bv64)
    requires i < 64
    ensures Bit(w | v, i) <==> Bit(w, i) || Bit(v, i)
    ensures Bit(w & v, i) <==> Bit(w, i) && Bit(v, i)
    ensures Bit(!w, i) <==> !Bit(w, i)
  {
  }

  lemma OneBit(k: bv64, i: bv64)
    requires k < 64 && i < 64
    ensures Bit(1 << k, i) <==> i == k
  {
  }

  lemma SetBit(w: bv64, k: bv64, i: bv64)
    requires k < 64 && i < 64
    ensures Bit(WithBit(w, k), i) <==> i == k || Bit(w, i)
  {
    hide Bit;
    BitOperations(w, 1 << k, i);
    OneBit(k, i);
  }

  lemma UnsetBit(w: bv64, k: bv64, i: bv64)
    requires k < 64 && i < 64
    ensures Bit(WithoutBit(w, k), i) <==> i != k && Bit(w, i)
  {
    hide Bit;
    BitOperations(w, !(1 << k), i);
    BitOperations(1 << k, 0, i);
    OneBit(k, i);
  }

  /** All bits from `k` up. */
  lemma MaskBit(k: bv64, i: bv64)
    requires k < 64 && i < 64
    ensures Bit(!((1 << k) - 1), i) <==> i >= k
  {
    hide Bit;
    MaskIsShift(k);
    ShiftedOnes(k, i);
  }

  lemma MaskIsShift(k: bv64)
    requires k < 64
    ensures !((1 << k) - 1) == ALL << k
  {
  }

  lemma ShiftedOnes(k: bv64, i: bv64)
    requires k < 64 && i < 64
    ensures Bit(ALL << k, i) <==> i >= k
  {
  }

  lemma PlainBits(i: bv64)
    requires i < 64
    ensures !Bit(0, i) && Bit(ALL, i)
  {
  }

  // ----- counting the bits of a word -----

  /** The number of bits set among the lowest `k`. */
  function LowBits(w: bv64, k: nat): nat
    requires k <= 64
  {
    if k == 0 then 0 else LowBits(w, k - 1) + if Bit(w, Amount(k - 1)) then 1 else 0
  }

  /** Counts the bits of a word. */
  method PopCount(w: bv64) returns (n: nat)
    ensures n == LowBits(w, 64)
  {
    n := 0;
    for i := 0 to 64
      invariant n == LowBits(w, i)
    {
      if (w >> Amount(i)) & 1 == 1 {
        n := n + 1;
      }
    }
  }

  // ----- numbers in words -----

  /** The word a number is in. */
  function WordOf(n: nat): nat { n / 64 }

  /** The bit of its word that stands for a number, as a shift. */
  function PlaceOf(n: nat): (r: bv64)
    ensures r < 64
  {
    Amount(63 - n % 64)
  }

  lemma SamePlace(n: nat, k: nat)
    ensures WordOf(n) == WordOf(k) && PlaceOf(n) == PlaceOf(k) <==> n == k
  {
    hide Amount;
    AmountOrder(63 - n % 64, 63 - k % 64);
    assert n == 64 * (n / 64) + n % 64 && k == 64 * (k / 64) + k % 64;
  }

  lemma InWords(n: nat, words: nat)
    ensures WordOf(n) < words <==> n < 64 * words
  {
  }

  /** Number `n` of the words. */
  predicate Has(ws: seq<bv64>, n: nat)
    requires n < 64 * |ws|
  {
    InWords(n, |ws|);
    Bit(ws[WordOf(n)], PlaceOf(n))
  }

  /** How many of the numbers below `n` there are. */
  function CountBelow(ws: seq<bv64>, n: nat): nat
    requires n <= 64 * |ws|
  {
    if n == 0 then 0 else CountBelow(ws, n - 1) + if Has(ws, n - 1) then 1 else 0
  }

  function MembersBelow(ws: seq<bv64>, n: nat): (r: set<nat>)
    requires n <= 64 * |ws|
    ensures forall k: nat :: k in r <==> k < n && Has(ws, k)
  {
    if n == 0 then {} else MembersBelow(ws, n - 1) + if Has(ws, n - 1) then {n - 1} else {}
  }

  function UpTo(n: nat): (r: set<nat>)
    ensures forall k: nat :: k in r <==> k < n
  {
    if n == 0 then {} else UpTo(n - 1) + {n - 1}
  }

  lemma {:induction false} CountIsCardinality(ws: seq<bv64>, n: nat)
    requires n <= 64 * |ws|
    ensures CountBelow(ws, n) == |MembersBelow(ws, n)|
  {
    hide Has;
    if n > 0 { CountIsCardinality(ws, n - 1); }
  }

  /** The numbers of word `b` are its bits, from the top. */
  lemma {:induction false} TopBits(ws: seq<bv64>, b: nat, k: nat)
    requires b < |ws| && k <= 64
    ensures CountBelow(ws, 64 * b + k) + LowBits(ws[b], 64 - k) == CountBelow(ws, 64 * b) + LowBits(ws[b], 64)
  {
    hide Bit, Amount, Has;
    if k > 0 {
      TopBits(ws, b, k - 1);
      HasBit(ws, b, k - 1);
    }
  }

  lemma HasBit(ws: seq<bv64>, b: nat, k: nat)
    requires b < |ws| && k < 64
    ensures Has(ws, 64 * b + k) == Bit(ws[b], Amount(63 - k))
  {
    hide Bit, Amount;
    assert (64 * b + k) / 64 == b && (64 * b + k) % 64 == k;
  }

  lemma CountNextWord(ws: seq<bv64>, b: nat)
    requires b < |ws|
    ensures CountBelow(ws, 64 * (b + 1)) == CountBelow(ws, 64 * b) + LowBits(ws[b], 64)
  {
    hide Bit, Amount, Has, CountBelow;
    TopBits(ws, b, 64);
    assert LowBits(ws[b], 0) == 0;
  }

  /** All bits from `63 - rem` up, as the counting loop makes the mask. */
  function Mask(rem: nat): bv64
    requires rem < 64
  {
    if rem == 63 then ALL else !((1 << Amount(63 - rem)) - 1)
  }

  lemma MaskHas(rem: nat, i: nat)
    requires rem < 64 && i < 64
    ensures Bit(Mask(rem), Amount(i)) <==> 63 - rem <= i
  {
    hide Bit, Amount;
    if rem == 63 {
      PlainBits(Amount(i));
    } else {
      MaskBit(Amount(63 - rem), Amount(i));
      AmountOrder(63 - rem, i);
    }
  }

  lemma MaskedBit(w: bv64, rem: nat, i: nat)
    requires rem < 64 && i < 64
    ensures Bit(w & Mask(rem), Amount(i)) <==> 63 - rem <= i && Bit(w, Amount(i))
  {
    hide Bit, Amount, Mask;
    MaskHas(rem, i);
    BitOperations(w, Mask(rem), Amount(i));
  }

  lemma {:induction false} MaskedLowBits(w: bv64, rem: nat, k: nat)
    requires rem < 64 && k <= 64
    ensures LowBits(w & Mask(rem), k) == if k <= 63 - rem then 0 else LowBits(w, k) - LowBits(w, 63 - rem)
  {
    hide Mask, Bit, Amount;
    if k > 0 {
      MaskedLowBits(w, rem, k - 1);
      MaskedBit(w, rem, k - 1);
    }
  }

  /** What is counted of the last word: one number more than belongs to the set. */
  lemma LastWord(ws: seq<bv64>, b: nat, rem: nat)
    requires b < |ws| && rem < 64
    ensures CountBelow(ws, 64 * b) + LowBits(ws[b] & Mask(rem), 64) == CountBelow(ws, 64 * b + rem + 1)
  {
    hide Bit, Amount, Has, CountBelow, Mask;
    MaskedLowBits(ws[b], rem, 64);
    TopBits(ws, b, rem + 1);
  }

  // ----- changes to words -----

  lemma HasUpdated(ws: seq<bv64>, b: nat, w: bv64, k: nat)
    requires b < |ws| && k < 64 * |ws|
    ensures Has(ws[b := w], k) == if WordOf(k) == b then Bit(w, PlaceOf(k)) else Has(ws, k)
    ensures WordOf(k) < |ws| && Has(ws, k) == Bit(ws[WordOf(k)], PlaceOf(k))
  {
    hide Bit, PlaceOf, WordOf;
    InWords(k, |ws|);
  }

  lemma SetHas(ws: seq<bv64>, n: nat, k: nat)
    requires n < 64 * |ws| && k < 64 * |ws| && WordOf(n) < |ws|
    ensures Has(ws[WordOf(n) := WithBit(ws[WordOf(n)], PlaceOf(n))], k) <==> k == n || Has(ws, k)
  {
    hide Bit, PlaceOf, WordOf, Has, WithBit, WithoutBit;
    HasUpdated(ws, WordOf(n), WithBit(ws[WordOf(n)], PlaceOf(n)), k);
    SetBit(ws[WordOf(n)], PlaceOf(n), PlaceOf(k));
    SamePlace(n, k);
  }

  lemma UnsetHas(ws: seq<bv64>, n: nat, k: nat)
    requires n < 64 * |ws| && k < 64 * |ws| && WordOf(n) < |ws|
    ensures Has(ws[WordOf(n) := WithoutBit(ws[WordOf(n)], PlaceOf(n))], k) <==> k != n && Has(ws, k)
  {
    hide Bit, PlaceOf, WordOf, Has, WithBit, WithoutBit;
    HasUpdated(ws, WordOf(n), WithoutBit(ws[WordOf(n)], PlaceOf(n)), k);
    UnsetBit(ws[WordOf(n)], PlaceOf(n), PlaceOf(k));
    SamePlace(n, k);
  }

  datatype Operation = Or | AndNot | And | Copy

  function ApplyWord(op: Operation, w: bv64, v: bv64): bv64 {
    match op
    case Or => w | v
    case AndNot => w & !v
    case And => w & v
    case Copy => v
  }

  predicate ApplyOne(op: Operation, p: bool, q: bool) {
    match op
    case Or => p || q
    case AndNot => p && !q
    case And => p && q
    case Copy => q
  }

  lemma AppliedBit(op: Operation, w: bv64, v: bv64, i: bv64)
    requires i < 64
    ensures Bit(ApplyWord(op, w, v), i) <==> ApplyOne(op, Bit(w, i), Bit(v, i))
  {
    hide Bit;
    if op == AndNot {
      AndNotBit(w, v, i);
    } else {
      BitOperations(w, v, i);
    }
  }

  lemma AndNotBit(w: bv64, v: bv64, i: bv64)
    requires i < 64
    ensures Bit(w & !v, i) <==> Bit(w, i) && !Bit(v, i)
  {
  }

  /** The words of `ws` that have a counterpart in `vs` are combined with it. */
  ghost predicate Combined(op: Operation, ws: seq<bv64>, vs: seq<bv64>, rs: seq<bv64>) {
    && |rs| == |ws|
    && forall b | 0 <= b < |ws| :: rs[b] == if b < |vs| then ApplyWord(op, ws[b], vs[b]) else ws[b]
  }

  lemma CombinedHas(op: Operation, ws: seq<bv64>, vs: seq<bv64>, rs: seq<bv64>, n: nat)
    requires Combined(op, ws, vs, rs) && n < 64 * |ws|
    ensures Has(rs, n) <==> if n < 64 * |vs| then ApplyOne(op, Has(ws, n), Has(vs, n)) else Has(ws, n)
  {
    hide Bit, PlaceOf, WordOf;
    InWords(n, |ws|);
    InWords(n, |vs|);
    if n < 64 * |vs| { AppliedBit(op, ws[WordOf(n)], vs[WordOf(n)], PlaceOf(n)); }
  }

  // ----- sets -----

  class IntSet {
    const size: nat
    const buckets: array<bv64>

    ghost predicate Valid()
      reads this
    {
      buckets.Length == (size + 64) / 64
    }

    ghost function Words(): seq<bv64>
      reads this, buckets
    {
      buckets[..]
    }

    /** The numbers in the set. */
    ghost function Members(): (r: set<nat>)
      requires Valid()
      reads this, buckets
      ensures forall n: nat :: n in r <==> n < size && Has(Words(), n)
    {
      MembersBelow(Words(), size)
    }

    /** The bits that belong to no number of the set are clear. */
    ghost predicate Clean()
      requires Valid()
      reads this, buckets
    {
      forall n: nat | size <= n < 64 * buckets.Length :: !Has(Words(), n)
    }

    constructor (size: nat)
      ensures this.size == size && fresh(buckets) && Valid() && Clean() && Members() == {}
    {
      this.size := size;
      buckets := new bv64[(size + 64) / 64](_ => 0);
      new;
      NothingSet(Words());
    }

    /** The bucket of a number, and the shift of its bit. */
    method BucketOf(n: nat) returns (bucket: nat, place: bv64)
      requires Valid() && n < size
      ensures bucket == WordOf(n) < buckets.Length && place == PlaceOf(n)
    {
      bucket := n / 64;
      var idx := n - bucket * 64;
      place := Amount(64 - 1 - idx);
    }

    method Set(n: nat)
      requires Valid() && n < size
      modifies buckets
      ensures Members() == old(Members()) + {n} && (old(Clean()) ==> Clean())
    {
      hide Has, WordOf, PlaceOf, Amount;
      ghost var was := Words();
      var bucket, place := BucketOf(n);
      buckets[bucket] := buckets[bucket] | (1 << place);
      assert Words() == was[WordOf(n) := WithBit(was[WordOf(n)], PlaceOf(n))];
      forall k: nat | k < 64 * |was| ensures Has(Words(), k) <==> k == n || Has(was, k) {
        InWords(n, |was|);
        SetHas(was, n, k);
      }
    }

    method Unset(n: nat)
      requires Valid() && n < size
      modifies buckets
      ensures Members() == old(Members()) - {n} && (old(Clean()) ==> Clean())
    {
      hide Has, WordOf, PlaceOf, Amount;
      ghost var was := Words();
      var bucket, place := BucketOf(n);
      buckets[bucket] := buckets[bucket] & !(1 << place);
      assert Words() == was[WordOf(n) := WithoutBit(was[WordOf(n)], PlaceOf(n))];
      forall k: nat | k < 64 * |was| ensures Has(Words(), k) <==> k != n && Has(was, k) {
        InWords(n, |was|);
        UnsetHas(was, n, k);
      }
    }

    method Clear()
      requires Valid()
      modifies buckets
      ensures Members() == {} && Clean()
    {
      for b := 0 to buckets.Length
        invariant forall i | 0 <= i < b :: buckets[i] == 0
      {
        buckets[b] := 0;
      }
      NothingSet(Words());
    }

    /** Sets every bit, also those that belong to no number. */
    method Fill()
      requires Valid()
      modifies buckets
      ensures Members() == UpTo(size)
      ensures forall n: nat | n < 64 * buckets.Length :: Has(Words(), n)
    {
      for b := 0 to buckets.Length
        invariant forall i | 0 <= i < b :: buckets[i] == ALL
      {
        buckets[b] := ALL;
      }
      EverythingSet(Words());
    }

    /** Inverts every bit, also those that belong to no number. */
    method Invert()
      requires Valid()
      modifies buckets
      ensures Members() == UpTo(size) - old(Members())
      ensures forall n: nat | n < 64 * buckets.Length :: Has(Words(), n) == !old(Has(Words(), n))
    {
      ghost var was := Words();
      for b := 0 to buckets.Length
        invariant forall i | 0 <= i < b :: buckets[i] == !was[i]
        invariant forall i | b <= i < buckets.Length :: buckets[i] == was[i]
      {
        buckets[b] := !buckets[b];
      }
      forall n: nat | n < 64 * buckets.Length ensures Has(Words(), n) == !Has(was, n) {
        InWords(n, |was|);
        InvertedHas(was, Words(), n);
      }
    }

    /** The loop of all operations on two sets: it stops where the shorter one ends. */
    method Combine(op: Operation, other: IntSet)
      requires Valid() && other.Valid()
      modifies buckets
      ensures Combined(op, old(Words()), old(other.Words()), Words())
    {
      ghost var was, with := Words(), other.Words();
      var b := 0;
      while b < buckets.Length && b < other.buckets.Length
        invariant b <= buckets.Length && b <= other.buckets.Length
        invariant forall i | 0 <= i < b :: buckets[i] == ApplyWord(op, was[i], with[i])
        invariant forall i | b <= i < buckets.Length :: buckets[i] == was[i]
        invariant forall i | b <= i < other.buckets.Length :: other.buckets[i] == with[i]
      {
        buckets[b] := ApplyWord(op, buckets[b], other.buckets[b]);
        b := b + 1;
      }
    }

    /** What combining two sets leaves: beyond the words of the other set nothing changes. */
    ghost predicate After(op: Operation, was: seq<bv64>, with: seq<bv64>)
      reads this, buckets
    {
      && |was| == buckets.Length
      && forall n: nat {:trigger Has(Words(), n)} | n < 64 * |was| ::
           Has(Words(), n) == if n < 64 * |with| then ApplyOne(op, Has(was, n), Has(with, n)) else Has(was, n)
    }

    lemma AfterCombined(op: Operation, was: seq<bv64>, with: seq<bv64>)
      requires Combined(op, was, with, Words())
      ensures After(op, was, with)
    {
      forall n: nat | n < 64 * |was|
        ensures Has(Words(), n) == if n < 64 * |with| then ApplyOne(op, Has(was, n), Has(with, n)) else Has(was, n)
      {
        CombinedHas(op, was, with, Words(), n);
      }
    }

    method Union(other: IntSet)
      requires Valid() && other.Valid()
      modifies buckets
      ensures After(Or, old(Words()), old(other.Words()))
      ensures other.size == size ==> Members() == old(Members()) + old(other.Members())
      ensures other.size == size && old(Clean()) && old(other.Clean()) ==> Clean()
    {
      Combine(Or, other);
      AfterCombined(Or, old(Words()), old(other.Words()));
    }

    method Minus(other: IntSet)
      requires Valid() && other.Valid()
      modifies buckets
      ensures After(AndNot, old(Words()), old(other.Words()))
      ensures other.size == size ==> Members() == old(Members()) - old(other.Members())
      ensures old(Clean()) ==> Clean()
    {
      Combine(AndNot, other);
      AfterCombined(AndNot, old(Words()), old(other.Words()));
    }

    /** A clean set stays clean, even if the other one is not. */
    method Intersect(other: IntSet)
      requires Valid() && other.Valid()
      modifies buckets
      ensures After(And, old(Words()), old(other.Words()))
      ensures other.size == size ==> Members() == old(Members()) * old(other.Members())
      ensures old(Clean()) ==> Clean()
    {
      Combine(And, other);
      AfterCombined(And, old(Words()), old(other.Words()));
    }

    method CopyFrom(other: IntSet)
      requires Valid() && other.Valid()
      modifies buckets
      ensures After(Copy, old(Words()), old(other.Words()))
      ensures other.size == size ==> Members() == old(other.Members()) && (old(other.Clean()) ==> Clean())
    {
      Combine(Copy, other);
      AfterCombined(Copy, old(Words()), old(other.Words()));
    }

    /** Counts the bits of all words, the last one through a mask, which lets one bit too many through. */
    method Count() returns (n: nat)
      requires Valid()
      ensures n == |Members()| + if Has(Words(), size) then 1 else 0
      ensures n == |Members()| <==> !Has(Words(), size)
    {
      hide Has, Mask, LowBits, CountBelow;
      var numBuckets := buckets.Length;
      n := 0;
      assert n == CountBelow(Words(), 0) by { NothingBelow(Words()); }
      for b := 0 to numBuckets
        invariant n == CountBelow(Words(), if b == numBuckets then size + 1 else 64 * b)
      {
        if b == numBuckets - 1 {
          var rem := size - 64 * (size / 64);
          var bits := PopCount(buckets[b] & Mask(rem));
          LastWord(Words(), b, rem);
          n := n + bits;
        } else {
          var bits := PopCount(buckets[b]);
          CountNextWord(Words(), b);
          n := n + bits;
        }
      }
      CountNext(Words(), size);
      CountIsCardinality(Words(), size);
    }

    /** The count of every clean set is its cardinality: the bit that is counted beyond it is clear. */
    lemma CleanIsCounted()
      requires Valid() && Clean()
      ensures size < 64 * |Words()| && !Has(Words(), size)
    {
    }
  }

  lemma NothingSet(ws: seq<bv64>)
    requires forall w | w in ws :: w == 0
    ensures forall n: nat | n < 64 * |ws| :: !Has(ws, n)
  {
    hide Bit, WordOf, PlaceOf;
    forall n: nat | n < 64 * |ws| ensures !Has(ws, n) {
      InWords(n, |ws|);
      assert ws[WordOf(n)] in ws;
      PlainBits(PlaceOf(n));
    }
  }

  lemma EverythingSet(ws: seq<bv64>)
    requires forall w | w in ws :: w == ALL
    ensures forall n: nat | n < 64 * |ws| :: Has(ws, n)
  {
    hide Bit, WordOf, PlaceOf;
    forall n: nat | n < 64 * |ws| ensures Has(ws, n) {
      InWords(n, |ws|);
      assert ws[WordOf(n)] in ws;
      PlainBits(PlaceOf(n));
    }
  }

  lemma InvertedHas(ws: seq<bv64>, rs: seq<bv64>, n: nat)
    requires |rs| == |ws| && n < 64 * |ws| && WordOf(n) < |ws| && rs[WordOf(n)] == !ws[WordOf(n)]
    ensures Has(rs, n) == !Has(ws, n)
  {
    hide Bit, PlaceOf, WordOf;
    BitOperations(ws[WordOf(n)], 0, PlaceOf(n));
  }

  lemma NothingBelow(ws: seq<bv64>)
    ensures CountBelow(ws, 0) == 0
  {
  }

  lemma CountNext(ws: seq<bv64>, n: nat)
    requires n < 64 * |ws|
    ensures CountBelow(ws, n + 1) == CountBelow(ws, n) + if Has(ws, n) then 1 else 0
  {
  }
}
