/** Maps that remember the order in which their keys came, and what any run of requests leaves in one. */
module OrderedMaps {
  import opened Options
  import opened PtrLists

  datatype Pair<+K, +V> = Pair(key: K, value: V)

  /** When two keys are one key. */
  type Sameness<!K> = (K, K) -> bool

  ghost predicate Equivalence<K(!new)>(same: Sameness<K>) {
    && (forall a :: same(a, a))
    && (forall a, b :: same(a, b) ==> same(b, a))
    && (forall a, b, c :: same(a, b) && same(b, c) ==> same(a, c))
  }

  /** Where the key stands, or the length when it is not there. */
  function Place<K, V>(s: seq<Pair<K, V>>, same: Sameness<K>, key: K): (k: nat)
    ensures k <= |s|
  {
    FirstMatch(s, (p: Pair<K, V>) => same(p.key, key))
  }

  function Get<K, V>(s: seq<Pair<K, V>>, same: Sameness<K>, key: K): Option<V> {
    var k := Place(s, same, key);
    if k < |s| then Some(s[k].value) else None
  }

  /** A key that is there keeps its place; a new one goes to the end. */
  function Put<K, V>(s: seq<Pair<K, V>>, same: Sameness<K>, key: K, value: V): seq<Pair<K, V>> {
    var k := Place(s, same, key);
    if k < |s| then s[k := Pair(key, value)] else s + [Pair(key, value)]
  }

  function Removed<K, V>(s: seq<Pair<K, V>>, same: Sameness<K>, key: K): seq<Pair<K, V>> {
    var k := Place(s, same, key);
    if k < |s| then Dropped(s, k) else s
  }

  ghost predicate NoDoubles<K, V>(s: seq<Pair<K, V>>, same: Sameness<K>) {
    forall i, j :: 0 <= i < j < |s| ==> !same(s[i].key, s[j].key)
  }

  // ----- runs of requests -----

  datatype Request<+K, +V> = Insert(key: K, value: V) | Delete(key: K) | Clear

  function Serve<K, V>(s: seq<Pair<K, V>>, same: Sameness<K>, r: Request<K, V>): seq<Pair<K, V>> {
    match r
    case Insert(key, value) => Put(s, same, key, value)
    case Delete(key) => Removed(s, same, key)
    case Clear => []
  }

  function ServeAll<K, V>(rs: seq<Request<K, V>>, same: Sameness<K>): seq<Pair<K, V>> {
    if rs == [] then [] else Serve(ServeAll(rs[..|rs| - 1], same), same, rs[|rs| - 1])
  }

  /** What the last request that speaks of the key says of it. */
  function LastWord<K, V>(rs: seq<Request<K, V>>, same: Sameness<K>, key: K): Option<V> {
    if rs == [] then None
    else
      match rs[|rs| - 1]
      case Insert(k, value) => if same(k, key) then Some(value) else LastWord(rs[..|rs| - 1], same, key)
      case Delete(k) => if same(k, key) then None else LastWord(rs[..|rs| - 1], same, key)
      case Clear => None
  }

  /** The request that brought the key in, if it has been there ever since. */
  function Arrival<K, V>(rs: seq<Request<K, V>>, same: Sameness<K>, key: K): (n: Option<nat>)
    ensures n.Some? ==> n.value < |rs|
  {
    if rs == [] then None
    else
      var n := Arrival(rs[..|rs| - 1], same, key);
      match rs[|rs| - 1]
      case Insert(k, _) => if same(k, key) && n == None then Some(|rs| - 1) else n
      case Delete(k) => if same(k, key) then None else n
      case Clear => None
  }

  // ----- one request -----

  lemma ThreeKeys<K(!new)>(same: Sameness<K>, a: K, b: K, c: K)
    requires Equivalence(same)
    ensures same(a, c) && same(b, c) ==> same(a, b) && same(b, a)
  {
    assert same(c, b) ==> same(a, c) ==> same(a, b);
  }

  lemma PlaceIs<K(!new), V>(s: seq<Pair<K, V>>, same: Sameness<K>, key: K, k: nat)
    requires NoDoubles(s, same) && Equivalence(same) && k < |s| && same(s[k].key, key)
    ensures Place(s, same, key) == k
  {
    forall i | 0 <= i < k
      ensures !same(s[i].key, key)
    {
      ThreeKeys(same, s[i].key, s[k].key, key);
    }
    FirstMatchIs(s, (p: Pair<K, V>) => same(p.key, key), k);
  }

  lemma PlaceIsNone<K, V>(s: seq<Pair<K, V>>, same: Sameness<K>, key: K)
    requires forall i :: 0 <= i < |s| ==> !same(s[i].key, key)
    ensures Place(s, same, key) == |s|
  {
    FirstMatchIs(s, (p: Pair<K, V>) => same(p.key, key), |s|);
  }

  /** What a place tells: the key is there, or it is nowhere. */
  lemma PlaceTells<K, V>(s: seq<Pair<K, V>>, same: Sameness<K>, key: K)
    ensures
      var k := Place(s, same, key);
      if k < |s| then same(s[k].key, key) else forall i :: 0 <= i < |s| ==> !same(s[i].key, key)
  {
  }

  lemma PutKeepsNoDoubles<K(!new), V>(s: seq<Pair<K, V>>, same: Sameness<K>, key: K, value: V)
    requires NoDoubles(s, same) && Equivalence(same)
    ensures NoDoubles(Put(s, same, key, value), same)
  {
    PlaceTells(s, same, key);
    var k := Place(s, same, key);
    var after := Put(s, same, key, value);
    forall i, j | 0 <= i < j < |after|
      ensures !same(after[i].key, after[j].key)
    {
      if k < |s| {
        var other := if i == k then j else i;
        ThreeKeys(same, s[other].key, s[k].key, key);
        ThreeKeys(same, key, s[other].key, s[other].key);
      }
    }
  }

  lemma DroppedKeepsNoDoubles<K, V>(s: seq<Pair<K, V>>, same: Sameness<K>, k: nat)
    requires NoDoubles(s, same) && k < |s|
    ensures NoDoubles(Dropped(s, k), same)
  {
    var after := Dropped(s, k);
    forall i, j | 0 <= i < j < |after|
      ensures !same(after[i].key, after[j].key)
    {
      assert after[i] == s[if i < k then i else i + 1] && after[j] == s[if j < k then j else j + 1];
    }
  }

  lemma RemovedKeepsNoDoubles<K, V>(s: seq<Pair<K, V>>, same: Sameness<K>, key: K)
    requires NoDoubles(s, same)
    ensures NoDoubles(Removed(s, same, key), same)
  {
    var k := Place(s, same, key);
    if k < |s| {
      DroppedKeepsNoDoubles(s, same, k);
    }
  }

  lemma GetAfterPut<K(!new), V>(s: seq<Pair<K, V>>, same: Sameness<K>, key: K, value: V, asked: K)
    requires NoDoubles(s, same) && Equivalence(same)
    ensures Get(Put(s, same, key, value), same, asked) == if same(key, asked) then Some(value) else Get(s, same, asked)
  {
    hide NoDoubles, Place;
    PutKeepsNoDoubles(s, same, key, value);
    var after := Put(s, same, key, value);
    var k := Place(s, same, key);
    PlaceTells(s, same, key);
    PlaceTells(s, same, asked);
    var a := Place(s, same, asked);
    if same(key, asked) {
      PlaceIs(after, same, asked, k);
    } else if a < |s| {
      ThreeKeys(same, key, asked, s[a].key);
      PlaceIs(after, same, asked, a);
    } else {
      PlaceIsNone(after, same, asked);
    }
  }

  lemma GetAfterRemoved<K(!new), V>(s: seq<Pair<K, V>>, same: Sameness<K>, key: K, asked: K)
    requires NoDoubles(s, same) && Equivalence(same)
    ensures Get(Removed(s, same, key), same, asked) == if same(key, asked) then None else Get(s, same, asked)
  {
    hide Place;
    RemovedKeepsNoDoubles(s, same, key);
    var after := Removed(s, same, key);
    var k := Place(s, same, key);
    PlaceTells(s, same, key);
    PlaceTells(s, same, asked);
    var a := Place(s, same, asked);
    if !same(key, asked) && a < |s| {
      ThreeKeys(same, key, asked, s[a].key);
      PlaceIs(after, same, asked, if k < |s| && k < a then a - 1 else a);
    } else {
      forall i | 0 <= i < |after|
        ensures !same(after[i].key, asked)
      {
        var j := if k < |s| && k <= i then i + 1 else i;
        assert after[i] == s[j];
        if k < |s| {
          ThreeKeys(same, key, s[j].key, asked);
          ThreeKeys(same, s[j].key, s[k].key, key);
        }
      }
      PlaceIsNone(after, same, asked);
    }
  }

  // ----- all requests -----

  lemma {:induction false} ServingKeepsNoDoubles<K(!new), V>(rs: seq<Request<K, V>>, same: Sameness<K>)
    requires Equivalence(same)
    ensures NoDoubles(ServeAll(rs, same), same)
  {
    if rs != [] {
      ServingKeepsNoDoubles(rs[..|rs| - 1], same);
      var s := ServeAll(rs[..|rs| - 1], same);
      match rs[|rs| - 1]
      case Insert(key, value) => PutKeepsNoDoubles(s, same, key, value);
      case Delete(key) => RemovedKeepsNoDoubles(s, same, key);
      case Clear =>
    }
  }

  /** A key is mapped to what the last request about it said, whatever came between. */
  lemma {:induction false} GetIsTheLastWord<K(!new), V>(rs: seq<Request<K, V>>, same: Sameness<K>, asked: K)
    requires Equivalence(same)
    ensures Get(ServeAll(rs, same), same, asked) == LastWord(rs, same, asked)
  {
    if rs != [] {
      var before := rs[..|rs| - 1];
      ServingKeepsNoDoubles(before, same);
      GetIsTheLastWord(before, same, asked);
      match rs[|rs| - 1]
      case Insert(key, value) => GetAfterPut(ServeAll(before, same), same, key, value, asked);
      case Delete(key) => GetAfterRemoved(ServeAll(before, same), same, key, asked);
      case Clear =>
    }
  }

  lemma {:induction false} ArrivalIsOfTheKey<K(!new), V>(rs: seq<Request<K, V>>, same: Sameness<K>, a: K, b: K)
    requires Equivalence(same) && same(a, b)
    ensures Arrival(rs, same, a) == Arrival(rs, same, b)
  {
    if rs != [] {
      ArrivalIsOfTheKey(rs[..|rs| - 1], same, a, b);
      match rs[|rs| - 1]
      case Insert(k, _) => assert same(k, a) <==> same(k, b) by { assert same(b, a); }
      case Delete(k) => assert same(k, a) <==> same(k, b) by { assert same(b, a); }
      case Clear =>
    }
  }

  /** The keys that are there are those that have arrived. */
  lemma {:induction false} ThereIfArrived<K(!new), V>(rs: seq<Request<K, V>>, same: Sameness<K>, asked: K)
    requires Equivalence(same)
    ensures Arrival(rs, same, asked).Some? <==> Get(ServeAll(rs, same), same, asked).Some?
  {
    if rs != [] {
      var before := rs[..|rs| - 1];
      ServingKeepsNoDoubles(before, same);
      ThereIfArrived(before, same, asked);
      match rs[|rs| - 1]
      case Insert(key, value) => GetAfterPut(ServeAll(before, same), same, key, value, asked);
      case Delete(key) => GetAfterRemoved(ServeAll(before, same), same, key, asked);
      case Clear =>
    }
  }

  lemma KeyIsThere<K(!new), V>(rs: seq<Request<K, V>>, same: Sameness<K>, i: nat)
    requires Equivalence(same) && i < |ServeAll(rs, same)|
    ensures Arrival(rs, same, ServeAll(rs, same)[i].key).Some?
  {
    var s := ServeAll(rs, same);
    ServingKeepsNoDoubles(rs, same);
    PlaceIs(s, same, s[i].key, i);
    ThereIfArrived(rs, same, s[i].key);
  }

  /** The order of the keys is the order in which they arrived. */
  lemma {:induction false} OrderIsOfArrival<K(!new), V>(rs: seq<Request<K, V>>, same: Sameness<K>, i: nat, j: nat)
    requires Equivalence(same) && i < j < |ServeAll(rs, same)|
    ensures
      var first, second := Arrival(rs, same, ServeAll(rs, same)[i].key), Arrival(rs, same, ServeAll(rs, same)[j].key);
      first.Some? && second.Some? && first.value < second.value
  {
    KeyIsThere(rs, same, i);
    KeyIsThere(rs, same, j);
    var before := rs[..|rs| - 1];
    var s := ServeAll(before, same);
    ServingKeepsNoDoubles(before, same);
    match rs[|rs| - 1]
    case Insert(key, value) =>
      InsertKeepsArrival(before, same, key, value, i);
      if j < |s| {
        InsertKeepsArrival(before, same, key, value, j);
        OrderIsOfArrival(before, same, i, j);
      } else {
        KeyIsThere(before, same, i);
        ThereIfArrived(before, same, key);
      }
    case Delete(key) =>
      DeleteKeepsArrival(before, same, key, i);
      DeleteKeepsArrival(before, same, key, j);
      var k := Place(s, same, key);
      OrderIsOfArrival(before, same, if k < |s| && k <= i then i + 1 else i, if k < |s| && k <= j then j + 1 else j);
    case Clear =>
  }

  lemma InsertKeepsArrival<K(!new), V>(rs: seq<Request<K, V>>, same: Sameness<K>, key: K, value: V, i: nat)
    requires Equivalence(same) && i < |ServeAll(rs, same)|
    ensures
      var after := Put(ServeAll(rs, same), same, key, value);
      i < |after| && Arrival(rs + [Insert(key, value)], same, after[i].key)
        == Arrival(rs, same, ServeAll(rs, same)[i].key)
  {
    var s := ServeAll(rs, same);
    var all := rs + [Insert(key, value)];
    assert all[..|all| - 1] == rs;
    KeyIsThere(rs, same, i);
    var k := Place(s, same, key);
    PlaceTells(s, same, key);
    if i == k {
      ArrivalIsOfTheKey(rs, same, s[k].key, key);
    }
  }

  lemma DeleteKeepsArrival<K(!new), V>(rs: seq<Request<K, V>>, same: Sameness<K>, key: K, i: nat)
    requires Equivalence(same) && i < |Removed(ServeAll(rs, same), same, key)|
    ensures
      var s := ServeAll(rs, same);
      var k := Place(s, same, key);
      var j := if k < |s| && k <= i then i + 1 else i;
      && j < |s| && Removed(s, same, key)[i] == s[j]
      && Arrival(rs + [Request<K, V>.Delete(key)], same, s[j].key) == Arrival(rs, same, s[j].key)
  {
    var s := ServeAll(rs, same);
    ServingKeepsNoDoubles(rs, same);
    var all := rs + [Request<K, V>.Delete(key)];
    assert all[..|all| - 1] == rs;
    PlaceTells(s, same, key);
    var k := Place(s, same, key);
    var j := if k < |s| && k <= i then i + 1 else i;
    if same(key, s[j].key) {
      assert same(s[j].key, key);
      PlaceIs(s, same, key, j);
    }
  }
}
