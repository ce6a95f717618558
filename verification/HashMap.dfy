/** Hash maps with chained buckets, whose entries also stand in one list in the order they came. */
module HashMaps {
  import opened PtrLists
  import opened OrderedMaps

  const INITIAL_PLACES: nat := 8

  class Entry<K, V> {
    var key: K
    var value: V
    /** The hash of every key this entry ever has. */
    ghost const code: nat

    constructor (key: K, value: V, ghost code: nat)
      ensures this.key == key && this.value == value && this.code == code
    {
      this.key, this.value, this.code := key, value, code;
    }
  }

  class Bucket<K, V> {
    var entries: seq<Entry<K, V>>
    /** Where the bucket stands among the buckets. */
    ghost const home: nat

    constructor (ghost home: nat)
      ensures entries == [] && this.home == home
    {
      this.entries, this.home := [], home;
    }
  }

  // ----- lists without an element -----

  function Without<A(==)>(s: seq<A>, x: A): seq<A> {
    if s == [] then [] else if s[0] == x then s[1..] else [s[0]] + Without(s[1..], x)
  }

  lemma DistinctRest<A>(s: seq<A>)
    requires Distinct(s) && s != []
    ensures Distinct(s[1..])
  {
    forall i, j | 0 <= i < j < |s| - 1
      ensures s[1..][i] != s[1..][j]
    {
      assert s[i + 1] != s[j + 1];
    }
  }

  lemma {:induction false} WithoutDrops<A>(s: seq<A>, k: nat)
    requires k < |s| && Distinct(s)
    ensures Without(s, s[k]) == Dropped(s, k)
  {
    hide Distinct;
    if k > 0 {
      OthersDiffer(s, k);
      DistinctRest(s);
      WithoutDrops(s[1..], k - 1);
    }
  }

  lemma WithoutLosesOne<A>(s: seq<A>, x: A)
    requires x in s && Distinct(s)
    ensures Distinct(Without(s, x)) && |Without(s, x)| == |s| - 1
  {
    var k: nat :| k < |s| && s[k] == x;
    WithoutDrops(s, k);
    DistinctDropped(s, k);
  }

  lemma WithoutHas<A>(s: seq<A>, x: A, y: A)
    requires x in s && Distinct(s)
    ensures y in Without(s, x) <==> y in s && y != x
  {
    var k: nat :| k < |s| && s[k] == x;
    WithoutDrops(s, k);
    DistinctDropped(s, k);
  }

  // ----- the table -----

  /** Every bucket in the array is in the list and not empty, and every bucket of the list is in the array. */
  ghost predicate Shelved<K, V>(buckets: array<Bucket?<K, V>>, list: seq<Bucket<K, V>>)
    reads buckets, list
  {
    && Distinct(list)
    && (forall b <- list :: b.home < buckets.Length && buckets[b.home] == b && b.entries != [])
    && (forall h :: 0 <= h < buckets.Length && buckets[h] != null ==> buckets[h] in list && buckets[h].home == h)
  }

  /** The entries filed at each place. */
  ghost function Chains<K, V>(buckets: array<Bucket?<K, V>>, list: seq<Bucket<K, V>>): (c: seq<seq<Entry<K, V>>>)
    reads buckets, list
    ensures |c| == buckets.Length
  {
    seq(buckets.Length, h requires 0 <= h < buckets.Length reads buckets, list =>
      if buckets[h] != null && buckets[h] in list then buckets[h].entries else [])
  }

  /** Each of the entries is filed once, in the bucket of its hash, and nothing else is. */
  ghost predicate Filed<K, V>(chains: seq<seq<Entry<K, V>>>, all: set<Entry<K, V>>) {
    && |chains| > 0
    && (forall h :: 0 <= h < |chains| ==> Distinct(chains[h]))
    && (forall h, e | 0 <= h < |chains| && e in chains[h] :: e in all && e.code % |chains| == h)
    && (forall e <- all :: e in chains[e.code % |chains|])
  }

  ghost predicate Hashed<K, V>(hash: K -> nat, entries: seq<Entry<K, V>>)
    reads entries
  {
    forall i :: 0 <= i < |entries| ==> entries[i].code == hash(entries[i].key)
  }

  lemma FiledOneMore<K, V>(chains: seq<seq<Entry<K, V>>>, all: set<Entry<K, V>>, e: Entry<K, V>)
    requires Filed(chains, all) && e !in all
    ensures
      var h := e.code % |chains|;
      Filed(chains[h := chains[h] + [e]], all + {e})
  {
    DistinctWith(chains[e.code % |chains|], e);
  }

  lemma FiledOneLess<K, V>(chains: seq<seq<Entry<K, V>>>, all: set<Entry<K, V>>, e: Entry<K, V>)
    requires Filed(chains, all) && e in all
    ensures
      var h := e.code % |chains|;
      e in chains[h] && Filed(chains[h := Without(chains[h], e)], all - {e})
  {
    hide Without, Distinct;
    var h := e.code % |chains|;
    assert e in chains[h] && Distinct(chains[h]);
    WithoutLosesOne(chains[h], e);
    var less := chains[h := Without(chains[h], e)];
    forall o: Entry<K, V> | o in all - {e}
      ensures o in less[o.code % |less|]
    {
      assert o in chains[o.code % |chains|];
      WithoutHas(chains[h], e, o);
    }
    forall i, o: Entry<K, V> | 0 <= i < |less| && o in less[i]
      ensures o in all - {e} && o.code % |less| == i
    {
      if i == h {
        WithoutHas(chains[h], e, o);
      } else {
        assert o in chains[i] && o.code % |chains| == i;
      }
    }
  }

  /** Files an entry in the bucket of its hash, which is made when it is missing; the list of buckets grows with it. */
  method File<K, V>(hash: K -> nat, buckets: array<Bucket?<K, V>>, list: seq<Bucket<K, V>>, entry: Entry<K, V>,
                    ghost all: set<Entry<K, V>>)
    returns (longer: seq<Bucket<K, V>>)
    requires buckets.Length > 0 && Shelved(buckets, list) && Filed(Chains(buckets, list), all)
    requires entry !in all && entry.code == hash(entry.key)
    modifies buckets, list
    ensures Shelved(buckets, longer) && Filed(Chains(buckets, longer), all + {entry})
    ensures forall n: nat :: n < |longer| ==> longer[n] in list || fresh(longer[n])
  {
    hide Filed, Distinct;
    ghost var chains := Chains(buckets, list);
    longer := list;
    var place := hash(entry.key) % buckets.Length;
    if buckets[place] == null {
      var made := new Bucket(place);
      DistinctWith(longer, made);
      longer := longer + [made];
      buckets[place] := made;
    }
    buckets[place].entries := buckets[place].entries + [entry];
    FiledOneMore(chains, all, entry);
    assert Chains(buckets, longer) == chains[place := chains[place] + [entry]];
  }

  /** Takes an entry out of its bucket, and the bucket out of the table when nothing is left in it. */
  method Unfile<K, V>(buckets: array<Bucket?<K, V>>, list: seq<Bucket<K, V>>, entry: Entry<K, V>, place: nat,
                      ghost all: set<Entry<K, V>>)
    returns (shorter: seq<Bucket<K, V>>)
    requires Shelved(buckets, list) && Filed(Chains(buckets, list), all)
    requires entry in all && place < buckets.Length && place == entry.code % buckets.Length
    modifies buckets, list
    ensures Shelved(buckets, shorter) && Filed(Chains(buckets, shorter), all - {entry})
    ensures forall n: nat :: n < |shorter| ==> shorter[n] in list
  {
    hide Filed, Distinct, Without;
    ghost var chains := Chains(buckets, list);
    FiledOneLess(chains, all, entry);
    shorter := list;
    var bucket: Bucket<K, V> := buckets[place];
    bucket.entries := Without(bucket.entries, entry);
    if bucket.entries == [] {
      shorter := Without(list, bucket);
      WithoutLosesOne(list, bucket);
      forall b: Bucket<K, V>
        ensures b in shorter <==> b in list && b != bucket
      {
        WithoutHas(list, bucket, b);
      }
      buckets[place] := null;
    }
    assert Chains(buckets, shorter) == chains[place := Without(chains[place], entry)];
  }

  // ----- moving to a longer array -----

  ghost function Members<A>(s: seq<A>): set<A> {
    set x | x in s
  }

  /** What is filed before place j of bucket i of the list. */
  ghost predicate FiledUpTo<K, V>(list: seq<Bucket<K, V>>, i: nat, j: nat, done: set<Entry<K, V>>)
    reads list
  {
    forall b: nat, e: nat :: b < |list| && e < |list[b].entries| ==>
      (list[b].entries[e] in done <==> b < i || (b == i && e < j))
  }

  /** Entries at different places are different. */
  lemma FiledApart<K, V>(
      buckets: array<Bucket?<K, V>>, list: seq<Bucket<K, V>>, all: set<Entry<K, V>>, b: nat, e: nat, c: nat, f: nat)
    requires Shelved(buckets, list) && Filed(Chains(buckets, list), all)
    requires b < |list| && e < |list[b].entries| && c < |list| && f < |list[c].entries|
    ensures list[b].entries[e] in all
    ensures list[b].entries[e] == list[c].entries[f] ==> b == c && e == f
  {
    var chains := Chains(buckets, list);
    assert chains[list[b].home] == list[b].entries && chains[list[c].home] == list[c].entries;
    assert list[b].entries[e] in chains[list[b].home] && list[c].entries[f] in chains[list[c].home];
  }

  lemma NextIsNew<K, V>(
      buckets: array<Bucket?<K, V>>, list: seq<Bucket<K, V>>, entries: seq<Entry<K, V>>, hash: K -> nat,
                        i: nat, j: nat, done: set<Entry<K, V>>)
    requires Shelved(buckets, list) && Filed(Chains(buckets, list), Members(entries)) && Hashed(hash, entries)
    requires i < |list| && j < |list[i].entries| && done <= Members(entries) && FiledUpTo(list, i, j, done)
    ensures
      var entry := list[i].entries[j];
      && entry in Members(entries) && entry !in done && entry.code == hash(entry.key)
      && FiledUpTo(list, i, j + 1, done + {entry})
  {
    hide Shelved, Filed, Chains;
    var entry := list[i].entries[j];
    FiledApart(buckets, list, Members(entries), i, j, i, j);
    forall b: nat, e: nat | b < |list| && e < |list[b].entries|
      ensures list[b].entries[e] in done + {entry} <==> b < i || (b == i && e < j + 1)
    {
      FiledApart(buckets, list, Members(entries), b, e, i, j);
    }
  }

  lemma NoneAreFiled<K, V>(list: seq<Bucket<K, V>>)
    ensures FiledUpTo(list, 0, 0, {})
  {
  }

  lemma BucketIsFiled<K, V>(list: seq<Bucket<K, V>>, i: nat, done: set<Entry<K, V>>)
    requires i < |list| && FiledUpTo(list, i, |list[i].entries|, done)
    ensures FiledUpTo(list, i + 1, 0, done)
  {
  }

  lemma AllAreFiled<K, V>(buckets: array<Bucket?<K, V>>, list: seq<Bucket<K, V>>, all: set<Entry<K, V>>,
                          done: set<Entry<K, V>>)
    requires Shelved(buckets, list) && Filed(Chains(buckets, list), all)
    requires done <= all && FiledUpTo(list, |list|, 0, done)
    ensures done == all
  {
    forall o: Entry<K, V> | o in all
      ensures o in done
    {
      var h := o.code % buckets.Length;
      assert o in Chains(buckets, list)[h];
      var b: nat :| b < |list| && list[b] == buckets[h];
      var e: nat :| e < |list[b].entries| && list[b].entries[e] == o;
    }
  }

  lemma EmptyIsFiled<K, V>(buckets: array<Bucket?<K, V>>)
    requires buckets.Length > 0 && forall h :: 0 <= h < buckets.Length ==> buckets[h] == null
    ensures Shelved(buckets, []) && Filed(Chains(buckets, []), {})
  {
  }

  /** Files every entry of one table in an array of another length. */
  method Refile<K, V>(hash: K -> nat, buckets: array<Bucket?<K, V>>, list: seq<Bucket<K, V>>, places: nat,
                      ghost entries: seq<Entry<K, V>>)
    returns (newBuckets: array<Bucket?<K, V>>, newList: seq<Bucket<K, V>>)
    requires places > 0 && Shelved(buckets, list) && Filed(Chains(buckets, list), Members(entries))
             && Hashed(hash, entries)
    ensures fresh(newBuckets) && newBuckets.Length == places && (forall n: nat :: n < |newList| ==> fresh(newList[n]))
    ensures Shelved(newBuckets, newList) && Filed(Chains(newBuckets, newList), Members(entries))
  {
    hide Shelved, Filed, Chains, Hashed, FiledUpTo;
    newList := [];
    newBuckets := new Bucket?<K, V>[places](_ => null);
    EmptyIsFiled(newBuckets);
    ghost var done: set<Entry<K, V>> := {};
    NoneAreFiled(list);
    for i := 0 to |list|
      invariant forall n: nat :: n < |newList| ==> fresh(newList[n])
      invariant Shelved(newBuckets, newList) && Filed(Chains(newBuckets, newList), done)
      invariant done <= Members(entries) && FiledUpTo(list, i, 0, done)
    {
      var bucket := list[i];
      for j := 0 to |bucket.entries|
        invariant forall n: nat :: n < |newList| ==> fresh(newList[n])
        invariant Shelved(newBuckets, newList) && Filed(Chains(newBuckets, newList), done)
        invariant done <= Members(entries) && FiledUpTo(list, i, j, done)
      {
        var entry := bucket.entries[j];
        NextIsNew(buckets, list, entries, hash, i, j, done);
        newList := File(hash, newBuckets, newList, entry, done);
        done := done + {entry};
      }
      BucketIsFiled(list, i, done);
    }
    AllAreFiled(buckets, list, Members(entries), done);
  }

  // ----- the map -----

  ghost function PairsOf<K, V>(entries: seq<Entry<K, V>>): (s: seq<Pair<K, V>>)
    reads entries
    ensures |s| == |entries|
    ensures forall i :: 0 <= i < |s| ==> s[i] == Pair(entries[i].key, entries[i].value)
  {
    seq(|entries|, i requires 0 <= i < |entries| reads entries => Pair(entries[i].key, entries[i].value))
  }

  /** Keys that are one key have one hash. */
  ghost predicate Coherent<K(!new)>(same: Sameness<K>, hash: K -> nat) {
    Equivalence(same) && forall a, b :: same(a, b) ==> hash(a) == hash(b)
  }

  /** An entry whose key is asked for is filed where the search looks. */
  lemma FiledWhereAsked<K(!new), V>(
      chains: seq<seq<Entry<K, V>>>, entries: seq<Entry<K, V>>, same: Sameness<K>, hash: K -> nat,
                                    e: Entry<K, V>, asked: K)
    requires Filed(chains, Members(entries)) && Hashed(hash, entries) && Coherent(same, hash)
    requires e in entries && same(e.key, asked)
    ensures e in chains[hash(asked) % |chains|]
  {
  }

  lemma ChainIs<K, V>(buckets: array<Bucket?<K, V>>, list: seq<Bucket<K, V>>, h: nat)
    requires Shelved(buckets, list) && h < buckets.Length
    ensures buckets[h] == null ==> Chains(buckets, list)[h] == []
    ensures buckets[h] != null ==> buckets[h] in list && Chains(buckets, list)[h] == buckets[h].entries
  {
  }

  lemma NotAMember<A>(s: seq<A>, x: A)
    ensures x in Members(s) <==> x in s
  {
  }

  lemma OneMore<K, V>(hash: K -> nat, entries: seq<Entry<K, V>>, entry: Entry<K, V>)
    requires Distinct(entries) && Hashed(hash, entries) && entry !in entries && entry.code == hash(entry.key)
    ensures Distinct(entries + [entry]) && Hashed(hash, entries + [entry])
    ensures Members(entries + [entry]) == Members(entries) + {entry}
    ensures PairsOf(entries + [entry]) == PairsOf(entries) + [Pair(entry.key, entry.value)]
  {
    DistinctWith(entries, entry);
    assert Members(entries + [entry]) == Members(entries) + {entry};
  }

  lemma LeftAfterDropping<K, V>(hash: K -> nat, entries: seq<Entry<K, V>>, k: nat)
    requires k < |entries| && Hashed(hash, entries)
    ensures Hashed(hash, Dropped(entries, k)) && PairsOf(Dropped(entries, k)) == Dropped(PairsOf(entries), k)
  {
    var less := Dropped(entries, k);
    assert forall i :: 0 <= i < |less| ==> less[i] == entries[if i < k then i else i + 1];
  }

  lemma OneLess<K, V>(hash: K -> nat, entries: seq<Entry<K, V>>, k: nat)
    requires k < |entries| && Distinct(entries) && Hashed(hash, entries)
    ensures
      var less := Without(entries, entries[k]);
      && less == Dropped(entries, k) && Distinct(less) && Hashed(hash, less)
         && PairsOf(less) == Dropped(PairsOf(entries), k)
    ensures entries[k].code == hash(entries[k].key)
  {
    hide Distinct, Without;
    WithoutDrops(entries, k);
    DistinctDropped(entries, k);
    LeftAfterDropping(hash, entries, k);
  }

  lemma OneMemberLess<A>(s: seq<A>, k: nat)
    requires k < |s| && Distinct(s)
    ensures Members(Dropped(s, k)) == Members(s) - {s[k]}
  {
    DistinctDropped(s, k);
  }

  lemma HashesAgree<K(!new)>(same: Sameness<K>, hash: K -> nat, a: K, b: K)
    requires Coherent(same, hash) && same(a, b)
    ensures hash(a) == hash(b)
  {
  }

  class HashMap<K(!new), V> {
    const hash: K -> nat
    const same: Sameness<K>
    var buckets: array<Bucket?<K, V>>
    var bucketsList: seq<Bucket<K, V>>
    var entries: seq<Entry<K, V>>
    var numBucketPlaces: nat

    ghost predicate Sound()
      reads this, buckets, bucketsList, entries
    {
      && Coherent(same, hash)
      && numBucketPlaces == buckets.Length && numBucketPlaces > 0
      && Shelved(buckets, bucketsList) && Filed(Chains(buckets, bucketsList), Members(entries))
      && Hashed(hash, entries) && Distinct(entries)
      && NoDoubles(Model(), same)
    }

    ghost predicate Valid()
      reads this, buckets, bucketsList, entries
    {
      Sound() && 4 * |entries| <= 3 * numBucketPlaces
    }

    /** The keys and their values in the order in which the keys came. */
    ghost function Model(): seq<Pair<K, V>>
      reads this, entries
    {
      PairsOf(entries)
    }

    constructor (hash: K -> nat, same: Sameness<K>)
      requires Coherent(same, hash)
      ensures Valid() && Model() == [] && this.hash == hash && this.same == same
      ensures fresh(buckets) && bucketsList == [] && entries == [] && numBucketPlaces == 8
    {
      this.hash, this.same := hash, same;
      numBucketPlaces := INITIAL_PLACES;
      var places := new Bucket?<K, V>[INITIAL_PLACES](_ => null);
      buckets := places;
      bucketsList, entries := [], [];
      new;
      EmptyIsFiled(buckets);
    }

    /** What is found under a key is the one entry with that key. */
    lemma OnlyPlace(entry: Entry<K, V>, key: K, h: nat)
      requires Valid() && h < |Chains(buckets, bucketsList)| && entry in Chains(buckets, bucketsList)[h]
      requires same(entry.key, key)
      ensures
        var k := Place(Model(), same, key);
        k < |entries| && entries[k] == entry
    {
      hide Shelved, Chains, Hashed, Place, NoDoubles, Distinct;
      assert entry in Members(entries);
      var i: nat :| i < |entries| && entries[i] == entry;
      PlaceIs(Model(), same, key, i);
    }

    method Get(key: K) returns (found: Entry?<K, V>)
      requires Valid()
      ensures
        var k := Place(Model(), same, key);
        found == if k < |entries| then entries[k] else null
    {
      hide Shelved, Filed, Chains, Hashed, Place, NoDoubles, Distinct, Coherent;
      var place := hash(key) % numBucketPlaces;
      ghost var chains := Chains(buckets, bucketsList);
      ghost var at := Place(Model(), same, key);
      PlaceTells(Model(), same, key);
      if at < |entries| {
        FiledWhereAsked(chains, entries, same, hash, entries[at], key);
      }
      ChainIs(buckets, bucketsList, place);
      if buckets[place] != null {
        var bucket := buckets[place];
        for i := 0 to |bucket.entries|
          invariant at < |entries| ==> entries[at] !in bucket.entries[..i]
        {
          var entry := bucket.entries[i];
          if same(entry.key, key) {
            OnlyPlace(entry, key, place);
            return entry;
          }
        }
      }
      return null;
    }

    lemma CoherentKeys()
      requires Sound()
      ensures Equivalence(same)
    {
    }

    lemma SoundPlaces()
      requires Sound()
      ensures numBucketPlaces > 0
    {
    }

    lemma NotOverloaded()
      requires Valid()
      ensures 4 * |entries| <= 3 * numBucketPlaces
    {
    }

    method ResizeToLength(newNumBucketPlaces: nat)
      requires Sound() && newNumBucketPlaces > 0
      modifies this
      ensures Sound() && entries == old(entries) && numBucketPlaces == newNumBucketPlaces
      ensures fresh(buckets) && forall n: nat :: n < |bucketsList| ==> fresh(bucketsList[n])
    {
      hide Shelved, Filed, Chains, Hashed, NoDoubles, Distinct, Coherent;
      var newBuckets, newBucketsList := Refile(hash, buckets, bucketsList, newNumBucketPlaces, entries);
      bucketsList := newBucketsList;
      buckets := newBuckets;
      numBucketPlaces := newNumBucketPlaces;
    }

    /** Nothing has joined the map but what was made since. */
    twostate predicate GrownOnlyFresh()
      reads this
    {
      && (buckets == old(buckets) || fresh(buckets))
      && (forall n: nat :: n < |bucketsList| ==> bucketsList[n] in old(bucketsList) || fresh(bucketsList[n]))
      && (forall n: nat :: n < |entries| ==> entries[n] in old(entries) || fresh(entries[n]))
    }

    method Overwrite(entry: Entry<K, V>, newKey: K, newValue: V)
      requires Valid()
      requires
        var k := Place(Model(), same, newKey);
        k < |entries| && entry == entries[k]
      modifies entry
      ensures Valid() && Model() == Put(old(Model()), same, newKey, newValue)
      ensures entry.key == newKey && entry.value == newValue
    {
      hide Chains, Equivalence, Filed, FirstMatch, Linked, Members, NoDoubles;
      ghost var k := Place(Model(), same, newKey);
      PlaceTells(Model(), same, newKey);
      PutKeepsNoDoubles(Model(), same, newKey, newValue);
      OthersDiffer(entries, k);
      entry.key := newKey;
      entry.value := newValue;
      assert Model() == Put(old(Model()), same, newKey, newValue);
    }

    method AddEntry(entry: Entry<K, V>)
      requires Sound() && Place(Model(), same, entry.key) == |entries|
      requires entry !in entries && entry.code == hash(entry.key)
      modifies this, buckets, bucketsList
      ensures Sound() && Model() == old(Model()) + [Pair(entry.key, entry.value)]
      ensures entries == old(entries) + [entry] && buckets == old(buckets) && numBucketPlaces == old(numBucketPlaces)
      ensures forall n: nat :: n < |bucketsList| ==> bucketsList[n] in old(bucketsList) || fresh(bucketsList[n])
    {
      hide Shelved, Filed, Chains, Hashed, NoDoubles, Distinct, Coherent, Place, PairsOf, Members;
      CoherentKeys();
      PutKeepsNoDoubles(Model(), same, entry.key, entry.value);
      NotAMember(entries, entry);
      OneMore(hash, entries, entry);
      bucketsList := File(hash, buckets, bucketsList, entry, Members(entries));
      entries := entries + [entry];
    }

    method AddNew(newKey: K, newValue: V) returns (entry: Entry<K, V>)
      requires Valid() && Place(Model(), same, newKey) == |entries|
      modifies this, buckets, bucketsList
      ensures Valid() && Model() == Put(old(Model()), same, newKey, newValue)
      ensures fresh(entry) && entries == old(entries) + [entry]
      ensures entry.key == newKey && entry.value == newValue
      ensures numBucketPlaces
           == if 4 * |entries| > 3 * old(numBucketPlaces) then 2 * old(numBucketPlaces) else old(numBucketPlaces)
      ensures GrownOnlyFresh()
    {
      hide Sound, Place;
      SoundPlaces();
      entry := new Entry(newKey, newValue, hash(newKey));
      AddEntry(entry);
      if 4 * |entries| > 3 * numBucketPlaces {
        ResizeToLength(numBucketPlaces * 2);
      }
    }

    method Insert(newKey: K, newValue: V) returns (entry: Entry<K, V>)
      requires Valid()
      modifies this, buckets, bucketsList, entries
      ensures Valid() && Model() == Put(old(Model()), same, newKey, newValue)
      ensures entry in entries && entry.key == newKey && entry.value == newValue
      ensures numBucketPlaces
           == if 4 * |entries| > 3 * old(numBucketPlaces) then 2 * old(numBucketPlaces) else old(numBucketPlaces)
      ensures GrownOnlyFresh()
    {
      hide Valid, Place, Put;
      NotOverloaded();
      var found := Get(newKey);
      if found != null {
        entry := found;
        Overwrite(entry, newKey, newValue);
      } else {
        entry := AddNew(newKey, newValue);
      }
    }

    method DeleteEntry(entry: Entry<K, V>, place: nat)
      requires Valid() && entry in entries && place == hash(entry.key) % numBucketPlaces
      modifies this, buckets, bucketsList
      ensures Valid() && GrownOnlyFresh() && numBucketPlaces == old(numBucketPlaces)
      ensures forall k: nat :: k < |old(entries)| && old(entries)[k] == entry ==>
        Model() == Dropped(old(Model()), k) && entries == Dropped(old(entries), k)
    {
      hide Shelved, Filed, Chains, Hashed, NoDoubles, Distinct, Coherent, PairsOf, Members, Without, Linked,
        FirstMatch, Place, Put, Removed;
      ghost var k: nat :| k < |entries| && entries[k] == entry;
      NotAMember(entries, entry);
      OneLess(hash, entries, k);
      OneMemberLess(entries, k);
      DroppedKeepsNoDoubles(Model(), same, k);
      OthersDiffer(entries, k);
      bucketsList := Unfile(buckets, bucketsList, entry, place, Members(entries));
      entries := Without(entries, entry);
      assert entries == Dropped(old(entries), k) && Model() == Dropped(old(Model()), k);
      assert Sound();
    }

    method Delete(key: K)
      requires Valid()
      modifies this, buckets, bucketsList
      ensures Valid() && Model() == Removed(old(Model()), same, key) && numBucketPlaces == old(numBucketPlaces)
      ensures GrownOnlyFresh()
    {
      hide Shelved, Filed, Chains, Hashed, Place, NoDoubles, Distinct, Coherent;
      var place := hash(key) % numBucketPlaces;
      ghost var chains := Chains(buckets, bucketsList);
      ghost var at := Place(Model(), same, key);
      PlaceTells(Model(), same, key);
      if at < |entries| {
        FiledWhereAsked(chains, entries, same, hash, entries[at], key);
      }
      ChainIs(buckets, bucketsList, place);
      if buckets[place] != null {
        var bucket := buckets[place];
        for i := 0 to |bucket.entries|
          invariant at < |entries| ==> entries[at] !in bucket.entries[..i]
          invariant bucket.entries == Chains(buckets, bucketsList)[place]
        {
          var entry := bucket.entries[i];
          if same(entry.key, key) {
            OnlyPlace(entry, key, place);
            HashesAgree(same, hash, entry.key, key);
            DeleteEntry(entry, place);
            return;
          }
        }
      }
    }

    method Clear()
      requires Valid()
      modifies this, buckets, bucketsList
      ensures Valid() && Model() == [] && GrownOnlyFresh() && numBucketPlaces == old(numBucketPlaces)
    {
      hide Shelved, Filed, Chains, Hashed, NoDoubles, Distinct, Coherent, PairsOf;
      while entries != []
        invariant Valid() && GrownOnlyFresh() && numBucketPlaces == old(numBucketPlaces)
        decreases |entries|
      {
        var entry := entries[0];
        var place := hash(entry.key) % numBucketPlaces;
        DeleteEntry(entry, place);
      }
    }

    method ServeOne(r: Request<K, V>)
      requires Valid()
      modifies this, buckets, bucketsList, entries
      ensures Valid() && Model() == Serve(old(Model()), same, r)
      ensures GrownOnlyFresh()
    {
      hide Sound, Model, Put, Removed;
      match r
      case Insert(key, value) => var _ := Insert(key, value);
      case Delete(key) => Delete(key);
      case Clear => Clear();
    }
  }

  /** Serves requests, one after another, on a new map. */
  method ServeRequests<K(!new), V>(
      hash: K -> nat, same: Sameness<K>, rs: seq<Request<K, V>>)
    returns (served: HashMap<K, V>)
    requires Coherent(same, hash)
    ensures served.Valid() && served.Model() == ServeAll(rs, same)
    ensures forall key :: Get(served.Model(), same, key) == LastWord(rs, same, key)
  {
    hide Get, LastWord, PairsOf, Put, Removed, Serve, HashMap.Sound, HashMap.Model;
    served := new HashMap(hash, same);
    for i := 0 to |rs|
      invariant served.Valid() && served.same == same && served.Model() == ServeAll(rs[..i], same)
      invariant fresh(served) && fresh(served.buckets)
      invariant forall n: nat :: n < |served.bucketsList| ==> fresh(served.bucketsList[n])
      invariant forall n: nat :: n < |served.entries| ==> fresh(served.entries[n])
    {
      assert rs[..i + 1][..i] == rs[..i];
      served.ServeOne(rs[i]);
    }
    assert rs[..|rs|] == rs;
    forall key
      ensures Get(served.Model(), same, key) == LastWord(rs, same, key)
    {
      GetIsTheLastWord(rs, same, key);
    }
  }
}
