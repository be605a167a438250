/** Open-addressing tables as values: tags, keys and values, bucket by bucket. */
module Tables {
  import opened Sizes
  import opened Words
  import opened Probing
  import opened Flags

  // ----- Counting buckets -----

  function Count(tags: seq<Tag>, t: Tag): nat {
    if tags == [] then 0 else Count(tags[..|tags| - 1], t) + if tags[|tags| - 1] == t then 1 else 0
  }

  lemma {:induction false} CountSet(tags: seq<Tag>, i: nat, u: Tag, t: Tag)
    requires i < |tags|
    ensures Count(tags[i := u], t) == Count(tags, t) - (if tags[i] == t then 1 else 0) + (if u == t then 1 else 0)
    decreases |tags|
  {
    var n := |tags| - 1;
    if i < n {
      CountSet(tags[..n], i, u, t);
      assert tags[i := u][..n] == tags[..n][i := u];
    } else {
      assert tags[i := u][..n] == tags[..n];
    }
  }

  lemma {:induction false} CountSome(tags: seq<Tag>, t: Tag)
    ensures Count(tags, t) > 0 <==> t in tags
    ensures Count(tags, t) <= |tags|
    ensures Count(tags, t) == |tags| <==> forall i | 0 <= i < |tags| :: tags[i] == t
  {
    if tags != [] {
      var n := |tags| - 1;
      CountSome(tags[..n], t);
      assert tags == tags[..n] + [tags[n]];
    }
  }

  lemma {:induction false} CountAll(tags: seq<Tag>)
    requires Broken !in tags
    ensures Count(tags, Live) + Count(tags, Deleted) + Count(tags, Empty) == |tags|
  {
    if tags != [] {
      CountAll(tags[..|tags| - 1]);
    }
  }

  // ----- Probe paths -----

  /** The first s positions of the probe sequence are not empty. */
  ghost predicate Passes(tags: seq<Tag>, h: nat, s: nat)
    requires |tags| > 0
  {
    forall t | 0 <= t < s :: tags[Probe(h, |tags|, t)] != Empty
  }

  /** Bucket x is on the probe path of h before any empty bucket. */
  ghost predicate Reached(tags: seq<Tag>, h: nat, x: int)
    requires |tags| > 0
  {
    exists s: nat :: ReachedAt(tags, h, x, s)
  }

  ghost predicate ReachedAt(tags: seq<Tag>, h: nat, x: int, s: nat)
    requires |tags| > 0
  {
    Probe(h, |tags|, s) == x && Passes(tags, h, s)
  }

  // ----- Where a new key goes -----

  /** Bucket x is the last deleted one among the first s positions, t being its position. */
  ghost predicate GoneAt(tags: seq<Tag>, h: nat, s: nat, x: nat, t: nat)
    requires |tags| > 0
  {
    && t < s && x < |tags| && Probe(h, |tags|, t) == x && tags[x] == Deleted
    && forall u | t < u < s :: tags[Probe(h, |tags|, u)] != Deleted
  }

  /** The last deleted bucket among the first s positions is x; the number of buckets when there
      is none. */
  ghost predicate LastGone(tags: seq<Tag>, h: nat, s: nat, x: nat)
    requires |tags| > 0
  {
    if x == |tags| then forall t | 0 <= t < s :: tags[Probe(h, |tags|, t)] != Deleted
    else exists t: nat :: GoneAt(tags, h, s, x, t)
  }

  /** The probe path of h ends at position s, with the first empty bucket. */
  ghost predicate PathEnds(tags: seq<Tag>, h: nat, s: nat)
    requires |tags| > 0
  {
    Passes(tags, h, s) && tags[Probe(h, |tags|, s)] == Empty
  }

  /** Where a new key goes: into the last deleted bucket of its path, or, when the path has none,
      into the empty bucket at its end. */
  ghost predicate Destination(tags: seq<Tag>, h: nat, x: nat)
    requires |tags| > 0
  {
    exists s: nat :: PathEnds(tags, h, s) &&
      if LastGone(tags, h, s, |tags|) then x == Probe(h, |tags|, s) else LastGone(tags, h, s, x)
  }

  lemma GoneStep(tags: seq<Tag>, h: nat, s: nat, x: nat)
    requires |tags| > 0 && LastGone(tags, h, s, x)
    ensures var p := Probe(h, |tags|, s); LastGone(tags, h, s + 1, if tags[p] == Deleted then p else x)
  {
    hide Probe;
    var p := Probe(h, |tags|, s);
    if tags[p] == Deleted {
      assert GoneAt(tags, h, s + 1, p, s);
    } else if x != |tags| {
      var t: nat :| GoneAt(tags, h, s, x, t);
      assert GoneAt(tags, h, s + 1, x, t);
    }
  }

  lemma GoneOrNone(tags: seq<Tag>, h: nat, s: nat, x: nat)
    requires |tags| > 0 && LastGone(tags, h, s, x)
    ensures x == |tags| <==> LastGone(tags, h, s, |tags|)
    ensures x != |tags| && Passes(tags, h, s) ==> x < |tags| && tags[x] == Deleted && Reached(tags, h, x)
  {
    hide Probe;
    if x != |tags| {
      var t: nat :| GoneAt(tags, h, s, x, t);
      if Passes(tags, h, s) { assert ReachedAt(tags, h, x, t); }
    }
  }

  /** A bucket on the path of h is at a position before its end, or is the end. */
  lemma OnPath(tags: seq<Tag>, h: nat, s: nat, y: nat) returns (t: nat)
    requires |tags| > 0 && y < |tags| && PathEnds(tags, h, s) && Reached(tags, h, y)
    ensures t <= s && Probe(h, |tags|, t) == y
  {
    hide Probe;
    t :| ReachedAt(tags, h, y, t);
  }

  /** A new key reuses a deleted bucket exactly when its path has one, however far along. */
  lemma DestinationReuses(tags: seq<Tag>, h: nat, x: nat)
    requires |tags| > 0 && Destination(tags, h, x)
    ensures x < |tags| && tags[x] in {Empty, Deleted} && Reached(tags, h, x)
    ensures tags[x] == Deleted <==> exists y: nat :: y < |tags| && tags[y] == Deleted && Reached(tags, h, y)
  {
    hide Probe, Reached;
    var s: nat :| PathEnds(tags, h, s) &&
      if LastGone(tags, h, s, |tags|) then x == Probe(h, |tags|, s) else LastGone(tags, h, s, x);
    if LastGone(tags, h, s, |tags|) {
      assert Reached(tags, h, x) by { ReachedBy(tags, h, x, s); }
      forall y: nat | y < |tags| && tags[y] == Deleted ensures !Reached(tags, h, y) {
        if Reached(tags, h, y) { var t := OnPath(tags, h, s, y); }
      }
    } else {
      GoneOrNone(tags, h, s, x);
    }
  }

  lemma ReachedBy(tags: seq<Tag>, h: nat, x: nat, s: nat)
    requires |tags| > 0 && Probe(h, |tags|, s) == x && Passes(tags, h, s)
    ensures Reached(tags, h, x)
  {
    assert ReachedAt(tags, h, x, s);
  }

  lemma ReachedKept(tags: seq<Tag>, h: nat, x: int, i: nat, u: Tag)
    requires i < |tags| && u != Empty && Reached(tags, h, x)
    ensures Reached(tags[i := u], h, x)
  {
    hide Probe;
    var s: nat :| ReachedAt(tags, h, x, s);
    assert ReachedAt(tags[i := u], h, x, s);
  }

  /** Some bucket is empty, so the first n positions are not all occupied. */
  lemma ProbeEnds(tags: seq<Tag>, h: nat)
    requires |tags| > 0 && PowerOfTwo(|tags|) && Empty in tags
    ensures !Passes(tags, h, |tags|)
  {
    hide Probe, Pow2;
    var m: nat :| |tags| == Pow2(m);
    var x :| 0 <= x < |tags| && tags[x] == Empty;
    VisitsAll(h, m, x);
  }

  // ----- Tables -----

  ghost predicate Holds<K, V>(tags: seq<Tag>, keys: seq<K>, x: int, k: K) {
    0 <= x < |tags| && x < |keys| && tags[x] == Live && keys[x] == k
  }

  /** The buckets hold exactly the pairs of M, each key once and where its probe path leads. */
  ghost predicate TableOK<K, V>(hash: K -> nat, tags: seq<Tag>, keys: seq<K>, vals: seq<V>, M: map<K, V>) {
    && |tags| > 0 && PowerOfTwo(|tags|) && |tags| <= |keys| && |tags| <= |vals| && Broken !in tags
    && (forall x | 0 <= x < |tags| && tags[x] == Live :: keys[x] in M && M[keys[x]] == vals[x])
    && (forall x, y | 0 <= x < |tags| && 0 <= y < |tags| && tags[x] == Live && tags[y] == Live && keys[x] == keys[y] :: x == y)
    && (forall k | k in M :: exists x :: Holds<K, V>(tags, keys, x, k))
    && (forall x | 0 <= x < |tags| && tags[x] == Live :: Reached(tags, hash(keys[x]), x))
  }

  /** No position before s holds the key. */
  ghost predicate Unseen<K>(tags: seq<Tag>, keys: seq<K>, key: K, h: nat, s: nat)
    requires 0 < |tags| <= |keys|
  {
    forall t | 0 <= t < s :: var i := Probe(h, |tags|, t); tags[i] == Live ==> keys[i] != key
  }

  /** An empty bucket ends the search: the key is nowhere. */
  lemma NotThere<K, V>(hash: K -> nat, tags: seq<Tag>, keys: seq<K>, vals: seq<V>, M: map<K, V>, key: K, s: nat)
    requires TableOK(hash, tags, keys, vals, M) && Passes(tags, hash(key), s) && Unseen(tags, keys, key, hash(key), s)
    requires tags[Probe(hash(key), |tags|, s)] == Empty
    ensures key !in M
  {
    hide Probe;
    forall x ensures !Holds<K, V>(tags, keys, x, key) {}
  }

  /** A key not in the table goes into a bucket that is not live, on its probe path. */
  lemma Placed<K, V>(hash: K -> nat, tags: seq<Tag>, keys: seq<K>, vals: seq<V>, M: map<K, V>, key: K, x: nat)
    requires TableOK(hash, tags, keys, vals, M) && key !in M && x < |tags| && tags[x] != Live && Reached(tags, hash(key), x)
    ensures TableOK(hash, tags[x := Live], keys[x := key], vals, M[key := vals[x]])
  {
    hide Reached, PowerOfTwo;
    var D, ks, N := tags[x := Live], keys[x := key], M[key := vals[x]];
    forall k | k in N ensures exists y :: Holds<K, V>(D, ks, y, k) {
      if k == key {
        assert Holds<K, V>(D, ks, x, k);
      } else {
        var y :| Holds<K, V>(tags, keys, y, k);
        assert Holds<K, V>(D, ks, y, k);
      }
    }
    forall y | 0 <= y < |D| && D[y] == Live ensures Reached(D, hash(ks[y]), y) {
      ReachedKept(tags, hash(ks[y]), y, x, Live);
    }
  }

  lemma Removed<K, V>(hash: K -> nat, tags: seq<Tag>, keys: seq<K>, vals: seq<V>, M: map<K, V>, x: nat)
    requires TableOK(hash, tags, keys, vals, M) && x < |tags| && tags[x] == Live
    ensures TableOK(hash, tags[x := Deleted], keys, vals, M - {keys[x]})
  {
    hide Reached, PowerOfTwo;
    var D, N := tags[x := Deleted], M - {keys[x]};
    forall k | k in N ensures exists y :: Holds<K, V>(D, keys, y, k) {
      var y :| Holds<K, V>(tags, keys, y, k);
      assert Holds<K, V>(D, keys, y, k);
    }
    forall y | 0 <= y < |D| && D[y] == Live ensures Reached(D, hash(keys[y]), y) {
      ReachedKept(tags, hash(keys[y]), y, x, Deleted);
    }
  }

  lemma Revalued<K, V>(hash: K -> nat, tags: seq<Tag>, keys: seq<K>, vals: seq<V>, M: map<K, V>, x: nat, v: V)
    requires TableOK(hash, tags, keys, vals, M) && x < |tags| && tags[x] == Live
    ensures TableOK(hash, tags, keys, vals[x := v], M[keys[x] := v])
  {
    hide Reached, PowerOfTwo;
  }

  lemma AllEmptyOK<K, V>(hash: K -> nat, tags: seq<Tag>, keys: seq<K>, vals: seq<V>)
    requires |tags| > 0 && PowerOfTwo(|tags|) && |tags| <= |keys| && |tags| <= |vals|
    requires forall i | 0 <= i < |tags| :: tags[i] == Empty
    ensures TableOK(hash, tags, keys, vals, map[])
  {}

  /** The number of live buckets is the number of keys. */
  lemma {:induction false} LiveKeys<K, V>(hash: K -> nat, tags: seq<Tag>, keys: seq<K>, vals: seq<V>, M: map<K, V>)
    requires TableOK(hash, tags, keys, vals, M)
    ensures |M| == Count(tags, Live)
    decreases |M|
  {
    hide Reached, PowerOfTwo;
    CountSome(tags, Live);
    if x :| 0 <= x < |tags| && tags[x] == Live {
      Removed(hash, tags, keys, vals, M, x);
      CountSet(tags, x, Deleted, Live);
      assert M.Keys == (M - {keys[x]}).Keys + {keys[x]};
      assert |M| == |M.Keys| && |M - {keys[x]}| == |(M - {keys[x]}).Keys|;
      LiveKeys(hash, tags[x := Deleted], keys, vals, M - {keys[x]});
    } else {
      forall k, y ensures !Holds<K, V>(tags, keys, y, k) {}
      assert M == map[];
    }
  }
}
