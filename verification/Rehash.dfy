/** The in-place rehash: two sets of flags over one array of keys and one of values. */
module Rehash {
  import opened Words
  import opened Probing
  import opened Flags
  import opened Tables

  /** Where a key is while the table is rehashed: still under the old flags, placed under the
      new ones, or in hand. */
  datatype Spot = Old(x: int) | New(x: int) | Hand

  /** The pair in hand, if there is one. */
  datatype Held<K, V> = Nothing | Pair(key: K, val: V)

  ghost predicate AtSpot<K, V>(O: seq<Tag>, N: seq<Tag>, keys: seq<K>, vals: seq<V>, held: Held<K, V>, spot: Spot, k: K, v: V) {
    match spot
    case Old(x) => 0 <= x < |O| && x < |keys| && x < |vals| && O[x] == Live && keys[x] == k && vals[x] == v
    case New(x) => 0 <= x < |N| && x < |keys| && x < |vals| && N[x] == Live && keys[x] == k && vals[x] == v
    case Hand => held == Pair(k, v)
  }

  ghost predicate Roomy<K, V>(O: seq<Tag>, N: seq<Tag>, keys: seq<K>, vals: seq<V>) {
    && |N| > 0 && PowerOfTwo(|N|) && |O| <= |keys| && |O| <= |vals| && |N| <= |keys| && |N| <= |vals|
    && Broken !in O && Broken !in N && Deleted !in N
  }

  /** Every pair of M is in exactly one spot, and every live bucket and the hand hold one. */
  ghost predicate RehashOK<K, V>(hash: K -> nat, O: seq<Tag>, N: seq<Tag>, keys: seq<K>, vals: seq<V>,
                                 M: map<K, V>, held: Held<K, V>, at: map<K, Spot>) {
    && Roomy(O, N, keys, vals) && at.Keys == M.Keys
    && (forall k | k in M :: AtSpot(O, N, keys, vals, held, at[k], k, M[k]))
    && (forall x | 0 <= x < |O| && O[x] == Live :: keys[x] in at && at[keys[x]] == Old(x))
    && (forall x | 0 <= x < |N| && N[x] == Live :: keys[x] in at && at[keys[x]] == New(x))
    && (held.Pair? ==> held.key in at && at[held.key] == Hand)
    && (forall x | 0 <= x < |N| && N[x] == Live :: Reached(N, hash(keys[x]), x))
  }

  /** No bucket is live under both sets of flags. */
  lemma NeverBoth<K, V>(hash: K -> nat, O: seq<Tag>, N: seq<Tag>, keys: seq<K>, vals: seq<V>,
                        M: map<K, V>, held: Held<K, V>, at: map<K, Spot>, x: nat)
    requires RehashOK(hash, O, N, keys, vals, M, held, at) && x < |O| && x < |N|
    ensures !(O[x] == Live && N[x] == Live)
  {}

  ghost function FirstSpot<K, V>(tags: seq<Tag>, keys: seq<K>, k: K): Spot
    requires exists x :: Holds<K, V>(tags, keys, x, k)
  {
    var x :| Holds<K, V>(tags, keys, x, k);
    Old(x)
  }

  lemma RehashStarts<K, V>(hash: K -> nat, O: seq<Tag>, N: seq<Tag>, keys: seq<K>, vals: seq<V>, M: map<K, V>) returns (at: map<K, Spot>)
    requires Roomy(O, N, keys, vals) && forall x | 0 <= x < |N| :: N[x] == Empty
    requires if |O| == 0 then M == map[] else TableOK(hash, O, keys, vals, M)
    ensures RehashOK(hash, O, N, keys, vals, M, Nothing, at)
  {
    hide Reached, PowerOfTwo;
    at := map k | k in M :: FirstSpot<K, V>(O, keys, k);
    forall x | 0 <= x < |O| && O[x] == Live ensures keys[x] in at && at[keys[x]] == Old(x) {
      assert Holds<K, V>(O, keys, x, keys[x]);
    }
  }

  /** Old bucket j is taken in hand. */
  lemma TakeStep<K, V>(hash: K -> nat, O: seq<Tag>, N: seq<Tag>, keys: seq<K>, vals: seq<V>,
                       M: map<K, V>, at: map<K, Spot>, j: nat) returns (at': map<K, Spot>)
    requires RehashOK(hash, O, N, keys, vals, M, Nothing, at) && j < |O| && O[j] == Live
    ensures RehashOK(hash, O[j := Deleted], N, keys, vals, M, Pair(keys[j], vals[j]), at')
  {
    hide Reached, PowerOfTwo;
    at' := at[keys[j] := Hand];
  }

  /** The pair in hand goes to the new bucket i, whose old resident is taken in hand. */
  lemma KickStep<K, V>(hash: K -> nat, O: seq<Tag>, N: seq<Tag>, keys: seq<K>, vals: seq<V>,
                       M: map<K, V>, held: Held<K, V>, at: map<K, Spot>, i: nat) returns (at': map<K, Spot>)
    requires RehashOK(hash, O, N, keys, vals, M, held, at) && held.Pair?
    requires i < |N| && N[i] == Empty && Reached(N, hash(held.key), i) && i < |O| && O[i] == Live
    ensures RehashOK(hash, O[i := Deleted], N[i := Live], keys[i := held.key], vals[i := held.val], M, Pair(keys[i], vals[i]), at')
  {
    hide Reached, PowerOfTwo;
    at' := at[held.key := New(i)][keys[i] := Hand];
    PlacedPaths(hash, N, keys, held.key, i, N[i := Live], keys[i := held.key]);
  }

  /** Every new live bucket stays on the path of its key when bucket i is filled. */
  lemma PlacedPaths<K>(hash: K -> nat, N: seq<Tag>, keys: seq<K>, key: K, i: nat, D: seq<Tag>, ks: seq<K>)
    requires |N| <= |keys| && i < |N| && Reached(N, hash(key), i) && D == N[i := Live] && ks == keys[i := key]
    requires forall x | 0 <= x < |N| && N[x] == Live :: Reached(N, hash(keys[x]), x)
    ensures forall x | 0 <= x < |D| && D[x] == Live :: Reached(D, hash(ks[x]), x)
  {
    hide Reached;
    forall x | 0 <= x < |D| && D[x] == Live ensures Reached(D, hash(ks[x]), x) {
      ReachedKept(N, hash(ks[x]), x, i, Live);
    }
  }

  /** The pair in hand goes to a new bucket where nothing is in the way. */
  lemma DropStep<K, V>(hash: K -> nat, O: seq<Tag>, N: seq<Tag>, keys: seq<K>, vals: seq<V>,
                       M: map<K, V>, held: Held<K, V>, at: map<K, Spot>, i: nat) returns (at': map<K, Spot>)
    requires RehashOK(hash, O, N, keys, vals, M, held, at) && held.Pair?
    requires i < |N| && N[i] == Empty && Reached(N, hash(held.key), i) && !(i < |O| && O[i] == Live)
    ensures RehashOK(hash, O, N[i := Live], keys[i := held.key], vals[i := held.val], M, Nothing, at')
  {
    hide Reached, PowerOfTwo;
    at' := at[held.key := New(i)];
    PlacedPaths(hash, N, keys, held.key, i, N[i := Live], keys[i := held.key]);
  }

  /** When nothing is live under the old flags, the new table holds what the old one held. */
  lemma RehashEnds<K, V>(hash: K -> nat, O: seq<Tag>, N: seq<Tag>, keys: seq<K>, vals: seq<V>, M: map<K, V>, at: map<K, Spot>)
    requires RehashOK(hash, O, N, keys, vals, M, Nothing, at) && forall x | 0 <= x < |O| :: O[x] != Live
    ensures TableOK(hash, N, keys, vals, M)
  {
    hide Reached, PowerOfTwo;
    forall k | k in M ensures exists x :: Holds<K, V>(N, keys, x, k) {
      assert AtSpot(O, N, keys, vals, Nothing, at[k], k, M[k]);
      assert Holds<K, V>(N, keys, at[k].x, k);
    }
  }

  /** Growing or cutting the arrays past the table changes nothing. */
  lemma TableMoved<K, V>(hash: K -> nat, tags: seq<Tag>, keys: seq<K>, vals: seq<V>, M: map<K, V>, keys': seq<K>, vals': seq<V>)
    requires TableOK(hash, tags, keys, vals, M) && |tags| <= |keys'| && |tags| <= |vals'|
    requires keys'[..|tags|] == keys[..|tags|] && vals'[..|tags|] == vals[..|tags|]
    ensures TableOK(hash, tags, keys', vals', M)
  {
    hide Reached, PowerOfTwo;
    forall x | 0 <= x < |tags| ensures keys'[x] == keys[x] && vals'[x] == vals[x] {
      assert keys'[..|tags|][x] == keys[..|tags|][x] && vals'[..|tags|][x] == vals[..|tags|][x];
    }
    forall k | k in M ensures exists x :: Holds<K, V>(tags, keys', x, k) {
      var x :| Holds<K, V>(tags, keys, x, k);
      assert Holds<K, V>(tags, keys', x, k);
    }
  }
}
