/** Whole runs of a hash table: any sequence of gets, puts, deletes and clears is one of a finite map. */
module KClients {
  import opened Sizes
  import opened Words
  import opened Probing
  import opened Flags
  import opened Tables
  import opened KHashes

  /** What a client may do. Store is kh_put followed, unless that failed, by a store of the value
      into the bucket; Drop is kh_get followed by kh_del of the bucket. The allocations a Store may
      need succeed or fail as they like. */
  datatype Op<K, V> =
    | Look(key: K)
    | Store(key: K, value: V, flagsFit: bool, keysFit: bool, valsFit: bool)
    | Drop(key: K)
    | Wipe

  datatype Answer<V> = Missing | Found(value: V) | Code(ret: int) | Done

  const MAX_PAIRS: nat := U32_LIMIT / 4

  /** Past that many pairs the doubling of the table can wrap. */
  ghost predicate Legal<K, V>(m: map<K, V>, op: Op<K, V>) { op.Store? ==> |m| < MAX_PAIRS }

  /** What the operation does to the map, and what it answers. */
  ghost predicate Abstract<K, V>(m: map<K, V>, op: Op<K, V>, a: Answer<V>, m': map<K, V>) {
    match op
    case Look(key) => m' == m && a == if key in m then Found(m[key]) else Missing
    case Store(key, value, f, k, v) =>
      if a == Code(-1) then m' == m && !(f && k && v)
      else m' == m[key := value] && a.Code? && (if key in m then a.ret == 0 else a.ret in {1, 2})
    case Drop(key) => m' == m - {key} && a == Done
    case Wipe => m' == map[] && a == Done
  }

  lemma UpdateTwice<K, V>(m: map<K, V>, key: K, u: V, v: V)
    ensures m[key := u][key := v] == m[key := v]
  {}

  /** kh_put, and the store of the value that a caller makes after it. */
  method StorePair<K(==, 0), V(0)>(h: KHash<K, V>, key: K, value: V, flagsFit: bool, keysFit: bool, valsFit: bool) returns (ret: int)
    requires h.Valid() && |h.M| < MAX_PAIRS
    modifies h, h.flags, h.keys, h.vals
    ensures h.Valid() && Abstract(old(h.M), Store(key, value, flagsFit, keysFit, valsFit), Code(ret), h.M)
    ensures (h.flags == old(h.flags) || fresh(h.flags)) && (h.keys == old(h.keys) || fresh(h.keys)) && (h.vals == old(h.vals) || fresh(h.vals))
  {
    hide TableOK, Count, Tags, Reached, PowerOfTwo, UpperBound;
    h.SizeCounts();
    h.RoomBelow();
    ghost var m := h.M;
    var x;
    x, ret := h.Put(key, flagsFit, keysFit, valsFit);
    if ret != -1 {
      if ret != 0 { UpdateTwice(m, key, h.vals[x], value); }
      h.SetValue(x, value);
    }
  }

  /** kh_get, and kh_del of what it found. */
  method DropKey<K(==, 0), V(0)>(h: KHash<K, V>, key: K)
    requires h.Valid()
    modifies h, h.flags
    ensures h.Valid() && h.M == old(h.M) - {key}
    ensures h.flags == old(h.flags) && h.keys == old(h.keys) && h.vals == old(h.vals)
  {
    hide TableOK, Count, Tags, Reached, PowerOfTwo, UpperBound;
    var x := h.Get(key);
    h.Del(x);
    if key !in old(h.M) { assert h.M == old(h.M) - {key}; }
  }

  method Perform<K(==, 0), V(0)>(h: KHash<K, V>, op: Op<K, V>) returns (a: Answer<V>)
    requires h.Valid() && Legal(h.M, op)
    modifies h, h.flags, h.keys, h.vals
    ensures h.Valid() && Abstract(old(h.M), op, a, h.M)
    ensures (h.flags == old(h.flags) || fresh(h.flags)) && (h.keys == old(h.keys) || fresh(h.keys)) && (h.vals == old(h.vals) || fresh(h.vals))
  {
    hide TableOK, Count, Tags, Reached, PowerOfTwo, UpperBound;
    match op
    case Look(key) =>
      var x := h.Get(key);
      a := if x == h.buckets then Missing else Found(h.vals[x]);
    case Store(key, value, f, k, v) =>
      var ret := StorePair(h, key, value, f, k, v);
      a := Code(ret);
    case Drop(key) =>
      DropKey(h, key);
      a := Done;
    case Wipe =>
      h.Clear();
      a := Done;
  }

  // ----- Runs -----

  /** A client picks each operation from the answers so far. */
  type Client<!K, !V> = seq<Answer<V>> -> Op<K, V>

  ghost predicate StepAt<K, V>(client: Client<K, V>, maps: seq<map<K, V>>, answers: seq<Answer<V>>, i: nat)
    requires i < |answers| < |maps|
  {
    Abstract(maps[i], client(answers[..i]), answers[i], maps[i + 1])
  }

  /** From m on, the client and a finite map could have gone through these. */
  ghost predicate AbstractRun<K, V>(client: Client<K, V>, m: map<K, V>, maps: seq<map<K, V>>, answers: seq<Answer<V>>) {
    && |maps| == |answers| + 1 && maps[0] == m
    && forall i | 0 <= i < |answers| :: StepAt(client, maps, answers, i)
  }

  /** Whatever the answers, the client's next operation is legal. */
  ghost predicate Lawful<K(!new), V(!new)>(client: Client<K, V>, m: map<K, V>) {
    forall maps, answers | AbstractRun(client, m, maps, answers) :: Legal(maps[|answers|], client(answers))
  }

  lemma RunExtends<K, V>(client: Client<K, V>, m: map<K, V>, maps: seq<map<K, V>>, answers: seq<Answer<V>>, a: Answer<V>, m': map<K, V>)
    requires AbstractRun(client, m, maps, answers) && Abstract(maps[|answers|], client(answers), a, m')
    ensures AbstractRun(client, m, maps + [m'], answers + [a])
  {
    forall i | 0 <= i < |answers| + 1 ensures StepAt(client, maps + [m'], answers + [a], i) {
      if i < |answers| {
        assert StepAt(client, maps, answers, i) && (answers + [a])[..i] == answers[..i];
      } else {
        assert (answers + [a])[..i] == answers;
      }
    }
  }

  /** Over any number of operations by any lawful client, with allocations failing at will, the
      table stays valid and answers as a finite map does. */
  method Run<K(==, 0, !new), V(0, !new)>(h: KHash<K, V>, client: Client<K, V>, steps: nat)
    returns (answers: seq<Answer<V>>, ghost maps: seq<map<K, V>>)
    requires h.Valid() && Lawful(client, h.M)
    modifies h, h.flags, h.keys, h.vals
    ensures h.Valid() && |answers| == steps
    ensures AbstractRun(client, old(h.M), maps, answers) && maps[steps] == h.M
  {
    hide TableOK, Count, Tags, Abstract, Legal;
    ghost var m := h.M;
    answers, maps := [], [m];
    for n := 0 to steps
      invariant h.Valid() && |answers| == n
      invariant (h.flags == old(h.flags) || fresh(h.flags)) && (h.keys == old(h.keys) || fresh(h.keys)) && (h.vals == old(h.vals) || fresh(h.vals))
      invariant AbstractRun(client, m, maps, answers) && maps[n] == h.M
    {
      assert Legal(maps[|answers|], client(answers));
      var a := Perform(h, client(answers));
      RunExtends(client, m, maps, answers, a, h.M);
      answers, maps := answers + [a], maps + [h.M];
    }
  }

  /** The operation does not change what the map says of the key. */
  predicate LeavesKey<K(==), V>(op: Op<K, V>, key: K) {
    op.Look? || (!op.Wipe? && op.key != key)
  }

  /** In every run a key stays, with its value, or stays away, until the client stores or drops it
      or wipes the table; whatever a get answers in between is the value last stored. */
  lemma {:induction false} KeyPersists<K, V>(client: Client<K, V>, m: map<K, V>, maps: seq<map<K, V>>, answers: seq<Answer<V>>, key: K)
    requires AbstractRun(client, m, maps, answers)
    requires forall i | 0 <= i < |answers| :: LeavesKey(client(answers[..i]), key)
    ensures key in maps[|answers|] <==> key in m
    ensures key in m ==> maps[|answers|][key] == m[key]
    decreases |answers|
  {
    var n := |answers|;
    if n > 0 {
      var as', ms := answers[..n - 1], maps[..n];
      forall i | 0 <= i < n - 1 ensures StepAt(client, ms, as', i) && LeavesKey(client(as'[..i]), key) {
        assert StepAt(client, maps, answers, i) && as'[..i] == answers[..i];
        assert LeavesKey(client(answers[..i]), key);
      }
      KeyPersists(client, m, ms, as', key);
      assert StepAt(client, maps, answers, n - 1) && LeavesKey(client(answers[..n - 1]), key);
    }
  }
}
