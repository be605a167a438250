/** The hash table of khash.h: kh_get, kh_put, kh_del, kh_clear and the in-place kh_resize. */
module KHashes {
  import opened Sizes
  import opened Words
  import opened Probing
  import opened Flags
  import opened Tables
  import opened Rehash

  /** (khint_t)(n * 0.77 + 0.5), exact for the powers of two below 2^32. */
  function UpperBound(n: nat): nat { (77 * n + 50) / 100 }

  /** What kh_resize rounds a requested size to. */
  function TableSize(requested: nat): nat {
    if RoundUp32(requested) < 4 then 4 else RoundUp32(requested)
  }

  lemma TableSizeExact(requested: nat)
    requires requested < U32_LIMIT
    ensures PowerOfTwo(TableSize(requested)) && 4 <= TableSize(requested) <= U32_LIMIT / 2
    ensures 0 < requested <= U32_LIMIT / 2 ==> requested <= TableSize(requested)
  {
    hide RoundUp32, LeastPow2;
    RoundUp32Exact(requested);
    SmallPowers();
    assert PowerOfTwo(4) by { assert Pow2(2) == 4; }
    if 0 < requested <= U32_LIMIT / 2 {
      LeastPow2Exact(requested);
      HalfWord(requested);
    }
  }

  lemma FlagRoom(n: nat)
    requires PowerOfTwo(n)
    ensures n <= 16 * FlagWords(n)
  {
    hide Pow2;
    var k: nat :| n == Pow2(k);
    var w := 4;
    assert Pow2(w) == 16 by { SmallPowers(); }
    if k < w {
      PowMonotone(k, w);
    } else {
      PowAdd(w, k - w);
      SixteenFold(n, Pow2(k - w));
    }
  }

  lemma SixteenFold(n: nat, m: nat)
    requires n == 16 * m && m > 0
    ensures n <= 16 * FlagWords(n)
  {}

  lemma HalfWord(x: nat)
    requires 0 < x <= U32_LIMIT / 2
    ensures LeastPow2(x) <= U32_LIMIT / 2
  {
    hide LeastPow2;
    LeastPow2Exact(x);
    var k: nat :| LeastPow2(x) == Pow2(k);
    var w := 32;
    Pow32(w);
    if k >= w { PowMonotone(w, k); } else { PowMonotone(k, w - 1); }
  }

  // ----- One step of a probe -----

  lemma ProbeStart(h: nat, n: nat)
    requires PowerOfTwo(n) && n > 0
    ensures BitAnd(h, n - 1) == Probe(h, n, 0)
  {
    var m: nat :| n == Pow2(m);
    LowMask(h, m);
  }

  lemma ProbeNext(h: nat, n: nat, s: nat)
    requires PowerOfTwo(n) && n > 0
    ensures BitAnd(Probe(h, n, s) + (s + 1), n - 1) == Probe(h, n, s + 1)
  {
    hide BitAnd, Pow2, Triangle;
    var m: nat :| n == Pow2(m);
    LowMask(Probe(h, n, s) + (s + 1), m);
    TriangleNext(s);
    ModThenAdd(h + Triangle(s), s + 1, n);
  }

  lemma TriangleNext(s: nat)
    ensures Triangle(s + 1) == Triangle(s) + (s + 1)
  {
    TriangleTwice(s);
    TriangleTwice(s + 1);
    TimesNext(s, s + 1);
    TimesNext(s + 1, s + 1);
    TimesComm(s + 1, s + 1);
  }

  lemma ModThenAdd(x: nat, y: nat, n: nat)
    requires n > 0
    ensures (x % n + y) % n == (x + y) % n
  {
    assert x % n + y + Times(n, x / n) == x + y;
    ModPlus(x % n + y, n, x / n);
  }

  lemma NotBack(h: nat, n: nat, s: nat)
    requires PowerOfTwo(n) && 0 < s < n
    ensures Probe(h, n, s) != Probe(h, n, 0)
  {
    hide Probe;
    var m: nat :| n == Pow2(m);
    FirstReturn(h, m, s);
  }

  // ----- Reading tags -----

  lemma TagReads(flags: seq<bv32>, n: nat, i: nat)
    requires n <= 16 * |flags| && i < n && Broken !in Tags(flags, n)
    ensures WordIsEmpty(flags[i / 16], i % 16) <==> Tags(flags, n)[i] == Empty
    ensures WordIsDel(flags[i / 16], i % 16) <==> Tags(flags, n)[i] == Deleted
    ensures WordIsEither(flags[i / 16], i % 16) <==> Tags(flags, n)[i] != Live
  {
    hide WordIsEmpty, WordIsDel, WordIsEither;
    WordReads(flags[i / 16], i % 16);
    assert Tags(flags, n)[i] in Tags(flags, n);
  }

  /** A loaded table keeps an empty bucket. */
  lemma RoomLeft(tags: seq<Tag>)
    requires |tags| >= 4 && Broken !in tags && Count(tags, Live) + Count(tags, Deleted) <= UpperBound(|tags|)
    ensures Empty in tags
  {
    CountAll(tags);
    CountSome(tags, Empty);
  }

  lemma NoneGoneYet(tags: seq<Tag>, h: nat)
    requires |tags| > 0
    ensures LastGone(tags, h, 0, |tags|)
  {}

  lemma DestinationIs(tags: seq<Tag>, h: nat, s: nat, x: nat)
    requires |tags| > 0 && PathEnds(tags, h, s) && LastGone(tags, h, s, x)
    ensures Destination(tags, h, if x == |tags| then Probe(h, |tags|, s) else x)
  {
    GoneOrNone(tags, h, s, x);
    hide Probe, LastGone, PathEnds;
  }

  lemma ReachedHere(tags: seq<Tag>, h: nat, s: nat)
    requires |tags| > 0 && Passes(tags, h, s)
    ensures Reached(tags, h, Probe(h, |tags|, s))
  {
    hide Probe, Passes;
    assert ReachedAt(tags, h, Probe(h, |tags|, s), s);
  }

  /** A step past an occupied bucket without the key. */
  lemma PassStep<K>(tags: seq<Tag>, keys: seq<K>, key: K, h: nat, s: nat)
    requires 4 <= |tags| <= |keys| && PowerOfTwo(|tags|) && Empty in tags && s < |tags|
    requires Passes(tags, h, s) && Unseen(tags, keys, key, h, s)
    requires var i := Probe(h, |tags|, s); tags[i] != Empty && (tags[i] == Live ==> keys[i] != key)
    ensures Passes(tags, h, s + 1) && Unseen(tags, keys, key, h, s + 1) && s + 1 < |tags|
  {
    hide Probe;
    ProbeEnds(tags, h);
  }

  /** A rehash of fewer pairs than the bound always finds an empty new bucket. */
  lemma RehashRoom<K, V>(hash: K -> nat, O: seq<Tag>, N: seq<Tag>, keys: seq<K>, vals: seq<V>,
                         M: map<K, V>, held: Held<K, V>, at: map<K, Spot>, size: nat, n: nat)
    requires RehashOK(hash, O, N, keys, vals, M, held, at) && 4 <= |N| == n && Count(N, Live) <= size < UpperBound(n)
    ensures |O| <= |keys| && |O| <= |vals| && |N| <= |keys| && |N| <= |vals|
    ensures PowerOfTwo(n) && Broken !in O && Broken !in N && Empty in N
  {
    CountSome(N, Deleted);
    RoomLeft(N);
  }

  lemma OldRoomy<K, V>(hash: K -> nat, O: seq<Tag>, N: seq<Tag>, keys: seq<K>, vals: seq<V>, M: map<K, V>)
    requires if |O| == 0 then M == map[] else TableOK(hash, O, keys, vals, M)
    requires |N| > 0 && PowerOfTwo(|N|) && |N| <= |keys| && |N| <= |vals| && forall x | 0 <= x < |N| :: N[x] == Empty
    ensures Roomy(O, N, keys, vals)
  {}

  lemma RehashTags<K, V>(hash: K -> nat, O: seq<Tag>, N: seq<Tag>, keys: seq<K>, vals: seq<V>,
                         M: map<K, V>, held: Held<K, V>, at: map<K, Spot>)
    requires RehashOK(hash, O, N, keys, vals, M, held, at)
    ensures Roomy(O, N, keys, vals)
  {}

  lemma RoomFor<K, V>(hash: K -> nat, tags: seq<Tag>, keys: seq<K>, vals: seq<V>, M: map<K, V>)
    requires |tags| > 0 ==> TableOK(hash, tags, keys, vals, M)
    ensures |tags| <= |keys| && |tags| <= |vals|
    ensures |tags| == 0 ==> Count(tags, Live) == 0
  {}

  lemma Bounds<K, V>(hash: K -> nat, tags: seq<Tag>, keys: seq<K>, vals: seq<V>, M: map<K, V>)
    requires |tags| > 0 ==> TableOK(hash, tags, keys, vals, M)
    ensures |tags| > 0 ==> PowerOfTwo(|tags|) && |tags| <= |keys| && |tags| <= |vals| && Broken !in tags
  {}

  /** Either resize of kh_put makes room: the same size when less than half is live, twice the
      size otherwise, unless that is to double 2^31 buckets. Then the request rounds to four
      buckets, which are too few, and nothing happens. */
  lemma GrowthRoom(n: nat, size: nat)
    requires n == 0 || (PowerOfTwo(n) && 4 <= n <= U32_LIMIT / 2)
    requires if n == 0 then size == 0 else size <= UpperBound(n)
    ensures n > 2 * size ==> TableSize(n - 1) == n && size < UpperBound(n)
    ensures 0 < n <= 2 * size && n <= U32_LIMIT / 4 ==> TableSize(n + 1) == 2 * n && size < UpperBound(2 * n)
    ensures 0 < n <= 2 * size && n > U32_LIMIT / 4 ==> TableSize(n + 1) == 4 && size >= UpperBound(4)
    ensures n == 0 ==> TableSize(1) == 4
  {
    hide RoundUp32;
    if n == 0 {
      RoundUp32Exact(1);
    } else {
      SameRounds(n);
      DoublingExact(n);
      if n > U32_LIMIT / 4 {
        SecondLargest(n);
        RoundUp32Exact(n + 1);
      }
    }
  }

  /** The allocations kh_resize needs: the new flags, and to grow also both arrays. */
  predicate Fits(n: nat, buckets: nat, flagsFit: bool, keysFit: bool, valsFit: bool) {
    flagsFit && (buckets < n ==> keysFit && valsFit)
  }

  class KHash<K(==, 0), V(0)> {
    const hash: K -> nat
    var buckets: nat
    var size: nat
    var occupied: nat
    var upperBound: nat
    var flags: array<bv32>
    var keys: array<K>
    var vals: array<V>

    /** The map the table stands for. */
    ghost var M: map<K, V>

    ghost predicate Apart()
      reads this
    {
      (flags as object) != keys && (flags as object) != vals && (keys as object) != vals
    }

    ghost function AllTags(): seq<Tag>
      requires buckets <= 16 * flags.Length
      reads this, flags
    {
      Tags(flags[..], buckets)
    }

    ghost predicate Valid()
      reads this, flags, keys, vals
    {
      && Apart()
      && if buckets == 0 then size == occupied == upperBound == flags.Length == 0 && M == map[]
         else Loaded() && occupied <= upperBound
    }

    ghost predicate Loaded()
      reads this, flags, keys, vals
    {
      && 4 <= buckets <= U32_LIMIT / 2 && flags.Length == FlagWords(buckets) && buckets <= 16 * flags.Length
      && TableOK(hash, AllTags(), keys[..], vals[..], M) && upperBound == UpperBound(buckets)
      && size == Count(AllTags(), Live) && occupied == size + Count(AllTags(), Deleted)
    }

    /** kh_init */
    constructor (hash: K -> nat)
      ensures Valid() && M == map[] && this.hash == hash
      ensures fresh(flags) && fresh(keys) && fresh(vals)
    {
      this.hash := hash;
      buckets, size, occupied, upperBound := 0, 0, 0, 0;
      flags, keys, vals := new bv32[0], new K[0], new V[0];
      M := map[];
    }

    /** kh_get: the bucket of the key, or the number of buckets when it is not in the map.

        The walk ends because some bucket is empty; the test for being back at the start never
        succeeds. */
    method Get(key: K) returns (x: nat)
      requires Valid()
      ensures key !in M ==> x == buckets
      ensures key in M ==> x < buckets && buckets <= 16 * flags.Length && AllTags()[x] == Live
      ensures key in M ==> x < keys.Length && keys[x] == key && x < vals.Length && vals[x] == M[key]
    {
      hide Probe, PowerOfTwo, Reached, Count, WordIsEmpty, WordIsDel, WordIsEither, Tags, BitAnd, UpperBound;
      if buckets != 0 {
        ghost var tags, ks, h := AllTags(), keys[..], hash(key);
        RoomLeft(tags);
        var mask := buckets - 1;
        var k := hash(key);
        var i := BitAnd(k, mask);
        ProbeStart(k, buckets);
        var last, step := i, 0;
        TagReads(flags[..], buckets, i);
        while !WordIsEmpty(flags[i / 16], i % 16) && (WordIsDel(flags[i / 16], i % 16) || keys[i] != key)
          invariant i < buckets && i == Probe(h, buckets, step) && step < buckets
          invariant Passes(tags, h, step) && Unseen(tags, ks, key, h, step)
          decreases buckets - step
        {
          TagReads(flags[..], buckets, i);
          PassStep(tags, ks, key, h, step);
          ProbeNext(h, buckets, step);
          step := step + 1;
          i := BitAnd(i + step, mask);
          NotBack(h, buckets, step);
          if i == last { assert false; }
        }
        TagReads(flags[..], buckets, i);
        if tags[i] == Empty { NotThere(hash, tags, ks, vals[..], M, key, step); }
        x := if WordIsEither(flags[i / 16], i % 16) then buckets else i;
      } else {
        x := 0;
      }
    }

    /** size counts the keys of the map, and some bucket is always empty. */
    lemma SizeCounts()
      requires Valid()
      ensures size == |M| && (buckets > 0 ==> Empty in AllTags())
    {
      hide Reached, Count, Tags;
      if buckets > 0 {
        LiveKeys(hash, AllTags(), keys[..], vals[..], M);
        RoomLeft(AllTags());
      }
    }

    // ----- kh_resize -----

    /** The probe loop of kh_resize: the first empty bucket on the new path of the key. */
    method FirstEmpty(newFlags: array<bv32>, n: nat, k: nat) returns (i: nat)
      requires 4 <= n <= 16 * newFlags.Length && PowerOfTwo(n)
      requires var N := Tags(newFlags[..], n); Broken !in N && Empty in N
      ensures i < n && Tags(newFlags[..], n)[i] == Empty && Reached(Tags(newFlags[..], n), k, i)
    {
      hide Probe, PowerOfTwo, WordIsEmpty, Tags, BitAnd;
      ghost var N := Tags(newFlags[..], n);
      var mask := n - 1;
      i := BitAnd(k, mask);
      ProbeStart(k, n);
      var step := 0;
      TagReads(newFlags[..], n, i);
      while !WordIsEmpty(newFlags[i / 16], i % 16)
        invariant i < n && i == Probe(k, n, step) && step < n && Passes(N, k, step)
        decreases n - step
      {
        TagReads(newFlags[..], n, i);
        ProbeEnds(N, k);
        ProbeNext(k, n, step);
        step := step + 1;
        i := BitAnd(i + step, mask);
      }
      TagReads(newFlags[..], n, i);
      assert ReachedAt(N, k, i, step);
    }

    /** What holds while pairs move from the old flags to newFlags; n is the new size. */
    ghost predicate Rehashing(newFlags: array<bv32>, n: nat, held: Held<K, V>, at: map<K, Spot>)
      reads this, flags, keys, vals, newFlags
    {
      && Apart() && newFlags != flags && (newFlags as object) != keys && (newFlags as object) != vals
      && buckets <= 16 * flags.Length && 4 <= n <= 16 * newFlags.Length
      && RehashOK(hash, AllTags(), Tags(newFlags[..], n), keys[..], vals[..], M, held, at)
      && size == Count(AllTags(), Live) + Count(Tags(newFlags[..], n), Live) + (if held.Pair? then 1 else 0) < UpperBound(n)
    }

    /** One turn of the kick-out loop: the pair in hand is placed, and what was in its way, if
        anything, is taken in hand. */
    method Kick(newFlags: array<bv32>, n: nat, key0: K, val0: V, ghost at0: map<K, Spot>)
      returns (done: bool, key: K, val: V, ghost at: map<K, Spot>)
      requires Rehashing(newFlags, n, Pair(key0, val0), at0)
      modifies flags, keys, vals, newFlags
      ensures Rehashing(newFlags, n, if done then Nothing else Pair(key, val), at)
      ensures if done then AllTags() == old(AllTags()) else Count(AllTags(), Live) < old(Count(AllTags(), Live))
      ensures forall x | 0 <= x < buckets && old(AllTags())[x] != Live :: AllTags()[x] != Live
    {
      hide RehashOK, Count, Tags, Reached, WordIsEither, WordNotEmpty, WordDel, PowerOfTwo, UpperBound;
      ghost var O, N, ks, vs := AllTags(), Tags(newFlags[..], n), keys[..], vals[..];
      key, val, done := key0, val0, false;
      RehashRoom(hash, O, N, ks, vs, M, Pair(key, val), at0, size, n);
      var i := FirstEmpty(newFlags, n, hash(key));
      TagsFill(newFlags[..], n, i);
      newFlags[i / 16] := WordNotEmpty(newFlags[i / 16], i % 16);
      assert Tags(newFlags[..], n) == N[i := Live];
      CountSet(N, i, Live, Live);
      if i < buckets { TagReads(flags[..], buckets, i); }
      if i < buckets && !WordIsEither(flags[i / 16], i % 16) {
        CountSet(O, i, Deleted, Live);
        at := KickStep(hash, O, N, ks, vs, M, Pair(key, val), at0, i);
        TagsDel(flags[..], buckets, i);
        keys[i], key := key, keys[i];
        vals[i], val := val, vals[i];
        flags[i / 16] := WordDel(flags[i / 16], i % 16);
        assert AllTags() == O[i := Deleted];
      } else {
        at := DropStep(hash, O, N, ks, vs, M, Pair(key, val), at0, i);
        keys[i] := key;
        vals[i] := val;
        done := true;
      }
    }

    /** The kick-out loop: places the pair in hand, and every pair that has to make way for it.
        It ends because each turn leaves one bucket fewer live under the old flags. */
    method KickOut(newFlags: array<bv32>, n: nat, key0: K, val0: V, ghost at0: map<K, Spot>) returns (ghost at: map<K, Spot>)
      requires Rehashing(newFlags, n, Pair(key0, val0), at0)
      modifies flags, keys, vals, newFlags
      ensures Rehashing(newFlags, n, Nothing, at)
      ensures forall x | 0 <= x < buckets && old(AllTags())[x] != Live :: AllTags()[x] != Live
    {
      hide RehashOK, Count, Tags, UpperBound;
      var key, val, done := key0, val0, false;
      at := at0;
      while !done
        invariant Rehashing(newFlags, n, if done then Nothing else Pair(key, val), at)
        invariant forall x | 0 <= x < buckets && old(AllTags())[x] != Live :: AllTags()[x] != Live
        decreases !done, Count(AllTags(), Live)
      {
        done, key, val, at := Kick(newFlags, n, key, val, at);
      }
    }

    /** The outer loop of kh_resize: every live old bucket is taken up and placed. */
    method RehashAll(newFlags: array<bv32>, n: nat)
      requires Apart() && newFlags != flags && (newFlags as object) != keys && (newFlags as object) != vals
      requires buckets <= 16 * flags.Length && 4 <= n <= 16 * newFlags.Length && PowerOfTwo(n)
      requires n <= keys.Length && n <= vals.Length && buckets <= keys.Length && buckets <= vals.Length
      requires if buckets == 0 then M == map[] else TableOK(hash, AllTags(), keys[..], vals[..], M)
      requires size == Count(AllTags(), Live) < UpperBound(n)
      requires forall x | 0 <= x < newFlags.Length :: newFlags[x] == ALL_EMPTY
      modifies flags, keys, vals, newFlags
      ensures TableOK(hash, Tags(newFlags[..], n), keys[..], vals[..], M)
      ensures Count(Tags(newFlags[..], n), Live) == size && Count(Tags(newFlags[..], n), Deleted) == 0
    {
      hide RehashOK, TableOK, Count, Tags, Reached, WordIsEither, WordNotEmpty, WordDel, PowerOfTwo;
      TagsEmpty(newFlags[..], n);
      CountSome(Tags(newFlags[..], n), Live);
      OldRoomy(hash, AllTags(), Tags(newFlags[..], n), keys[..], vals[..], M);
      ghost var at := RehashStarts(hash, AllTags(), Tags(newFlags[..], n), keys[..], vals[..], M);
      for j := 0 to buckets
        invariant Rehashing(newFlags, n, Nothing, at)
        invariant forall x | 0 <= x < j :: AllTags()[x] != Live
      {
        RehashTags(hash, AllTags(), Tags(newFlags[..], n), keys[..], vals[..], M, Nothing, at);
        TagReads(flags[..], buckets, j);
        if !WordIsEither(flags[j / 16], j % 16) {
          ghost var O := AllTags();
          CountSet(O, j, Deleted, Live);
          at := TakeStep(hash, O, Tags(newFlags[..], n), keys[..], vals[..], M, at, j);
          TagsDel(flags[..], buckets, j);
          var key, val := keys[j], vals[j];
          flags[j / 16] := WordDel(flags[j / 16], j % 16);
          assert AllTags() == O[j := Deleted];
          at := KickOut(newFlags, n, key, val, at);
        }
      }
      RehashTags(hash, AllTags(), Tags(newFlags[..], n), keys[..], vals[..], M, Nothing, at);
      RehashEnds(hash, AllTags(), Tags(newFlags[..], n), keys[..], vals[..], M, at);
      CountSome(AllTags(), Live);
      CountSome(Tags(newFlags[..], n), Deleted);
    }

    /** kh_resize: 0, or -1 when an allocation fails.

        The map is the same afterwards, whatever the outcome. A request too small for the pairs
        held does nothing. Otherwise the table has the rounded size and no deleted bucket. The
        last three arguments say whether the allocations succeed. */
    method Resize(requested: nat, flagsFit: bool, keysFit: bool, valsFit: bool) returns (r: int)
      requires Valid() && requested < U32_LIMIT
      modifies this, flags, keys, vals
      ensures Valid() && M == old(M) && size == old(size)
      ensures (flags == old(flags) || fresh(flags)) && (keys == old(keys) || fresh(keys)) && (vals == old(vals) || fresh(vals))
      ensures r == if old(size) < UpperBound(TableSize(requested)) && !Fits(TableSize(requested), old(buckets), flagsFit, keysFit, valsFit) then -1 else 0
      ensures r == -1 || old(size) >= UpperBound(TableSize(requested)) ==> flags == old(flags) && flags[..] == old(flags[..])
      ensures r == 0 && old(size) < UpperBound(TableSize(requested)) ==> buckets == TableSize(requested) && occupied == size
      ensures buckets != old(buckets) ==> keys.Length == vals.Length == buckets
      ensures r == -1 || old(size) >= UpperBound(TableSize(requested)) ==> buckets == old(buckets) && occupied == old(occupied)
    {
      hide TableOK, Count, Tags, Reached, PowerOfTwo, RoundUp32;
      var n := RoundUp32(requested);
      TableSizeExact(requested);
      FlagRoom(TableSize(requested));
      if n < 4 {
        n := 4;
      }
      r := 0;
      if size < UpperBound(n) {
        if !flagsFit { return -1; }
        var newFlags := new bv32[FlagWords(n)](_ => ALL_EMPTY);
        if buckets < n {
          if !keysFit { return -1; }
          EnlargeKeys(n);
          if !valsFit { return -1; }
          EnlargeVals(n);
        }
        RoomFor(hash, AllTags(), keys[..], vals[..], M);
        RehashAll(newFlags, n);
        Adopt(newFlags, n);
      }
    }

    /** The end of kh_resize: arrays are cut to size and the new flags take over. */
    method Adopt(newFlags: array<bv32>, n: nat)
      requires Apart() && (newFlags as object) != keys && (newFlags as object) != vals
      requires 4 <= n <= U32_LIMIT / 2 && newFlags.Length == FlagWords(n) && n <= 16 * newFlags.Length
      requires n <= keys.Length && n <= vals.Length
      requires TableOK(hash, Tags(newFlags[..], n), keys[..], vals[..], M)
      requires size == Count(Tags(newFlags[..], n), Live) < UpperBound(n) && Count(Tags(newFlags[..], n), Deleted) == 0
      modifies this
      ensures Valid() && M == old(M) && size == old(size) && buckets == n && occupied == size
      ensures flags == newFlags && (keys == old(keys) || fresh(keys)) && (vals == old(vals) || fresh(vals))
      ensures if old(buckets) > n then keys.Length == vals.Length == n else keys == old(keys) && vals == old(vals)
    {
      hide TableOK, Count, Tags;
      if buckets > n {
        ghost var ks, vs := keys[..], vals[..];
        keys := Moved(keys, n);
        vals := Moved(vals, n);
        TableMoved(hash, Tags(newFlags[..], n), ks, vs, M, keys[..], vals[..]);
      }
      flags := newFlags;
      buckets := n;
      occupied := size;
      upperBound := UpperBound(n);
    }

    /** krealloc of the keys when the table is to grow. */
    method EnlargeKeys(n: nat)
      requires Valid() && buckets < n
      modifies this`keys
      ensures Valid() && fresh(keys) && keys.Length == n
    {
      hide TableOK, Count, Tags;
      ghost var ks := keys[..];
      RoomFor(hash, AllTags(), ks, vals[..], M);
      keys := Moved(keys, n);
      if buckets != 0 { TableMoved(hash, AllTags(), ks, vals[..], M, keys[..], vals[..]); }
    }

    method EnlargeVals(n: nat)
      requires Valid() && buckets < n
      modifies this`vals
      ensures Valid() && fresh(vals) && vals.Length == n
    {
      hide TableOK, Count, Tags;
      ghost var vs := vals[..];
      RoomFor(hash, AllTags(), keys[..], vs, M);
      vals := Moved(vals, n);
      if buckets != 0 { TableMoved(hash, AllTags(), keys[..], vs, M, keys[..], vals[..]); }
    }

    // ----- kh_put, kh_del, kh_clear -----

    /** A put can keep the load bound: the table is not full, or a resize can help. It always can
        with fewer than 2^30 pairs. */
    ghost predicate HasRoom()
      reads this
    {
      occupied < upperBound || buckets <= U32_LIMIT / 4 || buckets > 2 * size
    }

    lemma RoomBelow()
      requires Valid() && size < U32_LIMIT / 4
      ensures HasRoom()
    {
      hide Count, Tags, Reached;
      if buckets > U32_LIMIT / 4 { SecondLargest(buckets); }
    }

    /** The resize decision of kh_put: afterwards, if no allocation failed, there is room for one
        more exactly when there could be. */
    method MakeRoom(flagsFit: bool, keysFit: bool, valsFit: bool) returns (r: int)
      requires Valid()
      modifies this, flags, keys, vals
      ensures Valid() && M == old(M) && size == old(size)
      ensures (flags == old(flags) || fresh(flags)) && (keys == old(keys) || fresh(keys)) && (vals == old(vals) || fresh(vals))
      ensures r == 0 || (r == -1 && buckets == old(buckets) && occupied == old(occupied))
      ensures old(HasRoom()) ==>
        (r == -1 <==> old(occupied >= upperBound) && !(flagsFit && (old(buckets) <= 2 * size ==> keysFit && valsFit)))
      ensures old(HasRoom() && occupied >= upperBound) && r == 0 ==>
        buckets == if old(buckets) > 2 * size then old(buckets) else if old(buckets) == 0 then 4 else 2 * old(buckets)
      ensures r == -1 ==> flags == old(flags) && flags[..] == old(flags[..])
      ensures r == 0 ==> (buckets >= 4 && occupied < upperBound <==> old(HasRoom()))
      ensures old(occupied < upperBound) ==>
        r == 0 && buckets == old(buckets) && flags == old(flags) && flags[..] == old(flags[..])
      ensures r == 0 && old(HasRoom() && occupied >= upperBound) ==> occupied == size
    {
      hide TableOK, Count, Tags, Reached, PowerOfTwo, TableSize, RoundUp32;
      r := 0;
      Bounds(hash, AllTags(), keys[..], vals[..], M);
      if occupied >= upperBound {
        GrowthRoom(buckets, size);
        if buckets > 2 * size {
          r := Resize(buckets - 1, flagsFit, keysFit, valsFit);
        } else {
          r := Resize(buckets + 1, flagsFit, keysFit, valsFit);
        }
      }
    }

    /** The search loop of kh_put: stops at the key or at an empty bucket, and reports the last
        deleted bucket it passed. */
    method Walk(key: K) returns (i: nat, site: nat)
      requires Valid() && buckets >= 4
      ensures i < buckets && Reached(AllTags(), hash(key), i) && (AllTags()[i] == Live || AllTags()[i] == Empty)
      ensures AllTags()[i] == Live ==> i < keys.Length && keys[i] == key
      ensures AllTags()[i] == Empty ==> key !in M
      ensures AllTags()[i] == Empty ==> Destination(AllTags(), hash(key), if site == buckets then i else site)
      ensures AllTags()[i] == Empty && site != buckets ==> site < buckets && AllTags()[site] == Deleted
    {
      hide Probe, PowerOfTwo, Reached, Count, WordIsEmpty, WordIsDel, WordIsEither, Tags, BitAnd, UpperBound, LastGone;
      ghost var tags, ks, h := AllTags(), keys[..], hash(key);
      RoomLeft(tags);
      site := buckets;
      NoneGoneYet(tags, h);
      var mask, step := buckets - 1, 0;
      var k := hash(key);
      i := BitAnd(k, mask);
      ProbeStart(k, buckets);
      TagReads(flags[..], buckets, i);
      var last := i;
      while !WordIsEmpty(flags[i / 16], i % 16) && (WordIsDel(flags[i / 16], i % 16) || keys[i] != key)
        invariant i < buckets && i == Probe(h, buckets, step) && step < buckets
        invariant Passes(tags, h, step) && Unseen(tags, ks, key, h, step)
        invariant LastGone(tags, h, step, site)
        decreases buckets - step
      {
        TagReads(flags[..], buckets, i);
        GoneStep(tags, h, step, site);
        if WordIsDel(flags[i / 16], i % 16) {
          site := i;
        }
        PassStep(tags, ks, key, h, step);
        ProbeNext(h, buckets, step);
        step := step + 1;
        i := BitAnd(i + step, mask);
        NotBack(h, buckets, step);
        if i == last { assert false; }
      }
      TagReads(flags[..], buckets, i);
      ReachedHere(tags, h, step);
      if tags[i] == Empty {
        NotThere(hash, tags, ks, vals[..], M, key, step);
        GoneOrNone(tags, h, step, site);
        DestinationIs(tags, h, step, site);
      }
    }

    /** The search of kh_put: the bucket of the key, or where the key may go. */
    method Slot(key: K) returns (x: nat)
      requires Valid() && buckets >= 4
      ensures x < buckets && buckets <= 16 * flags.Length && x < keys.Length && x < vals.Length
      ensures key in M ==> AllTags()[x] == Live && keys[x] == key && vals[x] == M[key]
      ensures key !in M ==> Destination(AllTags(), hash(key), x)
    {
      hide Probe, PowerOfTwo, Reached, Count, WordIsEmpty, WordIsDel, WordIsEither, Tags, BitAnd, LastGone;
      var k := hash(key);
      var i := BitAnd(k, buckets - 1);
      ProbeStart(k, buckets);
      TagReads(flags[..], buckets, i);
      if WordIsEmpty(flags[i / 16], i % 16) {
        x := i;
        NoneGoneYet(AllTags(), k);
        NotThere(hash, AllTags(), keys[..], vals[..], M, key, 0);
        DestinationIs(AllTags(), k, 0, buckets);
      } else {
        var site;
        i, site := Walk(key);
        TagReads(flags[..], buckets, i);
        if WordIsEmpty(flags[i / 16], i % 16) && site != buckets {
          x := site;
        } else {
          x := i;
        }
      }
    }

    /** The stores of kh_put. */
    method Fill(key: K, x: nat) returns (ret: int)
      requires Valid() && buckets >= 4 && occupied < upperBound
      requires x < buckets && buckets <= 16 * flags.Length && x < keys.Length && x < vals.Length
      requires key in M ==> AllTags()[x] == Live && keys[x] == key
      requires key !in M ==> AllTags()[x] != Live && Reached(AllTags(), hash(key), x)
      modifies this`size, this`occupied, this`M, flags, keys
      ensures Valid() && ret in {0, 1, 2}
      ensures ret == 0 ==> key in old(M) && M == old(M)
      ensures ret in {1, 2} ==> key !in old(M) && M == old(M)[key := vals[x]]
      ensures (ret == 1 <==> old(AllTags()[x]) == Empty) && (ret == 2 <==> old(AllTags()[x]) == Deleted)
      ensures AllTags() == old(AllTags())[x := Live] && keys[x] == key
      ensures occupied == old(occupied) + (if ret == 1 then 1 else 0) && size == old(size) + if ret == 0 then 0 else 1
    {
      hide TableOK, Count, Tags, Reached, PowerOfTwo, WordIsEmpty, WordIsDel, WordIsEither, WordNotBoth, UpperBound;
      ghost var tags, ks, vs := AllTags(), keys[..], vals[..];
      Bounds(hash, tags, ks, vs, M);
      TagReads(flags[..], buckets, x);
      if key !in M { Placed(hash, tags, ks, vs, M, key, x); }
      CountSet(tags, x, Live, Live);
      CountSet(tags, x, Live, Deleted);
      TagsLive(flags[..], buckets, x);
      if WordIsEmpty(flags[x / 16], x % 16) {
        keys[x] := key;
        flags[x / 16] := WordNotBoth(flags[x / 16], x % 16);
        size := size + 1;
        occupied := occupied + 1;
        ret := 1;
        M := M[key := vals[x]];
      } else if WordIsDel(flags[x / 16], x % 16) {
        keys[x] := key;
        flags[x / 16] := WordNotBoth(flags[x / 16], x % 16);
        size := size + 1;
        ret := 2;
        M := M[key := vals[x]];
      } else {
        ret := 0;
      }
    }

    /** A new key would go into bucket x. */
    ghost predicate GoesTo(key: K, x: nat)
      reads this, flags
    {
      0 < buckets <= 16 * flags.Length && Destination(AllTags(), hash(key), x)
    }

    /** Some deleted bucket is on the probe path of the key. */
    ghost predicate GoneOnPath(key: K)
      reads this, flags
    {
      0 < buckets <= 16 * flags.Length && exists y: nat :: y < buckets && AllTags()[y] == Deleted && Reached(AllTags(), hash(key), y)
    }

    /** kh_put: -1 when the table could not be enlarged, 0 when the key is there already, 1 when it
        went into a bucket that was empty, 2 when into one that was deleted.

        A new key goes into the last deleted bucket on its path, if the path has any, and else
        into the empty bucket at its end; no other bucket changes. A table at its load bound is
        rebuilt first, at the same size if more than half would be free and at twice the size
        otherwise, and then none is deleted.

        The key then stands for whatever value lies in its bucket, for the caller to set. */
    method Put(key: K, flagsFit: bool, keysFit: bool, valsFit: bool) returns (x: nat, ret: int)
      requires Valid() && HasRoom()
      modifies this, flags, keys, vals
      ensures Valid()
      ensures (flags == old(flags) || fresh(flags)) && (keys == old(keys) || fresh(keys)) && (vals == old(vals) || fresh(vals))
      ensures ret in {-1, 0, 1, 2} && (ret == -1 ==> x == buckets == old(buckets) && M == old(M))
      ensures ret == -1 <==> old(occupied >= upperBound) && !(flagsFit && (old(buckets) <= 2 * old(size) ==> keysFit && valsFit))
      ensures ret == 0 ==> key in old(M) && M == old(M)
      ensures ret in {1, 2} ==> key !in old(M) && x < vals.Length && M == old(M)[key := vals[x]]
      ensures ret in {0, 1, 2} ==> x < buckets <= 16 * flags.Length && x < keys.Length && AllTags()[x] == Live && keys[x] == key
      ensures old(occupied < upperBound) ==> (ret == 1 <==> old(TagIs(x, Empty))) && (ret == 2 <==> old(TagIs(x, Deleted)))
      ensures old(occupied < upperBound) && key !in old(M) ==> old(GoesTo(key, x)) && (ret == 2 <==> old(GoneOnPath(key)))
      ensures old(occupied < upperBound) ==>
        buckets == old(buckets) <= 16 * flags.Length && x < buckets && occupied == old(occupied) + (if ret == 1 then 1 else 0)
        && old(buckets <= 16 * flags.Length) && AllTags() == old(AllTags())[x := Live]
      ensures old(occupied >= upperBound) && ret != -1 ==>
        && ret != 2 && occupied == size
        && buckets == (if old(buckets) > 2 * old(size) then old(buckets) else if old(buckets) == 0 then 4 else 2 * old(buckets))
    {
      hide TableOK, Count, Tags, Reached, UpperBound, Destination;
      ret := MakeRoom(flagsFit, keysFit, valsFit);
      if ret < 0 {
        x := buckets;
      } else {
        x := Slot(key);
        CountSome(AllTags(), Deleted);
        if key !in M { DestinationReuses(AllTags(), hash(key), x); }
        ret := Fill(key, x);
      }
    }

    /** kh_value(h, x) = v */
    method SetValue(x: nat, v: V)
      requires Valid() && x < buckets <= 16 * flags.Length && AllTags()[x] == Live && x < keys.Length
      modifies this`M, vals
      ensures Valid() && M == old(M)[keys[x] := v]
    {
      hide Count, Tags, Reached, PowerOfTwo;
      Revalued(hash, AllTags(), keys[..], vals[..], M, x, v);
      vals[x] := v;
      M := M[keys[x] := v];
    }

    /** kh_del: the key in bucket x, if there is one, leaves the map. */
    method Del(x: nat)
      requires Valid() && x <= buckets
      modifies this`size, this`M, flags
      ensures Valid() && x < keys.Length + 1
      ensures if x < buckets && old(TagIs(x, Live)) then x < keys.Length && M == old(M) - {keys[x]} else M == old(M)
      ensures if x < buckets && old(TagIs(x, Live)) then buckets <= 16 * flags.Length && AllTags() == old(AllTags())[x := Deleted]
        else flags[..] == old(flags[..])
    {
      hide TableOK, Count, Tags, Reached, PowerOfTwo, WordIsEmpty, WordIsDel, WordIsEither, WordDel;
      Bounds(hash, AllTags(), keys[..], vals[..], M);
      if x != buckets {
        ghost var tags := AllTags();
        TagReads(flags[..], buckets, x);
        if !WordIsEither(flags[x / 16], x % 16) {
          Removed(hash, tags, keys[..], vals[..], M, x);
          CountSet(tags, x, Deleted, Live);
          CountSet(tags, x, Deleted, Deleted);
          CountSome(tags, Live);
          TagsDel(flags[..], buckets, x);
          flags[x / 16] := WordDel(flags[x / 16], x % 16);
          size := size - 1;
          M := M - {keys[x]};
        }
      }
    }

    ghost predicate TagIs(x: nat, t: Tag)
      reads this, flags
    {
      x < buckets <= 16 * flags.Length && AllTags()[x] == t
    }

    /** kh_clear: every bucket is empty again. */
    method Clear()
      requires Valid()
      modifies this`size, this`occupied, this`M, flags
      ensures Valid() && M == map[] && size == occupied == 0
      ensures buckets <= 16 * flags.Length && forall x: nat | x < buckets :: AllTags()[x] == Empty
    {
      hide Count, Tags, Reached, PowerOfTwo;
      if flags.Length != 0 {
        for w := 0 to FlagWords(buckets)
          invariant forall y | 0 <= y < w :: flags[y] == ALL_EMPTY
        {
          flags[w] := ALL_EMPTY;
        }
        size, occupied := 0, 0;
        M := map[];
        TagsEmpty(flags[..], buckets);
        AllEmptyOK(hash, AllTags(), keys[..], vals[..]);
        CountSome(AllTags(), Live);
        CountSome(AllTags(), Deleted);
      }
    }
  }

  /** krealloc, when it succeeds. */
  method Moved<T(0)>(a: array<T>, n: nat) returns (b: array<T>)
    ensures fresh(b) && b.Length == n
    ensures forall k | 0 <= k <= n && k <= a.Length :: b[..k] == a[..k]
  {
    b := new T[n];
    forall i | 0 <= i < n && i < a.Length {
      b[i] := a[i];
    }
  }
}
