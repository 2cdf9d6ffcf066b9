/**
 * groupMatches of app/page.tsx: one pass over the match list that files each
 * match under a string key in an insertion-ordered map, creating the bucket
 * (with the header fields of that match) the first time a key is seen, and
 * returns the buckets in key insertion order.
 *
 * The page's key is the template literal `${torneo.id}-${fecha}-${cancha}`,
 * written out as Key below. The grouping and every property of it are stated
 * for a key function `key` given as a parameter, so they hold for Key and say
 * nothing beyond what the key decides: different (fecha, cancha) pairs can
 * spell the same Key, and then share a bucket (see KeyCollision).
 *
 * The specification is declarative: the distinct keys in order of first
 * occurrence (KeysInOrder), and for each key the input matches carrying it
 * (WithKey). The imperative GroupMatches is proved to compute it.
 */
module Grouping {
  import opened Wrappers
  import opened Text
  import opened Domain

  function KeyOf(torneoId: int, fecha: string, cancha: string): string {
    IntToString(torneoId) + "-" + fecha + "-" + cancha
  }

  /** The key the page files a match under. */
  function Key(m: Match): string {
    KeyOf(m.torneo.id, m.fecha, m.cancha)
  }

  /** The key a bucket's header fields spell. */
  function GroupKey(g: GroupedMatches): string {
    KeyOf(g.torneo.id, g.fecha, g.cancha)
  }

  /** The matches of `ms` whose key is `k`, in input order. */
  function WithKey<T, K(==,!new)>(key: T -> K, ms: seq<T>, k: K): (r: seq<T>)
    ensures forall t :: 0 <= t < |r| ==> key(r[t]) == k
    ensures r == [] <==> forall p :: 0 <= p < |ms| ==> key(ms[p]) != k
  {
    if ms == [] then []
    else if key(ms[|ms| - 1]) == k then WithKey(key, ms[..|ms| - 1], k) + [ms[|ms| - 1]]
    else WithKey(key, ms[..|ms| - 1], k)
  }

  /** The distinct keys of `ms`, each listed where it first occurs. */
  function KeysInOrder<T, K(==,!new)>(key: T -> K, ms: seq<T>): (ks: seq<K>)
    ensures forall i, j :: 0 <= i < j < |ks| ==> ks[i] != ks[j]
    ensures forall k :: k in ks <==> WithKey(key, ms, k) != []
  {
    if ms == [] then []
    else
      var init := KeysInOrder(key, ms[..|ms| - 1]);
      var k := key(ms[|ms| - 1]);
      if k in init then init else init + [k]
  }

  /** The position of the first match with key `k`, or |ms| when there is none. */
  function FirstIndex<T, K(==,!new)>(key: T -> K, ms: seq<T>, k: K): (r: nat)
    ensures r <= |ms|
    ensures r < |ms| ==> key(ms[r]) == k
    ensures forall p :: 0 <= p < r ==> key(ms[p]) != k
  {
    if ms == [] then 0
    else
      var f := FirstIndex(key, ms[..|ms| - 1], k);
      if f < |ms| - 1 || key(ms[|ms| - 1]) == k then f else |ms|
  }

  /** The bucket for key `k`: header fields of its first match, then all its matches. */
  function BucketOf<K(==,!new)>(key: Match -> K, ms: seq<Match>, k: K): GroupedMatches
    requires WithKey(key, ms, k) != []
  {
    var first := WithKey(key, ms, k)[0];
    GroupedMatches(first.torneo, first.fecha, first.cancha, WithKey(key, ms, k))
  }

  /** What groupMatches returns for `ms`. No bucket is empty. */
  function Grouped<K(==,!new)>(key: Match -> K, ms: seq<Match>): (gs: seq<GroupedMatches>)
    ensures forall i :: 0 <= i < |gs| ==> gs[i].matches != []
  {
    var ks := KeysInOrder(key, ms);
    seq(|ks|, i requires 0 <= i < |ks| => BucketOf(key, ms, ks[i]))
  }

  /** All buckets' matches, concatenated in bucket order. */
  function Flatten(gs: seq<GroupedMatches>): seq<Match> {
    if gs == [] then [] else gs[0].matches + Flatten(gs[1..])
  }

  /** Slicing facts, stated for any element type so that proving them never compares matches. */
  lemma TakeOneMore<T>(s: seq<T>, i: nat)
    requires i < |s|
    ensures s[..i + 1] == s[..i] + [s[i]]
  {
  }

  lemma TakeAll<T>(s: seq<T>)
    ensures s[..|s|] == s
  {
  }

  lemma DropLastOfSnoc<T>(s: seq<T>, x: T)
    ensures (s + [x])[..|s|] == s
  {
  }

  lemma SplitLast<T>(s: seq<T>)
    requires s != []
    ensures s == s[..|s| - 1] + [s[|s| - 1]]
  {
  }

  lemma WithKeySnoc<T, K(!new)>(key: T -> K, ms: seq<T>, m: T, k: K)
    ensures WithKey(key, ms + [m], k) == if key(m) == k then WithKey(key, ms, k) + [m] else WithKey(key, ms, k)
  {
    DropLastOfSnoc(ms, m);
  }

  lemma KeysInOrderSnoc<T, K(!new)>(key: T -> K, ms: seq<T>, m: T)
    ensures KeysInOrder(key, ms + [m])
         == if key(m) in KeysInOrder(key, ms) then KeysInOrder(key, ms) else KeysInOrder(key, ms) + [key(m)]
  {
    DropLastOfSnoc(ms, m);
  }

  lemma FirstIndexSnoc<T, K(!new)>(key: T -> K, ms: seq<T>, m: T, k: K)
    ensures FirstIndex(key, ms + [m], k)
         == if FirstIndex(key, ms, k) < |ms| || key(m) == k then FirstIndex(key, ms, k) else |ms| + 1
  {
    DropLastOfSnoc(ms, m);
  }

  // ---------------------------------------------------------------------------
  // The reduce loop

  /**
   * `keys` and `table` are what the reduce loop has built after the matches
   * `seen`: the keys in insertion order, and for each key its bucket.
   */
  ghost predicate Filed<K(!new)>(key: Match -> K, seen: seq<Match>, keys: seq<K>, table: map<K, GroupedMatches>) {
    && keys == KeysInOrder(key, seen)
    && (forall k :: k in table <==> k in keys)
    && (forall k :: k in table ==> WithKey(key, seen, k) != [] && table[k] == BucketOf(key, seen, k))
  }

  /** One call of the reduce callback keeps the map in step with the specification. */
  lemma FiledStep<K(!new)>(key: Match -> K, seen: seq<Match>, m: Match,
                  keys: seq<K>, table: map<K, GroupedMatches>,
                  keys': seq<K>, table': map<K, GroupedMatches>)
    requires Filed(key, seen, keys, table)
    requires keys' == if key(m) in table then keys else keys + [key(m)]
    requires var t := if key(m) in table then table
                      else table[key(m) := GroupedMatches(m.torneo, m.fecha, m.cancha, [])];
             table' == t[key(m) := t[key(m)].(matches := t[key(m)].matches + [m])]
    ensures Filed(key, seen + [m], keys', table')
  {
    KeysInOrderSnoc(key, seen, m);
    assert [] + [m] == [m];
    forall k | k in table'
      ensures WithKey(key, seen + [m], k) != [] && table'[k] == BucketOf(key, seen + [m], k)
    {
      WithKeySnoc(key, seen, m, k);
    }
  }

  /** Reading the finished map's values in key order gives the specified buckets. */
  lemma FiledValues<K(!new)>(key: Match -> K, ms: seq<Match>, keys: seq<K>, table: map<K, GroupedMatches>)
    requires Filed(key, ms, keys, table)
    ensures |keys| == |Grouped(key, ms)|
    ensures forall j :: 0 <= j < |keys| ==> keys[j] in table && table[keys[j]] == Grouped(key, ms)[j]
  {
  }

  /**
   * The reduce callback of groupMatches: look up the bucket for m's key,
   * creating it with m's tournament, date and court when the key is new, and
   * push m onto it. `keys` and `table` together are the insertion-ordered Map
   * accumulator: its key order and its key-to-bucket entries.
   */
  method FileMatch<K(==,!new)>(key: Match -> K, ghost seen: seq<Match>, keys: seq<K>,
                               table: map<K, GroupedMatches>, m: Match)
    returns (keys': seq<K>, table': map<K, GroupedMatches>)
    requires Filed(key, seen, keys, table)
    ensures Filed(key, seen + [m], keys', table')
  {
    var k := key(m);
    keys', table' := keys, table;
    if k !in table' {
      table' := table'[k := GroupedMatches(m.torneo, m.fecha, m.cancha, [])];
      keys' := keys' + [k];
    }
    table' := table'[k := table'[k].(matches := table'[k].matches + [m])];
    FiledStep(key, seen, m, keys, table, keys', table');
  }

  /** Array.from(map.values()): the map's values in the insertion order of their keys. */
  method Values<K(==), V>(keys: seq<K>, table: map<K, V>) returns (values: seq<V>)
    requires forall k :: k in keys ==> k in table
    ensures |values| == |keys|
    ensures forall j :: 0 <= j < |keys| ==> values[j] == table[keys[j]]
  {
    values := [];
    var j := 0;
    while j < |keys|
      invariant 0 <= j <= |keys|
      invariant |values| == j
      invariant forall t :: 0 <= t < j ==> values[t] == table[keys[t]]
    {
      values := values + [table[keys[j]]];
      j := j + 1;
    }
  }

  /**
   * groupMatches itself, with the key template passed in as `key` (the page
   * passes Key): reduce over the matches with FileMatch, starting from an
   * empty map, then read the map's values.
   */
  method GroupMatches<K(==,!new)>(ms: seq<Match>, key: Match -> K) returns (groups: seq<GroupedMatches>)
    ensures groups == Grouped(key, ms)
  {
    var keys: seq<K> := [];
    var table: map<K, GroupedMatches> := map[];
    var i := 0;
    while i < |ms|
      invariant 0 <= i <= |ms|
      invariant Filed(key, ms[..i], keys, table)
    {
      keys, table := FileMatch(key, ms[..i], keys, table, ms[i]);
      TakeOneMore(ms, i);
      i := i + 1;
    }
    TakeAll(ms);
    FiledValues(key, ms, keys, table);
    groups := Values(keys, table);
  }

  // ---------------------------------------------------------------------------
  // What the grouping promises

  lemma {:induction false} CountWithKey<T, K(!new)>(key: T -> K, ms: seq<T>, k: K, x: T)
    ensures multiset(WithKey(key, ms, k))[x] == if key(x) == k then multiset(ms)[x] else 0
  {
    if ms != [] {
      var init, last := ms[..|ms| - 1], ms[|ms| - 1];
      CountWithKey(key, init, k, x);
      SplitLast(ms);
      assert multiset(ms) == multiset(init) + multiset{last};
    }
  }

  lemma {:induction false} CountFlatten<K(!new)>(key: Match -> K, ms: seq<Match>, ks: seq<K>,
                                        gs: seq<GroupedMatches>, x: Match)
    requires |gs| == |ks|
    requires forall i, j :: 0 <= i < j < |ks| ==> ks[i] != ks[j]
    requires forall i :: 0 <= i < |gs| ==> gs[i].matches == WithKey(key, ms, ks[i])
    ensures multiset(Flatten(gs))[x] == if key(x) in ks then multiset(ms)[x] else 0
  {
    if gs != [] {
      var head, rest := gs[0].matches, Flatten(gs[1..]);
      assert multiset(Flatten(gs))[x] == multiset(head)[x] + multiset(rest)[x];
      forall i | 0 <= i < |gs[1..]| ensures gs[1..][i].matches == WithKey(key, ms, ks[1..][i]) {
        assert gs[1..][i] == gs[i + 1] && ks[1..][i] == ks[i + 1];
      }
      CountFlatten(key, ms, ks[1..], gs[1..], x);
      CountWithKey(key, ms, ks[0], x);
      assert key(x) in ks <==> key(x) == ks[0] || key(x) in ks[1..] by {
        assert ks == [ks[0]] + ks[1..];
      }
      assert key(x) == ks[0] ==> key(x) !in ks[1..];
    }
  }

  /**
   * No match is lost or duplicated: the buckets' matches, concatenated in
   * bucket order, are a permutation of the input.
   */
  lemma GroupingIsPermutation<K(!new)>(key: Match -> K, ms: seq<Match>)
    ensures multiset(Flatten(Grouped(key, ms))) == multiset(ms)
    ensures |Flatten(Grouped(key, ms))| == |ms|
  {
    var gs, ks := Grouped(key, ms), KeysInOrder(key, ms);
    forall x
      ensures multiset(Flatten(gs))[x] == multiset(ms)[x]
    {
      CountFlatten(key, ms, ks, gs, x);
    }
    assert multiset(Flatten(gs)) == multiset(ms);
    assert |multiset(Flatten(gs))| == |Flatten(gs)|;
  }

  /** The grouping is empty exactly when the input is. */
  lemma GroupedEmptyIff<K(!new)>(key: Match -> K, ms: seq<Match>)
    ensures Grouped(key, ms) == [] <==> ms == []
  {
    if ms != [] {
      assert WithKey(key, ms, key(ms[0])) != [];
      assert key(ms[0]) in KeysInOrder(key, ms);
    }
  }

  /**
   * Every match of a bucket has the bucket's key (that of its first match),
   * no two buckets have the same key, and a bucket's header fields are those
   * of its first match.
   */
  lemma BucketKeys<K(!new)>(key: Match -> K, ms: seq<Match>)
    ensures var gs := Grouped(key, ms);
      forall i, t :: 0 <= i < |gs| && 0 <= t < |gs[i].matches| ==> key(gs[i].matches[t]) == key(gs[i].matches[0])
    ensures var gs := Grouped(key, ms);
      forall i, j :: 0 <= i < j < |gs| ==> key(gs[i].matches[0]) != key(gs[j].matches[0])
    ensures var gs := Grouped(key, ms);
      forall i :: 0 <= i < |gs| ==>
        gs[i].torneo == gs[i].matches[0].torneo && gs[i].fecha == gs[i].matches[0].fecha
        && gs[i].cancha == gs[i].matches[0].cancha
  {
  }

  /** With the page's key, a bucket's header spells the key of each of its matches. */
  lemma HeaderSpellsKey(ms: seq<Match>)
    ensures var gs := Grouped(Key, ms);
      forall i, t :: 0 <= i < |gs| && 0 <= t < |gs[i].matches| ==> Key(gs[i].matches[t]) == GroupKey(gs[i])
  {
    BucketKeys(Key, ms);
  }

  lemma {:induction false} KeysFirstSeen<T, K(!new)>(key: T -> K, ms: seq<T>)
    ensures forall k :: k in KeysInOrder(key, ms) ==> FirstIndex(key, ms, k) < |ms|
    ensures forall i, j :: 0 <= i < j < |KeysInOrder(key, ms)| ==>
      FirstIndex(key, ms, KeysInOrder(key, ms)[i]) < FirstIndex(key, ms, KeysInOrder(key, ms)[j])
  {
    if ms != [] {
      var init, last := ms[..|ms| - 1], ms[|ms| - 1];
      KeysFirstSeen(key, init);
      SplitLast(ms);
      KeysInOrderSnoc(key, init, last);
      forall k ensures FirstIndex(key, ms, k) == if FirstIndex(key, init, k) < |init| || key(last) == k then FirstIndex(key, init, k) else |ms| {
        FirstIndexSnoc(key, init, last, k);
      }
    }
  }

  /** Buckets come in the order in which their keys first occur in the input. */
  lemma FirstSeenOrder<K(!new)>(key: Match -> K, ms: seq<Match>)
    ensures var gs := Grouped(key, ms);
      forall i, j :: 0 <= i < j < |gs| ==>
        FirstIndex(key, ms, key(gs[i].matches[0])) < FirstIndex(key, ms, key(gs[j].matches[0])) < |ms|
  {
    KeysFirstSeen(key, ms);
    var gs, ks := Grouped(key, ms), KeysInOrder(key, ms);
    forall i, j | 0 <= i < j < |gs|
      ensures FirstIndex(key, ms, key(gs[i].matches[0])) < FirstIndex(key, ms, key(gs[j].matches[0])) < |ms|
    {
      assert key(gs[i].matches[0]) == ks[i] && key(gs[j].matches[0]) == ks[j];
      assert FirstIndex(key, ms, ks[i]) < FirstIndex(key, ms, ks[j]);
      assert FirstIndex(key, ms, ks[j]) < |ms|;
    }
  }

  lemma {:induction false} WithKeyHead<T, K(!new)>(key: T -> K, ms: seq<T>, k: K)
    requires WithKey(key, ms, k) != []
    ensures FirstIndex(key, ms, k) < |ms| && WithKey(key, ms, k)[0] == ms[FirstIndex(key, ms, k)]
  {
    var init, last := ms[..|ms| - 1], ms[|ms| - 1];
    SplitLast(ms);
    WithKeySnoc(key, init, last, k);
    FirstIndexSnoc(key, init, last, k);
    if WithKey(key, init, k) != [] {
      WithKeyHead(key, init, k);
    }
  }

  /** A bucket's header fields are those of the first input match with its key. */
  lemma HeaderFromFirstMatch<K(!new)>(key: Match -> K, ms: seq<Match>)
    ensures var gs := Grouped(key, ms);
      forall i :: 0 <= i < |gs| ==>
        var f := FirstIndex(key, ms, key(gs[i].matches[0]));
        f < |ms| && gs[i].matches[0] == ms[f]
        && gs[i].torneo == ms[f].torneo && gs[i].fecha == ms[f].fecha && gs[i].cancha == ms[f].cancha
  {
    var ks := KeysInOrder(key, ms);
    forall i | 0 <= i < |ks| ensures FirstIndex(key, ms, ks[i]) < |ms| && WithKey(key, ms, ks[i])[0] == ms[FirstIndex(key, ms, ks[i])] {
      WithKeyHead(key, ms, ks[i]);
    }
  }

  lemma {:induction false} WithKeyPositions<T, K(!new)>(key: T -> K, ms: seq<T>, k: K) returns (pos: seq<nat>)
    ensures |pos| == |WithKey(key, ms, k)|
    ensures forall t :: 0 <= t < |pos| ==> pos[t] < |ms| && ms[pos[t]] == WithKey(key, ms, k)[t]
    ensures forall s, t :: 0 <= s < t < |pos| ==> pos[s] < pos[t]
    ensures forall p :: 0 <= p < |ms| ==> (p in pos <==> key(ms[p]) == k)
  {
    if ms == [] {
      pos := [];
    } else {
      var init, last := ms[..|ms| - 1], ms[|ms| - 1];
      var pre := WithKeyPositions(key, init, k);
      SplitLast(ms);
      WithKeySnoc(key, init, last, k);
      if key(last) == k {
        pos := pre + [|init|];
        assert forall p :: 0 <= p < |init| ==> (p in pos <==> p in pre);
      } else {
        pos := pre;
      }
    }
  }

  /**
   * A bucket holds exactly the input matches with its key, in input order:
   * its t-th match sits at input position pos[t], the positions increase,
   * and they are all the positions whose match has the bucket's key.
   */
  lemma BucketPositions<K(!new)>(key: Match -> K, ms: seq<Match>, i: nat) returns (pos: seq<nat>)
    requires i < |Grouped(key, ms)|
    ensures var g := Grouped(key, ms)[i];
      && |pos| == |g.matches|
      && (forall t :: 0 <= t < |pos| ==> pos[t] < |ms| && ms[pos[t]] == g.matches[t])
      && (forall s, t :: 0 <= s < t < |pos| ==> pos[s] < pos[t])
      && (forall p :: 0 <= p < |ms| ==> (p in pos <==> key(ms[p]) == key(g.matches[0])))
  {
    pos := WithKeyPositions(key, ms, KeysInOrder(key, ms)[i]);
  }

  lemma TwoWithOneKey<T, K(!new)>(key: T -> K, a: T, b: T)
    requires key(a) == key(b)
    ensures KeysInOrder(key, [a, b]) == [key(a)]
    ensures WithKey(key, [a, b], key(a)) == [a, b]
  {
    assert [a] == [] + [a] && [a, b] == [a] + [b];
    KeysInOrderSnoc(key, [], a);
    KeysInOrderSnoc(key, [a], b);
    WithKeySnoc(key, [], a, key(a));
    WithKeySnoc(key, [a], b, key(a));
  }

  /** Two matches with the same key, in either order of arrival, make one bucket headed by the first. */
  lemma SameKeyOneBucket<K(!new)>(key: Match -> K, m1: Match, m2: Match)
    requires key(m1) == key(m2)
    ensures Grouped(key, [m1, m2]) == [GroupedMatches(m1.torneo, m1.fecha, m1.cancha, [m1, m2])]
  {
    TwoWithOneKey(key, m1, m2);
  }

  /**
   * The key starts with the tournament id: reading the integer at its start
   * gives the id back, whatever the date and court hold.
   */
  lemma KeyNamesTournament(m: Match)
    ensures LeadingInt(Key(m)) == Some(m.torneo.id)
  {
    var rest := "-" + m.fecha + "-" + m.cancha;
    assert Key(m) == IntToString(m.torneo.id) + rest;
    LeadingIntOfIntToString(m.torneo.id, rest);
  }

  /**
   * Keys can collide only within one tournament, so every match of a bucket
   * belongs to the bucket's tournament.
   */
  lemma BucketTournament(ms: seq<Match>)
    ensures var gs := Grouped(Key, ms);
      forall i, t :: 0 <= i < |gs| && 0 <= t < |gs[i].matches| ==> gs[i].matches[t].torneo.id == gs[i].torneo.id
  {
    var gs := Grouped(Key, ms);
    BucketKeys(Key, ms);
    forall i, t | 0 <= i < |gs| && 0 <= t < |gs[i].matches|
      ensures gs[i].matches[t].torneo.id == gs[i].torneo.id
    {
      KeyNamesTournament(gs[i].matches[t]);
      KeyNamesTournament(gs[i].matches[0]);
    }
  }

  /** "1-a-b-c" is spelt both ways. */
  lemma KeysCollide(m1: Match, m2: Match)
    requires m1.torneo.id == 1 && m2.torneo.id == 1
    requires m1.fecha == "a-b" && m1.cancha == "c" && m2.fecha == "a" && m2.cancha == "b-c"
    ensures Key(m1) == Key(m2) == "1-a-b-c"
  {
    assert IntToString(1) == "1";
  }

  /**
   * The page's key is a plain concatenation, so two matches of tournament 1
   * with (fecha, cancha) = ("a-b", "c") and ("a", "b-c") share a bucket, whose
   * header is the first one's and so disagrees with the second match's fecha.
   */
  lemma KeyCollision(m1: Match, m2: Match)
    requires m1.torneo == m2.torneo && m1.torneo.id == 1
    requires m1.fecha == "a-b" && m1.cancha == "c" && m2.fecha == "a" && m2.cancha == "b-c"
    ensures Grouped(Key, [m1, m2]) == [GroupedMatches(m1.torneo, "a-b", "c", [m1, m2])]
    ensures Grouped(Key, [m1, m2])[0].matches[1].fecha != Grouped(Key, [m1, m2])[0].fecha
  {
    KeysCollide(m1, m2);
    SameKeyOneBucket(Key, m1, m2);
  }
}
