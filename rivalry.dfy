/** The rivalry counter: matches are tallied under the key
    `[player1_id, player2_id].sort().join('-')`, so both orientations of a
    pair share one entry.  The dictionary lists its keys in first-insertion
    order, as `Object.values` does. */
module Rivalry {
  import opened Wrappers
  import opened Domain

  /** The default `sort()` order on strings: lexicographic by character. */
  predicate LexLe(a: string, b: string)
    decreases |a|
  {
    a == [] || (b != [] && (a[0] < b[0] || (a[0] == b[0] && LexLe(a[1..], b[1..]))))
  }

  lemma {:induction false} LexTotal(a: string, b: string)
    ensures LexLe(a, b) || LexLe(b, a)
    decreases |a|
  {
    if a != [] && b != [] && a[0] == b[0] {
      LexTotal(a[1..], b[1..]);
    }
  }

  lemma {:induction false} LexAntisymmetric(a: string, b: string)
    requires LexLe(a, b) && LexLe(b, a)
    ensures a == b
    decreases |a|
  {
    if a != [] && b != [] {
      LexAntisymmetric(a[1..], b[1..]);
      assert a == [a[0]] + a[1..] && b == [b[0]] + b[1..];
    }
  }

  /** The pair key: the two ids in sorted order joined by a hyphen. */
  function PairKey(a: Id, b: Id): (k: string)
    ensures k == a + "-" + b || k == b + "-" + a
  {
    if LexLe(a, b) then a + "-" + b else b + "-" + a
  }

  /** Both orientations of a pair give one key. */
  lemma PairKeySymmetric(a: Id, b: Id)
    ensures PairKey(a, b) == PairKey(b, a)
  {
    LexTotal(a, b);
    if LexLe(a, b) && LexLe(b, a) {
      LexAntisymmetric(a, b);
    }
  }

  function KeyOf(m: Match): string {
    PairKey(m.p1, m.p2)
  }

  /** The keys of `ms` in order of first occurrence. */
  function KeyOrder(ms: seq<Match>): (r: seq<string>)
    ensures forall i, j :: 0 <= i < j < |r| ==> r[i] != r[j]
    ensures forall k :: k in r <==> exists i :: 0 <= i < |ms| && KeyOf(ms[i]) == k
  {
    if ms == [] then []
    else
      var t := ms[..|ms| - 1];
      var rest := KeyOrder(t);
      assert forall i :: 0 <= i < |t| ==> ms[i] == t[i];
      if KeyOf(ms[|ms| - 1]) in rest then rest else rest + [KeyOf(ms[|ms| - 1])]
  }

  /** How many matches of `ms` carry key `k`. */
  function KeyCount(ms: seq<Match>, k: string): nat {
    if ms == [] then 0
    else KeyCount(ms[..|ms| - 1], k) + if KeyOf(ms[|ms| - 1]) == k then 1 else 0
  }

  /** `m` is the earliest match of `ms` with key `k`. */
  predicate FirstWith(ms: seq<Match>, k: string, m: Match) {
    exists i :: 0 <= i < |ms| && ms[i] == m && KeyOf(m) == k
      && forall j :: 0 <= j < i ==> KeyOf(ms[j]) != k
  }

  /** A key has one earliest match. */
  lemma FirstWithUnique(ms: seq<Match>, k: string, a: Match, b: Match)
    requires FirstWith(ms, k, a) && FirstWith(ms, k, b)
    ensures a == b
  {
    var i :| 0 <= i < |ms| && ms[i] == a && KeyOf(a) == k && forall j :: 0 <= j < i ==> KeyOf(ms[j]) != k;
    var l :| 0 <= l < |ms| && ms[l] == b && KeyOf(b) == k && forall j :: 0 <= j < l ==> KeyOf(ms[j]) != k;
    assert !(i < l) && !(l < i);
  }

  /** The earliest match of `ms` with key `k`, if any. */
  function FirstOf(ms: seq<Match>, k: string): Option<Match> {
    if ms == [] then None
    else
      var f := FirstOf(ms[..|ms| - 1], k);
      if f.Some? then f else if KeyOf(ms[|ms| - 1]) == k then Some(ms[|ms| - 1]) else None
  }

  lemma {:induction false} FirstOfMeaning(ms: seq<Match>, k: string)
    ensures FirstOf(ms, k).None? <==> k !in KeyOrder(ms)
    ensures FirstOf(ms, k).Some? ==> FirstWith(ms, k, FirstOf(ms, k).value)
  {
    if ms != [] {
      var t := ms[..|ms| - 1];
      FirstOfMeaning(t, k);
      assert forall j :: 0 <= j < |t| ==> ms[j] == t[j];
      if FirstOf(t, k).Some? {
        var i :| 0 <= i < |t| && t[i] == FirstOf(t, k).value && KeyOf(t[i]) == k
          && forall j :: 0 <= j < i ==> KeyOf(t[j]) != k;
        assert ms[i] == t[i];
      } else if KeyOf(ms[|ms| - 1]) == k {
        assert forall j :: 0 <= j < |t| ==> KeyOf(t[j]) != k;
      }
    }
  }

  /** One entry of the counter: the match that created it (its players are
      the entry's `player1`/`player2`) and the running count. */
  datatype Tally = Tally(first: Match, count: nat)

  /** The counter after tallying `ms`, keys in insertion order. */
  ghost predicate TableOk(ms: seq<Match>, keys: seq<string>, table: map<string, Tally>) {
    && keys == KeyOrder(ms)
    && (forall k :: k in table <==> k in keys)
    && EntriesOk(ms, table)
  }

  lemma KeyOrderStep(ms: seq<Match>, m: Match)
    ensures KeyOrder(ms + [m]) == if KeyOf(m) in KeyOrder(ms) then KeyOrder(ms) else KeyOrder(ms) + [KeyOf(m)]
  {
    var q := ms + [m];
    assert q[..|q| - 1] == ms;
  }

  lemma KeyCountStep(ms: seq<Match>, m: Match, j: string)
    ensures KeyCount(ms + [m], j) == KeyCount(ms, j) + if KeyOf(m) == j then 1 else 0
    ensures FirstOf(ms + [m], j) == if FirstOf(ms, j).Some? then FirstOf(ms, j)
      else if KeyOf(m) == j then Some(m) else None
  {
    var q := ms + [m];
    assert q[..|q| - 1] == ms;
  }

  /** Every entry counts and starts its key's matches. */
  ghost predicate EntriesOk(ms: seq<Match>, table: map<string, Tally>) {
    forall k :: k in table ==> table[k].count == KeyCount(ms, k) && Some(table[k].first) == FirstOf(ms, k)
  }

  lemma BumpEntries(ms: seq<Match>, m: Match, table: map<string, Tally>)
    requires EntriesOk(ms, table) && KeyOf(m) in table
    ensures EntriesOk(ms + [m], table[KeyOf(m) := table[KeyOf(m)].(count := table[KeyOf(m)].count + 1)])
  {
    var k := KeyOf(m);
    var t := table[k := table[k].(count := table[k].count + 1)];
    forall j | j in t ensures t[j].count == KeyCount(ms + [m], j) && Some(t[j].first) == FirstOf(ms + [m], j) {
      KeyCountStep(ms, m, j);
    }
  }

  lemma OpenEntry(ms: seq<Match>, m: Match, table: map<string, Tally>)
    requires EntriesOk(ms, table) && KeyOf(m) !in table
    requires KeyCount(ms, KeyOf(m)) == 0 && FirstOf(ms, KeyOf(m)).None?
    ensures EntriesOk(ms + [m], table[KeyOf(m) := Tally(m, 1)])
  {
    var t := table[KeyOf(m) := Tally(m, 1)];
    forall j | j in t ensures t[j].count == KeyCount(ms + [m], j) && Some(t[j].first) == FirstOf(ms + [m], j) {
      KeyCountStep(ms, m, j);
    }
  }

  /** A match whose key is already in the counter bumps that entry. */
  lemma TableStepOld(ms: seq<Match>, m: Match, keys: seq<string>, table: map<string, Tally>)
    requires TableOk(ms, keys, table) && KeyOf(m) in table
    ensures TableOk(ms + [m], keys, table[KeyOf(m) := table[KeyOf(m)].(count := table[KeyOf(m)].count + 1)])
  {
    KeyOrderStep(ms, m);
    BumpEntries(ms, m, table);
  }

  /** A match with a new key opens an entry with count one. */
  lemma TableStepNew(ms: seq<Match>, m: Match, keys: seq<string>, table: map<string, Tally>)
    requires TableOk(ms, keys, table) && KeyOf(m) !in table
    ensures TableOk(ms + [m], keys + [KeyOf(m)], table[KeyOf(m) := Tally(m, 1)])
  {
    var k := KeyOf(m);
    KeyOrderStep(ms, m);
    KeyCountAbsent(ms, k);
    FirstOfMeaning(ms, k);
    OpenEntry(ms, m, table);
  }

  /** The loop body: open the entry if the key is new, then bump it. */
  lemma TableStep(ms: seq<Match>, m: Match, keys: seq<string>, table: map<string, Tally>)
    requires TableOk(ms, keys, table)
    ensures var k := KeyOf(m);
      var keys1 := if k in table then keys else keys + [k];
      var table1 := if k in table then table else table[k := Tally(m, 0)];
      TableOk(ms + [m], keys1, table1[k := table1[k].(count := table1[k].count + 1)])
  {
    var k := KeyOf(m);
    if k in table {
      TableStepOld(ms, m, keys, table);
    } else {
      TableStepNew(ms, m, keys, table);
      assert table[k := Tally(m, 0)][k := Tally(m, 1)] == table[k := Tally(m, 1)];
    }
  }

  /** `if (!rivalries[key]) rivalries[key] = { ..., count: 0 }` followed by
      `rivalries[key].count += 1` for one match. */
  method TallyMatch(ghost seen: seq<Match>, m: Match, keys: seq<string>, table: map<string, Tally>)
    returns (keys': seq<string>, table': map<string, Tally>)
    requires TableOk(seen, keys, table)
    ensures TableOk(seen + [m], keys', table')
  {
    var k := KeyOf(m);
    TableStep(seen, m, keys, table);
    keys', table' := keys, table;
    if k !in table' {
      table' := table'[k := Tally(m, 0)];
      keys' := keys' + [k];
    }
    table' := table'[k := table'[k].(count := table'[k].count + 1)];
  }

  /** What a counter that tallied all of `ms` holds. */
  lemma TableMeaning(ms: seq<Match>, keys: seq<string>, table: map<string, Tally>)
    requires TableOk(ms, keys, table)
    ensures keys == KeyOrder(ms)
    ensures forall k :: k in table <==> k in keys
    ensures forall k :: k in table ==> table[k].count == KeyCount(ms, k) && FirstWith(ms, k, table[k].first)
  {
    forall k | k in table ensures FirstWith(ms, k, table[k].first) {
      FirstOfMeaning(ms, k);
    }
  }

  /** The counter over every match in turn. */
  method CountRivalries(ms: seq<Match>) returns (keys: seq<string>, table: map<string, Tally>)
    ensures keys == KeyOrder(ms)
    ensures forall k :: k in table <==> k in keys
    ensures forall k :: k in table ==> table[k].count == KeyCount(ms, k) && FirstWith(ms, k, table[k].first)
  {
    keys := [];
    table := map[];
    var i := 0;
    while i < |ms|
      invariant 0 <= i <= |ms|
      invariant TableOk(ms[..i], keys, table)
    {
      assert ms[..i + 1] == ms[..i] + [ms[i]];
      keys, table := TallyMatch(ms[..i], ms[i], keys, table);
      i := i + 1;
    }
    assert ms[..i] == ms;
    TableMeaning(ms, keys, table);
  }

  lemma {:induction false} KeyCountAbsent(ms: seq<Match>, k: string)
    requires k !in KeyOrder(ms)
    ensures KeyCount(ms, k) == 0
  {
    if ms != [] {
      var t := ms[..|ms| - 1];
      assert forall i :: 0 <= i < |t| ==> ms[i] == t[i];
      KeyCountAbsent(t, k);
    }
  }

  /** A key is listed exactly when some match carries it. */
  lemma {:induction false} KeyCountPositive(ms: seq<Match>, k: string)
    ensures KeyCount(ms, k) > 0 <==> k in KeyOrder(ms)
  {
    if ms != [] {
      var t := ms[..|ms| - 1];
      KeyCountPositive(t, k);
      assert forall i :: 0 <= i < |t| ==> ms[i] == t[i];
    }
  }

  /** The counts over a list of keys. */
  function CountsOver(ms: seq<Match>, keys: seq<string>): nat {
    if keys == [] then 0 else KeyCount(ms, keys[0]) + CountsOver(ms, keys[1..])
  }

  lemma {:induction false} CountsOverStep(ms: seq<Match>, m: Match, keys: seq<string>)
    requires forall i, j :: 0 <= i < j < |keys| ==> keys[i] != keys[j]
    ensures CountsOver(ms + [m], keys) == CountsOver(ms, keys) + if KeyOf(m) in keys then 1 else 0
  {
    var q := ms + [m];
    assert q[..|q| - 1] == ms;
    if keys != [] {
      CountsOverStep(ms, m, keys[1..]);
      assert KeyOf(m) in keys <==> KeyOf(m) == keys[0] || KeyOf(m) in keys[1..];
      assert KeyOf(m) == keys[0] ==> KeyOf(m) !in keys[1..];
    }
  }

  lemma {:induction false} CountsOverAppend(ms: seq<Match>, keys: seq<string>, k: string)
    ensures CountsOver(ms, keys + [k]) == CountsOver(ms, keys) + KeyCount(ms, k)
  {
    if keys == [] {
      assert [k][1..] == [];
    } else {
      assert (keys + [k])[1..] == keys[1..] + [k];
      CountsOverAppend(ms, keys[1..], k);
    }
  }

  /** The counts of all keys add up to the number of matches tallied. */
  lemma {:induction false} CountsSum(ms: seq<Match>)
    ensures CountsOver(ms, KeyOrder(ms)) == |ms|
  {
    if ms != [] {
      var t := ms[..|ms| - 1];
      var m := ms[|ms| - 1];
      assert ms == t + [m];
      CountsSum(t);
      CountsOverStep(t, m, KeyOrder(t));
      if KeyOf(m) !in KeyOrder(t) {
        CountsOverAppend(ms, KeyOrder(t), KeyOf(m));
        KeyCountAbsent(t, KeyOf(m));
      }
    }
  }
}
