/** Grouping a list into a dictionary of lists by a string key, the
    `if (!grouped[key]) grouped[key] = []; grouped[key].push(x)` pattern
    shared by the award import script and the player page.  The
    dictionary lists its keys in first-insertion order. */
module Grouping {

  /** The distinct keys of `xs` in order of first occurrence. */
  function KeysOf<T>(xs: seq<T>, key: T -> string): (r: seq<string>)
    ensures forall i, j :: 0 <= i < j < |r| ==> r[i] != r[j]
    ensures forall k :: k in r <==> exists i :: 0 <= i < |xs| && key(xs[i]) == k
  {
    if xs == [] then []
    else
      var t := xs[..|xs| - 1];
      var rest := KeysOf(t, key);
      assert forall i :: 0 <= i < |t| ==> xs[i] == t[i];
      if key(xs[|xs| - 1]) in rest then rest else rest + [key(xs[|xs| - 1])]
  }

  /** The elements of `xs` with key `k`, in input order. */
  function Members<T>(xs: seq<T>, key: T -> string, k: string): (r: seq<T>)
    ensures |r| <= |xs|
    ensures forall j :: 0 <= j < |r| ==> key(r[j]) == k
  {
    if xs == [] then []
    else
      var x := xs[|xs| - 1];
      Members(xs[..|xs| - 1], key, k) + if key(x) == k then [x] else []
  }

  /** The dictionary built from `xs`: keys in insertion order, each group
      the members with that key. */
  ghost predicate GroupsOk<T>(xs: seq<T>, key: T -> string, keys: seq<string>, groups: map<string, seq<T>>) {
    && keys == KeysOf(xs, key)
    && (forall k :: k in groups <==> k in keys)
    && (forall k :: k in groups ==> groups[k] == Members(xs, key, k))
  }

  lemma StepFacts<T>(xs: seq<T>, x: T, key: T -> string, k: string)
    ensures KeysOf(xs + [x], key) == if key(x) in KeysOf(xs, key) then KeysOf(xs, key) else KeysOf(xs, key) + [key(x)]
    ensures Members(xs + [x], key, k) == Members(xs, key, k) + if key(x) == k then [x] else []
  {
    var q := xs + [x];
    assert q[..|q| - 1] == xs;
  }

  lemma {:induction false} MembersAbsent<T>(xs: seq<T>, key: T -> string, k: string)
    requires k !in KeysOf(xs, key)
    ensures Members(xs, key, k) == []
  {
    if xs != [] {
      var t := xs[..|xs| - 1];
      assert forall i :: 0 <= i < |t| ==> xs[i] == t[i];
      MembersAbsent(t, key, k);
    }
  }

  /** The grouping loop. */
  method GroupBy<T>(xs: seq<T>, key: T -> string) returns (keys: seq<string>, groups: map<string, seq<T>>)
    ensures GroupsOk(xs, key, keys, groups)
  {
    keys := [];
    groups := map[];
    var i := 0;
    while i < |xs|
      invariant 0 <= i <= |xs|
      invariant GroupsOk(xs[..i], key, keys, groups)
    {
      var x := xs[i];
      var k := key(x);
      assert xs[..i + 1] == xs[..i] + [x];
      forall j ensures Members(xs[..i + 1], key, j) == Members(xs[..i], key, j) + if k == j then [x] else [] {
        StepFacts(xs[..i], x, key, j);
      }
      StepFacts(xs[..i], x, key, k);
      if k !in groups {
        MembersAbsent(xs[..i], key, k);
        groups := groups[k := []];
        keys := keys + [k];
      }
      groups := groups[k := groups[k] + [x]];
      i := i + 1;
    }
    assert xs[..i] == xs;
  }

  /** Every element sits in the group of its own key. */
  lemma {:induction false} InOwnGroup<T>(xs: seq<T>, key: T -> string, i: nat)
    requires i < |xs|
    ensures xs[i] in Members(xs, key, key(xs[i]))
  {
    var t := xs[..|xs| - 1];
    if i < |t| {
      assert xs[i] == t[i];
      InOwnGroup(t, key, i);
    }
  }

  /** The sizes of the groups over a list of keys. */
  function SizesOver<T>(xs: seq<T>, key: T -> string, keys: seq<string>): nat {
    if keys == [] then 0 else |Members(xs, key, keys[0])| + SizesOver(xs, key, keys[1..])
  }

  lemma {:induction false} SizesOverStep<T>(xs: seq<T>, x: T, key: T -> string, keys: seq<string>)
    requires forall i, j :: 0 <= i < j < |keys| ==> keys[i] != keys[j]
    ensures SizesOver(xs + [x], key, keys) == SizesOver(xs, key, keys) + if key(x) in keys then 1 else 0
  {
    if keys != [] {
      StepFacts(xs, x, key, keys[0]);
      SizesOverStep(xs, x, key, keys[1..]);
      assert key(x) in keys <==> key(x) == keys[0] || key(x) in keys[1..];
      assert key(x) == keys[0] ==> key(x) !in keys[1..];
    }
  }

  lemma {:induction false} SizesOverAppend<T>(xs: seq<T>, key: T -> string, keys: seq<string>, k: string)
    ensures SizesOver(xs, key, keys + [k]) == SizesOver(xs, key, keys) + |Members(xs, key, k)|
  {
    if keys == [] {
      assert [k][1..] == [];
    } else {
      assert (keys + [k])[1..] == keys[1..] + [k];
      SizesOverAppend(xs, key, keys[1..], k);
    }
  }

  /** The groups partition the input: their sizes add up to its length. */
  lemma {:induction false} SizesSum<T>(xs: seq<T>, key: T -> string)
    ensures SizesOver(xs, key, KeysOf(xs, key)) == |xs|
  {
    if xs != [] {
      var t := xs[..|xs| - 1];
      var x := xs[|xs| - 1];
      assert xs == t + [x];
      SizesSum(t, key);
      SizesOverStep(t, x, key, KeysOf(t, key));
      StepFacts(t, x, key, key(x));
      if key(x) !in KeysOf(t, key) {
        SizesOverAppend(xs, key, KeysOf(t, key), key(x));
        MembersAbsent(t, key, key(x));
      }
    }
  }

  /** The sum of the counts. */
  function CountsTotal(summary: seq<(string, nat)>): nat {
    if summary == [] then 0 else summary[0].1 + CountsTotal(summary[1..])
  }

  lemma {:induction false} CountsTotalSizes<T>(summary: seq<(string, nat)>, xs: seq<T>, key: T -> string, keys: seq<string>)
    requires |summary| == |keys|
    requires forall i :: 0 <= i < |keys| ==> summary[i] == (keys[i], |Members(xs, key, keys[i])|)
    ensures CountsTotal(summary) == SizesOver(xs, key, keys)
  {
    if keys != [] {
      CountsTotalSizes(summary[1..], xs, key, keys[1..]);
    }
  }

  /** Grouping, then one `(key, group size)` entry per group in key
      order; the sizes add up to the number of elements. */
  method GroupCounts<T>(xs: seq<T>, key: T -> string) returns (summary: seq<(string, nat)>)
    ensures |summary| == |KeysOf(xs, key)|
    ensures forall i :: 0 <= i < |summary| ==>
      summary[i].0 == KeysOf(xs, key)[i] && summary[i].1 == |Members(xs, key, summary[i].0)|
    ensures CountsTotal(summary) == |xs|
  {
    var keys, groups := GroupBy(xs, key);
    summary := [];
    var i := 0;
    while i < |keys|
      invariant 0 <= i <= |keys|
      invariant |summary| == i
      invariant forall j :: 0 <= j < i ==> summary[j] == (keys[j], |Members(xs, key, keys[j])|)
    {
      summary := summary + [(keys[i], |groups[keys[i]]|)];
      i := i + 1;
    }
    CountsTotalSizes(summary, xs, key, keys);
    SizesSum(xs, key);
  }
}
