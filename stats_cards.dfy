/** components/StatsCards.jsx: the four dashboard figures — the match count
    with its week-over-week trend, the win-rate leader, the longest current
    winning streak, and the match with the biggest rating swing.  The clock
    is a parameter (`now`, in milliseconds). */
module StatsCards {
  import opened Wrappers
  import opened Domain
  import opened Sorting

  // ---------------------------------------------------------------------
  // Total matches and trend.

  const DayMs: int := 86400000

  /** Matches at or after `from`. */
  function CountSince(ms: seq<Match>, from: int): (n: nat)
    ensures n <= |ms|
    ensures |ms| == 1 ==> n == if When(ms[0]).instant >= from then 1 else 0
  {
    if ms == [] then 0
    else (if When(ms[0]).instant >= from then 1 else 0) + CountSince(ms[1..], from)
  }

  /** Counting splits over concatenation: with the one-match case, the
      count is the number of matches at or after `from`, wherever they are. */
  lemma {:induction false} CountSinceConcat(a: seq<Match>, b: seq<Match>, from: int)
    ensures CountSince(a + b, from) == CountSince(a, from) + CountSince(b, from)
  {
    if a == [] {
      assert a + b == b;
    } else {
      assert (a + b)[1..] == a[1..] + b;
      CountSinceConcat(a[1..], b, from);
    }
  }

  /** A later bound counts no more matches. */
  lemma {:induction false} CountSinceMonotone(ms: seq<Match>, early: int, late: int)
    requires early <= late
    ensures CountSince(ms, late) <= CountSince(ms, early)
  {
    if ms != [] {
      CountSinceMonotone(ms[1..], early, late);
    }
  }

  /** Matches at or after `from` and strictly before `to`. */
  function CountBetween(ms: seq<Match>, from: int, to: int): (n: nat)
    ensures n <= |ms|
    ensures to <= from ==> n == 0
  {
    if ms == [] then 0
    else (if from <= When(ms[0]).instant < to then 1 else 0) + CountBetween(ms[1..], from, to)
  }

  /** The two windows are disjoint and together cover everything since the
      earlier bound: each match is counted in at most one of them. */
  lemma {:induction false} WeeksPartition(ms: seq<Match>, twoWeeksAgo: int, oneWeekAgo: int)
    requires twoWeeksAgo <= oneWeekAgo
    ensures CountSince(ms, twoWeeksAgo) == CountBetween(ms, twoWeeksAgo, oneWeekAgo) + CountSince(ms, oneWeekAgo)
  {
    if ms != [] {
      WeeksPartition(ms[1..], twoWeeksAgo, oneWeekAgo);
    }
  }

  /** The trend in percent: the relative change rounded when the previous
      week had matches, 100 when only this week has, 0 otherwise. */
  function Trend(last: nat, prev: nat): (t: int)
    ensures prev == 0 ==> t == (if last > 0 then 100 else 0)
    ensures t >= -100
    ensures last == prev ==> t == 0
    ensures prev > 0 && last > prev ==> t >= 0
    ensures prev > 0 && last < prev ==> t <= 0
  {
    if prev > 0 then
      var x := (last as real - prev as real) / prev as real * 100.0;
      assert last as real - prev as real >= -(prev as real);
      assert x >= -100.0;
      assert last >= prev ==> x >= 0.0;
      assert last <= prev ==> x <= 0.0;
      RoundHalfUp(x)
    else if last > 0 then 100
    else 0
  }

  datatype Totals = Totals(total: nat, lastWeek: nat, trend: int)

  /** `getTotalMatches`: all matches, those of the last seven days, and the
      trend against the seven days before. */
  function TotalMatches(ms: seq<Match>, now: int): (r: Totals)
    ensures r.total == |ms|
    ensures r.lastWeek == CountSince(ms, now - 7 * DayMs)
    ensures r.trend == Trend(r.lastWeek, CountBetween(ms, now - 14 * DayMs, now - 7 * DayMs))
    ensures r.lastWeek + CountBetween(ms, now - 14 * DayMs, now - 7 * DayMs) == CountSince(ms, now - 14 * DayMs) <= r.total
  {
    WeeksPartition(ms, now - 14 * DayMs, now - 7 * DayMs);
    var last := CountSince(ms, now - 7 * DayMs);
    var prev := CountBetween(ms, now - 14 * DayMs, now - 7 * DayMs);
    Totals(|ms|, last, Trend(last, prev))
  }

  // ---------------------------------------------------------------------
  // Win-rate leader.

  function Rate(p: Player): real
    requires p.played != 0
  {
    p.won as real / p.played as real
  }

  /** The `reduce` with initial value `null`: a player with no matches is
      passed over; a player replaces the current best only with a strictly
      greater rate, the empty best counting as rate 0.  The result is an
      index into `ps`. */
  function LeaderOf(ps: seq<Player>): (r: Option<nat>)
    ensures r.Some? ==> r.value < |ps| && ps[r.value].played != 0
  {
    if ps == [] then None
    else
      var t := ps[..|ps| - 1];
      var best := LeaderOf(t);
      var cur := ps[|ps| - 1];
      if cur.played == 0 then best
      else
        var bestRate := if best.Some? then Rate(t[best.value]) else 0.0;
        if Rate(cur) > bestRate then Some(|ps| - 1) else best
  }

  /** The leader has a positive rate no one beats, and every player before
      it has a strictly smaller one; there is no leader exactly when no
      player has a positive rate. */
  lemma {:induction false} LeaderMeaning(ps: seq<Player>)
    ensures var r := LeaderOf(ps);
      && (r.None? <==> forall j :: 0 <= j < |ps| && ps[j].played != 0 ==> Rate(ps[j]) <= 0.0)
      && (r.Some? ==>
            && Rate(ps[r.value]) > 0.0
            && (forall j :: 0 <= j < |ps| && ps[j].played != 0 ==> Rate(ps[j]) <= Rate(ps[r.value]))
            && (forall j :: 0 <= j < r.value && ps[j].played != 0 ==> Rate(ps[j]) < Rate(ps[r.value])))
  {
    if ps != [] {
      var t := ps[..|ps| - 1];
      LeaderMeaning(t);
      assert forall j :: 0 <= j < |t| ==> ps[j] == t[j];
    }
  }

  datatype RateLeader = RateLeader(player: Player, winRate: int)

  /** `getWinRateLeader`: the leader with its rounded percentage, `null`
      when there is none. */
  function WinRateLeader(ps: seq<Player>): (r: Option<RateLeader>)
    ensures r.None? <==> LeaderOf(ps).None?
    ensures r.Some? ==>
      && r.value.player == ps[LeaderOf(ps).value]
      && r.value.winRate == Percent(r.value.player.won, r.value.player.played)
  {
    match LeaderOf(ps)
    case None => None
    case Some(i) => Some(RateLeader(ps[i], Percent(ps[i].won, ps[i].played)))
  }

  // ---------------------------------------------------------------------
  // Current winning streak.

  function NewKey(m: Match): real { When(m).instant as real }

  /** `[...matches].sort(...)` newest first. */
  function NewestFirst(ms: seq<Match>): (r: seq<Match>)
    ensures multiset(r) == multiset(ms)
    ensures forall i, j :: 0 <= i < j < |r| ==> When(r[i]).instant >= When(r[j]).instant
  {
    SortDesc(ms, NewKey)
  }

  predicate Involves(m: Match, id: Id) {
    m.p1 == id || m.p2 == id
  }

  /** The matches `id` played, in order. */
  function Involving(ms: seq<Match>, id: Id): (r: seq<Match>)
    ensures forall k :: 0 <= k < |r| ==> Involves(r[k], id)
  {
    if ms == [] then []
    else if Involves(ms[0], id) then [ms[0]] + Involving(ms[1..], id)
    else Involving(ms[1..], id)
  }

  /** The filter distributes over concatenation and keeps a single match
      iff the player is on either side, so it keeps order and multiplicity. */
  lemma {:induction false} InvolvingConcat(a: seq<Match>, b: seq<Match>, id: Id)
    ensures Involving(a + b, id) == Involving(a, id) + Involving(b, id)
    ensures |b| == 1 ==> Involving(b, id) == if Involves(b[0], id) then b else []
  {
    if |b| == 1 {
      InvolvingOne(b, id);
    }
    if a == [] {
      ConcatEmpty(a, b);
      ConcatEmpty(Involving(a, id), Involving(b, id));
    } else {
      InvolvingConcat(a[1..], b, id);
      InvolvingStep(a, b, id);
      var h := if Involves(a[0], id) then [a[0]] else [];
      ConcatAssoc(h, Involving(a[1..], id), Involving(b, id));
    }
  }

  lemma InvolvingOne(b: seq<Match>, id: Id)
    requires |b| == 1
    ensures Involving(b, id) == if Involves(b[0], id) then b else []
  {
    assert b[1..] == [] && b == [b[0]];
  }

  lemma InvolvingStep(a: seq<Match>, b: seq<Match>, id: Id)
    requires a != []
    ensures Involving(a + b, id) == (if Involves(a[0], id) then [a[0]] else []) + Involving(a[1..] + b, id)
  {
    var ab := a + b;
    assert ab[0] == a[0] && ab[1..] == a[1..] + b;
  }

  lemma ConcatEmpty<T>(a: seq<T>, b: seq<T>)
    requires a == []
    ensures a + b == b
  {
  }

  lemma ConcatAssoc<T>(x: seq<T>, y: seq<T>, z: seq<T>)
    ensures x + (y + z) == (x + y) + z
  {
  }



  /** The scan of one player: matches without them are skipped, each win
      counts, the first match they did not win stops the scan. */
  function StreakOf(ms: seq<Match>, id: Id): nat {
    if ms == [] then 0
    else if Involves(ms[0], id) then (if ms[0].winner == id then 1 + StreakOf(ms[1..], id) else 0)
    else StreakOf(ms[1..], id)
  }

  /** The streak counts the leading wins among the player's matches: the
      first `StreakOf` of them are wins, and the next one, if any, is not. */
  lemma {:induction false} StreakMeaning(ms: seq<Match>, id: Id)
    ensures var inv := Involving(ms, id);
      && StreakOf(ms, id) <= |inv|
      && (forall k :: 0 <= k < StreakOf(ms, id) ==> inv[k].winner == id)
      && (StreakOf(ms, id) < |inv| ==> inv[StreakOf(ms, id)].winner != id)
  {
    if ms != [] {
      StreakMeaning(ms[1..], id);
    }
  }

  /** The `for…of` loop with `break` for one player. */
  method CurrentStreak(sorted: seq<Match>, id: Id) returns (n: nat)
    ensures n == StreakOf(sorted, id)
  {
    n := 0;
    var i := 0;
    while i < |sorted|
      invariant 0 <= i <= |sorted|
      invariant n + StreakOf(sorted[i..], id) == StreakOf(sorted, id)
    {
      var m := sorted[i];
      assert sorted[i..] == [m] + sorted[i + 1..];
      if m.p1 == id {
        if m.winner == id {
          n := n + 1;
        } else {
          break;
        }
      } else if m.p2 == id {
        if m.winner == id {
          n := n + 1;
        } else {
          break;
        }
      }
      i := i + 1;
    }
  }

  /** The `playerStreaks` dictionary: the ids with a positive streak, in
      order of first appearance among the players. */
  function StreakKeys(ps: seq<Player>, sorted: seq<Match>): (keys: seq<Id>)
    ensures forall i, j :: 0 <= i < j < |keys| ==> keys[i] != keys[j]
    ensures forall k :: k in keys <==> exists j :: 0 <= j < |ps| && ps[j].id == k && StreakOf(sorted, k) > 0
  {
    if ps == [] then []
    else
      var t := ps[..|ps| - 1];
      var rest := StreakKeys(t, sorted);
      var id := ps[|ps| - 1].id;
      assert forall j :: 0 <= j < |t| ==> ps[j] == t[j];
      if StreakOf(sorted, id) > 0 && id !in rest then rest + [id] else rest
  }

  /** One more player adds their id when it has a positive streak and is
      not listed yet. */
  lemma StreakKeysStep(ps: seq<Player>, i: nat, sorted: seq<Match>)
    requires i < |ps|
    ensures StreakKeys(ps[..i + 1], sorted) ==
      var rest := StreakKeys(ps[..i], sorted);
      if StreakOf(sorted, ps[i].id) > 0 && ps[i].id !in rest then rest + [ps[i].id] else rest
  {
    assert ps[..i + 1][..i] == ps[..i];
  }

  /** `Object.keys(playerStreaks).reduce((a, b) => s[a] > s[b] ? a : b, null)`:
      the starting `null` always loses the first comparison, and a later key
      wins every tie. */
  function PickLongest(keys: seq<Id>, sorted: seq<Match>): (r: Option<Id>)
    ensures r.None? <==> keys == []
    ensures r.Some? ==> r.value in keys
  {
    if keys == [] then None
    else
      var a := PickLongest(keys[..|keys| - 1], sorted);
      var b := keys[|keys| - 1];
      if a.Some? && StreakOf(sorted, a.value) > StreakOf(sorted, b) then a else Some(b)
  }

  /** The chosen key has the longest streak, and every key after it has a
      strictly shorter one: among equal streaks the last key is chosen. */
  lemma {:induction false} PickLongestMeaning(keys: seq<Id>, sorted: seq<Match>)
    requires forall i, j :: 0 <= i < j < |keys| ==> keys[i] != keys[j]
    ensures PickLongest(keys, sorted).Some? ==>
      var w := PickLongest(keys, sorted).value;
      && (forall k :: k in keys ==> StreakOf(sorted, k) <= StreakOf(sorted, w))
      && (forall i :: 0 <= i < |keys| && keys[i] != w && (exists j :: 0 <= j < i && keys[j] == w) ==>
            StreakOf(sorted, keys[i]) < StreakOf(sorted, w))
  {
    if keys != [] {
      var t := keys[..|keys| - 1];
      PickLongestMeaning(t, sorted);
      assert forall j :: 0 <= j < |t| ==> keys[j] == t[j];
      assert keys == t + [keys[|keys| - 1]];
    }
  }

  datatype StreakLeader = StreakLeader(player: Player, streak: nat)

  /** The `playerStreaks` dictionary: the players with a positive current
      streak, in first-seen order, each with that streak. */
  method StreakTable(players: seq<Player>, sorted: seq<Match>) returns (keys: seq<Id>, streaks: map<Id, nat>)
    ensures keys == StreakKeys(players, sorted)
    ensures forall k :: k in streaks <==> k in keys
    ensures forall k :: k in streaks ==> streaks[k] == StreakOf(sorted, k)
  {
    keys := [];
    streaks := map[];
    var i := 0;
    while i < |players|
      invariant 0 <= i <= |players|
      invariant keys == StreakKeys(players[..i], sorted)
      invariant forall k :: k in streaks <==> k in keys
      invariant forall k :: k in streaks ==> streaks[k] == StreakOf(sorted, k)
    {
      StreakKeysStep(players, i, sorted);
      var n := CurrentStreak(sorted, players[i].id);
      if n > 0 {
        if players[i].id !in streaks {
          keys := keys + [players[i].id];
        }
        streaks := streaks[players[i].id := n];
      }
      i := i + 1;
    }
    assert players[..i] == players;
  }

  /** `getWinningStreak`: `null` without matches; otherwise every player's
      current streak is measured newest first, the longest positive one is
      picked, and its player looked up.  A picked id that is the empty
      string is falsy and also gives `null`. */
  method WinningStreak(players: seq<Player>, matches: seq<Match>) returns (r: Option<StreakLeader>)
    ensures matches == [] ==> r.None?
    ensures matches != [] ==>
      var sorted := NewestFirst(matches);
      var pick := PickLongest(StreakKeys(players, sorted), sorted);
      && (r.None? <==> pick.None? || pick.value == "")
      && (r.Some? ==>
            && Some(r.value.player) == FindPlayer(players, pick.value)
            && r.value.streak == StreakOf(sorted, pick.value) > 0)
  {
    if |matches| == 0 {
      return None;
    }
    var sorted := NewestFirst(matches);
    var keys, streaks := StreakTable(players, sorted);
    var longest := PickLongest(keys, sorted);
    if longest.None? || longest.value == "" {
      return None;
    }
    var id := longest.value;
    var p := FindPlayer(players, id);
    assert p.Some? by {
      var j :| 0 <= j < |players| && players[j].id == id && StreakOf(sorted, id) > 0;
    }
    r := Some(StreakLeader(p.value, streaks[id]));
  }

  // ---------------------------------------------------------------------
  // Biggest rating swing.

  /** `Math.abs(player1_elo_change) + Math.abs(player2_elo_change)`. */
  function TotalSwing(m: Match): nat {
    SwingOf(m.c1) + SwingOf(m.c2)
  }

  /** The `reduce` without an initial value: the first match starts, a
      later match replaces it only with a strictly bigger swing.  The
      result is an index into `ms`. */
  function BiggestIndex(ms: seq<Match>): (r: nat)
    requires ms != []
    ensures r < |ms|
  {
    if |ms| == 1 then 0
    else
      var best := BiggestIndex(ms[..|ms| - 1]);
      if TotalSwing(ms[|ms| - 1]) > TotalSwing(ms[best]) then |ms| - 1 else best
  }

  /** The chosen match has the biggest swing and is the earliest that
      has it. */
  lemma {:induction false} BiggestMeaning(ms: seq<Match>)
    requires ms != []
    ensures forall j :: 0 <= j < |ms| ==> TotalSwing(ms[j]) <= TotalSwing(ms[BiggestIndex(ms)])
    ensures forall j :: 0 <= j < BiggestIndex(ms) ==> TotalSwing(ms[j]) < TotalSwing(ms[BiggestIndex(ms)])
  {
    if |ms| > 1 {
      var t := ms[..|ms| - 1];
      BiggestMeaning(t);
      assert forall j :: 0 <= j < |t| ==> ms[j] == t[j];
    }
  }

  datatype SwingCard = SwingCard(m: Match, player1: Option<Player>, player2: Option<Player>, totalEloChange: nat)

  /** `getBiggestEloChange`: `null` without matches; otherwise the chosen
      match, its two players as `find` gives them, and the total swing. */
  function BiggestEloChange(players: seq<Player>, ms: seq<Match>): (r: Option<SwingCard>)
    ensures r.None? <==> ms == []
    ensures r.Some? ==>
      && r.value.m == ms[BiggestIndex(ms)]
      && r.value.player1 == FindPlayer(players, r.value.m.p1)
      && r.value.player2 == FindPlayer(players, r.value.m.p2)
      && r.value.totalEloChange == TotalSwing(r.value.m)
  {
    if ms == [] then None
    else
      var m := ms[BiggestIndex(ms)];
      Some(SwingCard(m, FindPlayer(players, m.p1), FindPlayer(players, m.p2), TotalSwing(m)))
  }
}
