/** components/MonthlyWinners.jsx: the monthly view, its winner calculation
    for an arbitrary list of matches, and the automatic saving of the
    previous month's awards on the first day of a month. */
module MonthlyWinners {
  import opened Wrappers
  import opened Domain
  import opened Sorting
  import opened StatsFold
  import opened Rankings
  import opened Rivalry

  // ---------------------------------------------------------------------
  // Chronological order.

  /** `new Date(a) - new Date(b)` sorts ascending, that is descending on
      the negated instant. */
  function TimeKey(m: Match): real { -(When(m).instant as real) }

  /** The copy of the month's matches sorted oldest first; matches at the
      same instant keep their order. */
  function ByTime(ms: seq<Match>): (r: seq<Match>)
    ensures multiset(r) == multiset(ms)
    ensures forall i, j :: 0 <= i < j < |r| ==> When(r[i]).instant <= When(r[j]).instant
  {
    SortDesc(ms, TimeKey)
  }

  /** Matches played at the same instant are folded in their input order. */
  lemma ByTimeStable(ms: seq<Match>, t: int)
    ensures KeyFilter(ByTime(ms), TimeKey, -(t as real)) == KeyFilter(ms, TimeKey, -(t as real))
  {
    SortDescStable(ms, TimeKey, -(t as real));
  }

  // ---------------------------------------------------------------------
  // The rivalry records of the monthly view.

  /** `{ player1, player2, player1Id, player2Id, matchCount }`: the players
      are those of the first match between the pair. */
  datatype RivalryRecord = RivalryRecord(player1: Player, player2: Player, player1Id: Id, player2Id: Id, matchCount: nat)

  function CountKey(r: RivalryRecord): real { r.matchCount as real }

  /** `Object.values(rivalries)`: one record per key, in insertion order. */
  function Records(roster: map<Id, Player>, keys: seq<string>, table: map<string, Tally>): (r: seq<RivalryRecord>)
    requires forall i :: 0 <= i < |keys| ==> keys[i] in table && table[keys[i]].first.p1 in roster && table[keys[i]].first.p2 in roster
    ensures |r| == |keys|
    ensures forall i :: 0 <= i < |r| ==>
      var f := table[keys[i]].first;
      r[i] == RivalryRecord(roster[f.p1], roster[f.p2], f.p1, f.p2, table[keys[i]].count)
  {
    if keys == [] then []
    else
      var f := table[keys[0]].first;
      assert forall i :: 0 <= i < |keys| - 1 ==> keys[1..][i] == keys[i + 1];
      [RivalryRecord(roster[f.p1], roster[f.p2], f.p1, f.p2, table[keys[0]].count)]
        + Records(roster, keys[1..], table)
  }

  function SumCounts(rs: seq<RivalryRecord>): nat {
    if rs == [] then 0 else rs[0].matchCount + SumCounts(rs[1..])
  }

  /** Taking the first element off one of two equal multisets of records
      matches taking one of its copies off the other. */
  lemma RemoveMatching(a: seq<RivalryRecord>, b: seq<RivalryRecord>, i: nat)
    requires multiset(a) == multiset(b) && a != [] && i < |b| && b[i] == a[0]
    ensures multiset(a[1..]) == multiset(b[..i] + b[i + 1..])
  {
    assert b == b[..i] + [b[i]] + b[i + 1..];
    assert multiset(b) == multiset(b[..i]) + multiset{b[i]} + multiset(b[i + 1..]);
    assert a == [a[0]] + a[1..];
    assert multiset(a) == multiset{a[0]} + multiset(a[1..]);
    assert multiset(b[..i] + b[i + 1..]) == multiset(b[..i]) + multiset(b[i + 1..]);
    assert multiset(a[1..]) == multiset(a) - multiset{a[0]};
  }

  /** The total is one record's count plus the total of the others. */
  lemma {:induction false} SumCountsRemove(b: seq<RivalryRecord>, i: nat)
    requires i < |b|
    ensures SumCounts(b) == b[i].matchCount + SumCounts(b[..i] + b[i + 1..])
  {
    if i == 0 {
      assert b[..0] + b[1..] == b[1..];
    } else {
      var t := b[1..];
      SumCountsRemove(t, i - 1);
      var rest := b[..i] + b[i + 1..];
      assert rest == [b[0]] + (t[..i - 1] + t[i..]);
      assert rest[1..] == t[..i - 1] + t[i..];
    }
  }

  /** Reordering the records keeps the total. */
  lemma {:induction false} SumCountsPerm(a: seq<RivalryRecord>, b: seq<RivalryRecord>)
    requires multiset(a) == multiset(b)
    ensures SumCounts(a) == SumCounts(b)
    decreases |a|
  {
    if a != [] {
      assert a[0] in multiset(b);
      var i :| 0 <= i < |b| && b[i] == a[0];
      RemoveMatching(a, b, i);
      SumCountsPerm(a[1..], b[..i] + b[i + 1..]);
      SumCountsRemove(b, i);
    } else {
      assert |multiset(b)| == 0;
    }
  }

  /** The records' counts are the key counts of `ms`, so they add up to the
      number of matches tallied. */
  lemma {:induction false} RecordsSum(roster: map<Id, Player>, ms: seq<Match>, keys: seq<string>, table: map<string, Tally>)
    requires forall i :: 0 <= i < |keys| ==>
      keys[i] in table && table[keys[i]].first.p1 in roster && table[keys[i]].first.p2 in roster && table[keys[i]].count == KeyCount(ms, keys[i])
    ensures SumCounts(Records(roster, keys, table)) == CountsOver(ms, keys)
  {
    if keys != [] {
      assert forall i :: 0 <= i < |keys| - 1 ==> keys[1..][i] == keys[i + 1];
      RecordsSum(roster, ms, keys[1..], table);
    }
  }

  lemma RecordFacts(roster: map<Id, Player>, ps: seq<Match>, keys: seq<string>, table: map<string, Tally>,
                    recs: seq<RivalryRecord>, top: seq<RivalryRecord>, r: RivalryRecord)
    requires keys == KeyOrder(ps)
    requires forall k :: k in table ==> table[k].count == KeyCount(ps, k) && FirstWith(ps, k, table[k].first)
    requires forall i :: 0 <= i < |keys| ==> keys[i] in table && table[keys[i]].first.p1 in roster && table[keys[i]].first.p2 in roster
    requires recs == Records(roster, keys, table) && multiset(top) == multiset(recs) && r in top
    ensures r.matchCount == KeyCount(ps, PairKey(r.player1Id, r.player2Id)) && r.matchCount > 0
    ensures r.player1Id in roster && r.player2Id in roster
    ensures r.player1 == roster[r.player1Id] && r.player2 == roster[r.player2Id]
  {
    assert r in multiset(top);
    assert r in recs;
    var i :| 0 <= i < |recs| && recs[i] == r;
    var k := keys[i];
    var f := table[k].first;
    var n :| 0 <= n < |ps| && ps[n] == f && KeyOf(f) == k && forall j :: 0 <= j < n ==> KeyOf(ps[j]) != k;
    KeyCountPositive(ps, k);
  }

  /** The record the counter holds for pair key `k`: the players and ids of
      the first match of `ps` with that key, in that match's orientation,
      and the number of matches of `ps` with the key. */
  function RivalryOf(roster: map<Id, Player>, ps: seq<Match>, k: string): RivalryRecord
    requires forall m :: m in ps ==> Known(roster, m)
    requires k in KeyOrder(ps)
  {
    FirstOfMeaning(ps, k);
    var f := FirstOf(ps, k).value;
    assert f in ps by {
      var n :| 0 <= n < |ps| && ps[n] == f && KeyOf(f) == k && forall j :: 0 <= j < n ==> KeyOf(ps[j]) != k;
    }
    assert Known(roster, f);
    RivalryRecord(roster[f.p1], roster[f.p2], f.p1, f.p2, KeyCount(ps, k))
  }

  /** `Object.values(rivalries)` after tallying `ps`, read off the matches
      themselves: one record per pair key, keys in first-seen order. */
  function RivalryRecords(roster: map<Id, Player>, ps: seq<Match>): (r: seq<RivalryRecord>)
    requires forall m :: m in ps ==> Known(roster, m)
    ensures |r| == |KeyOrder(ps)|
  {
    var keys := KeyOrder(ps);
    seq(|keys|, i requires 0 <= i < |keys| => RivalryOf(roster, ps, keys[i]))
  }

  /** The i-th record is the pair of the i-th key: it counts that key's
      matches (at least one), takes its players from the first of them in
      that match's orientation, and so no pair has two records and every
      pair that met has one. */
  lemma RivalryRecordsMeaning(roster: map<Id, Player>, ps: seq<Match>, i: nat)
    requires forall m :: m in ps ==> Known(roster, m)
    requires i < |KeyOrder(ps)|
    ensures var k := KeyOrder(ps)[i];
      var r := RivalryRecords(roster, ps)[i];
      && PairKey(r.player1Id, r.player2Id) == k
      && r.matchCount == KeyCount(ps, k) > 0
      && exists n ::
           && 0 <= n < |ps| && KeyOf(ps[n]) == k
           && (forall j :: 0 <= j < n ==> KeyOf(ps[j]) != k)
           && Known(roster, ps[n])
           && r == RivalryRecord(roster[ps[n].p1], roster[ps[n].p2], ps[n].p1, ps[n].p2, KeyCount(ps, k))
  {
    var k := KeyOrder(ps)[i];
    FirstOfMeaning(ps, k);
    KeyCountPositive(ps, k);
  }

  /** The counter the loop builds holds exactly those records. */
  lemma RecordsAgree(roster: map<Id, Player>, ps: seq<Match>, keys: seq<string>, table: map<string, Tally>)
    requires forall m :: m in ps ==> Known(roster, m)
    requires keys == KeyOrder(ps)
    requires forall k :: k in table ==> table[k].count == KeyCount(ps, k) && FirstWith(ps, k, table[k].first)
    requires forall i :: 0 <= i < |keys| ==> keys[i] in table && table[keys[i]].first.p1 in roster && table[keys[i]].first.p2 in roster
    ensures Records(roster, keys, table) == RivalryRecords(roster, ps)
  {
    var a := Records(roster, keys, table);
    var b := RivalryRecords(roster, ps);
    forall i | 0 <= i < |keys| ensures a[i] == b[i] {
      var k := keys[i];
      FirstOfMeaning(ps, k);
      FirstWithUnique(ps, k, table[k].first, FirstOf(ps, k).value);
    }
  }

  /** The headline rivalry, `topRivalries[0]`: `sort` is stable, so it is
      the earliest-keyed pair with the greatest count. */
  lemma TopRivalryHead(roster: map<Id, Player>, ps: seq<Match>)
    requires forall m :: m in ps ==> Known(roster, m)
    ensures ps != [] ==>
      var recs := RivalryRecords(roster, ps);
      |recs| > 0 && SortDesc(recs, CountKey)[0] == recs[FirstMaxIndex(recs, CountKey)]
  {
    if ps != [] {
      assert KeyOf(ps[0]) in KeyOrder(ps);
      SortDescHead(RivalryRecords(roster, ps), CountKey);
    }
  }

  /** The monthly view's rivalry tally over the processed matches, sorted by
      count; the greatest count comes first. */
  method TopRivalries(roster: map<Id, Player>, ps: seq<Match>) returns (top: seq<RivalryRecord>)
    requires forall m :: m in ps ==> Known(roster, m)
    ensures top == SortDesc(RivalryRecords(roster, ps), CountKey)
    ensures SortedDesc(top, CountKey)
    ensures |top| == |KeyOrder(ps)|
    ensures SumCounts(top) == |ps|
    ensures forall r :: r in top ==>
      r.matchCount == KeyCount(ps, PairKey(r.player1Id, r.player2Id)) && r.matchCount > 0
      && r.player1Id in roster && r.player2Id in roster
      && r.player1 == roster[r.player1Id] && r.player2 == roster[r.player2Id]
  {
    var keys, table := CountRivalries(ps);
    forall i | 0 <= i < |keys| ensures keys[i] in table && table[keys[i]].first.p1 in roster && table[keys[i]].first.p2 in roster {
      var k := keys[i];
      var n :| 0 <= n < |ps| && ps[n] == table[k].first && KeyOf(table[k].first) == k
        && forall j :: 0 <= j < n ==> KeyOf(ps[j]) != k;
      assert ps[n] in ps;
    }
    var recs := Records(roster, keys, table);
    RecordsAgree(roster, ps, keys, table);
    top := SortDesc(recs, CountKey);
    RecordsSum(roster, ps, keys, table);
    CountsSum(ps);
    SumCountsPerm(top, recs);
    forall r | r in top ensures
      r.matchCount == KeyCount(ps, PairKey(r.player1Id, r.player2Id)) && r.matchCount > 0
      && r.player1Id in roster && r.player2Id in roster
      && r.player1 == roster[r.player1Id] && r.player2 == roster[r.player2Id]
    {
      RecordFacts(roster, ps, keys, table, recs, top, r);
    }
  }

  // ---------------------------------------------------------------------
  // The winner calculations.

  datatype MonthResult = MonthResult(rankings: Rankings, topRivalries: seq<RivalryRecord>, stats: map<Id, Stats>)

  /** `calculateMonthlyWinners`: `null` for a month without matches;
      otherwise the month's matches are folded oldest first and ranked,
      and the pairs that met are tallied. */
  method CalculateMonthlyWinners(players: seq<Player>, matches: seq<Match>, month: int, year: int)
    returns (r: Option<MonthResult>)
    ensures r.None? <==> FilterMonth(matches, month, year) == []
    ensures r.Some? ==>
      var sorted := ByTime(FilterMonth(matches, month, year));
      var ps := Processed(Roster(players), sorted);
      && Describes(r.value.stats, Roster(players), sorted)
      && r.value.rankings == Rank(r.value.stats, players)
      && SortedDesc(r.value.topRivalries, CountKey)
      && |r.value.topRivalries| == |KeyOrder(ps)|
      && SumCounts(r.value.topRivalries) == |ps|
      && r.value.topRivalries == SortDesc(RivalryRecords(Roster(players), ps), CountKey)
      && (forall rv :: rv in r.value.topRivalries ==>
            rv.matchCount == KeyCount(ps, PairKey(rv.player1Id, rv.player2Id)))
  {
    var monthly := FilterMonth(matches, month, year);
    if |monthly| == 0 {
      return None;
    }
    var sorted := ByTime(monthly);
    var st := FoldMonth(players, sorted);
    var roster := Roster(players);
    var ps := Processed(roster, sorted);
    var top := TopRivalries(roster, ps);
    r := Some(MonthResult(Rank(st, players), top, st));
  }

  /** `calculateWinnersForMatches`: `null` for an empty list; otherwise the
      same fold and ranking over exactly the given matches. */
  method CalculateWinnersForMatches(players: seq<Player>, ms: seq<Match>) returns (r: Option<Rankings>)
    ensures r.None? <==> ms == []
    ensures r.Some? ==> exists st :: Describes(st, Roster(players), ByTime(ms)) && r.value == Rank(st, players)
    ensures r.Some? ==> multiset(r.value.highestElo) == multiset(players)
    ensures r.Some? ==> r.value == WinnersOf(players, ms)
  {
    if |ms| == 0 {
      return None;
    }
    var st := FoldMonth(players, ByTime(ms));
    DescribesUnique(st, players, ByTime(ms));
    r := Some(Rank(st, players));
  }

  /** The rankings of `players` after folding `ms` oldest first: what
      `calculateWinnersForMatches` returns for a non-empty list. */
  function WinnersOf(players: seq<Player>, ms: seq<Match>): (w: Rankings)
    ensures multiset(w.highestElo) == multiset(players)
  {
    var st := Folded(players, ByTime(ms));
    assert forall y :: y in IdOrder(players) ==> y in st;
    Rank(st, players)
  }

  // ---------------------------------------------------------------------
  // Award rows.

  /** A category with its winner, if its list is non-empty: the winner's id
      is `winner.player?.id || winner.id`, `None` standing for `undefined`. */
  datatype Category = Category(key: string, winner: Option<Option<Id>>)

  /** A statistics record: `player.id`, or `undefined` when that is `''`. */
  function StatsWinner(l: seq<Stats>): (w: Option<Option<Id>>)
    ensures w.None? <==> l == []
    ensures w.Some? ==> w.value == (if l[0].player.id == "" then None else Some(l[0].player.id))
  {
    if l == [] then None else Some(if l[0].player.id == "" then None else Some(l[0].player.id))
  }

  /** A bare player record has no `.player`, so its own `id` is used. */
  function PlayerWinner(l: seq<Player>): (w: Option<Option<Id>>)
    ensures w.None? <==> l == []
    ensures w.Some? ==> w.value == Some(l[0].id)
  {
    if l == [] then None else Some(Some(l[0].id))
  }

  /** The nine categories saved, in order, under their stored names. */
  function Categories(w: Rankings): (cs: seq<Category>)
    ensures |cs| == 9
  {
    [Category("mostPoints", StatsWinner(w.mostPoints)),
     Category("highestElo", PlayerWinner(w.highestElo)),
     Category("winningStreak", StatsWinner(w.winningStreak)),
     Category("giantKiller", StatsWinner(w.giantKiller)),
     Category("socialButterfly", StatsWinner(w.socialButterfly)),
     Category("bestDefense", StatsWinner(w.leastPointsAgainst)),
     Category("highestMatch", StatsWinner(w.mostPointsInMatch)),
     Category("eloSwing", StatsWinner(w.biggestEloSwing)),
     Category("biggestLoser", StatsWinner(w.biggestLoser))]
  }

  /** The stored names of the nine categories. */
  function CategoryNames(): seq<string> {
    ["mostPoints", "highestElo", "winningStreak", "giantKiller", "socialButterfly",
     "bestDefense", "highestMatch", "eloSwing", "biggestLoser"]
  }

  lemma CategoriesNamed(w: Rankings)
    ensures forall c :: c in Categories(w) ==> c.key in CategoryNames()
  {
  }

  /** No two categories share a name. */
  lemma CategoryKeysDistinct(w: Rankings)
    ensures forall i, j :: 0 <= i < j < 9 ==> Categories(w)[i].key != Categories(w)[j].key
  {
    var cs := Categories(w);
    forall i, j | 0 <= i < j < 9 ensures cs[i].key != cs[j].key {
      assert cs[i].key[..2] != cs[j].key[..2] || cs[i].key[7..] != cs[j].key[7..];
    }
  }

  /** The categories that have a winner, in order. */
  function Won(cs: seq<Category>): (r: seq<Category>)
    ensures |r| <= |cs|
    ensures forall c :: c in r <==> c in cs && c.winner.Some?
  {
    if cs == [] then []
    else if cs[0].winner.Some? then [cs[0]] + Won(cs[1..])
    else Won(cs[1..])
  }

  /** `rows` are the rows of the categories `ws`, one each, in order. */
  predicate RowsOf(rows: seq<AwardRow>, ws: seq<Category>, month: int, year: int, monthName: string)
    requires forall c :: c in ws ==> c.winner.Some?
  {
    |rows| == |ws| && forall j :: 0 <= j < |rows| ==> rows[j] == AwardRow(ws[j].winner.value, ws[j].key, month, year, monthName)
  }

  lemma RowsOfAppend(rows: seq<AwardRow>, ws: seq<Category>, c: Category, month: int, year: int, monthName: string)
    requires forall d :: d in ws ==> d.winner.Some?
    requires RowsOf(rows, ws, month, year, monthName) && c.winner.Some?
    ensures forall d :: d in ws + [c] ==> d.winner.Some?
    ensures RowsOf(rows + [AwardRow(c.winner.value, c.key, month, year, monthName)], ws + [c], month, year, monthName)
  {
  }

  /** The rows `saveMonthAwards` posts for `ms`: none when there are no
      matches, otherwise one per category of `WinnersOf` with a winner, in
      category order. */
  function AwardRows(players: seq<Player>, month: int, year: int, ms: seq<Match>): (rows: seq<AwardRow>)
    ensures ms == [] ==> rows == []
    ensures ms != [] ==> RowsOf(rows, Won(Categories(WinnersOf(players, ms))), month, year, MonthName(month))
  {
    if ms == [] then [] else RowsFrom(Won(Categories(WinnersOf(players, ms))), month, year, MonthName(month))
  }

  /** The rows of the categories `ws`, one each, in order. */
  function RowsFrom(ws: seq<Category>, month: int, year: int, monthName: string): (rows: seq<AwardRow>)
    requires forall c :: c in ws ==> c.winner.Some?
    ensures RowsOf(rows, ws, month, year, monthName)
  {
    seq(|ws|, j requires 0 <= j < |ws| => AwardRow(ws[j].winner.value, ws[j].key, month, year, monthName))
  }

  /** Two row lists of the same categories are the same list. */
  lemma RowsOfUnique(a: seq<AwardRow>, b: seq<AwardRow>, ws: seq<Category>, month: int, year: int, monthName: string)
    requires forall c :: c in ws ==> c.winner.Some?
    requires RowsOf(a, ws, month, year, monthName) && RowsOf(b, ws, month, year, monthName)
    ensures a == b
  {
  }

  /** `awardsCategories.forEach(... if (winner) awards.push(...))`: one row
      per category with a winner, in category order. */
  method BuildRows(cs: seq<Category>, month: int, year: int, monthName: string) returns (rows: seq<AwardRow>)
    ensures |rows| == |Won(cs)|
    ensures forall i :: 0 <= i < |rows| ==>
      rows[i] == AwardRow(Won(cs)[i].winner.value, Won(cs)[i].key, month, year, monthName)
  {
    rows := [];
    var i := 0;
    while i < |cs|
      invariant 0 <= i <= |cs|
      invariant RowsOf(rows, Won(cs[..i]), month, year, monthName)
    {
      WonSplit(cs, i);
      if cs[i].winner.Some? {
        RowsOfAppend(rows, Won(cs[..i]), cs[i], month, year, monthName);
        rows := rows + [AwardRow(cs[i].winner.value, cs[i].key, month, year, monthName)];
      }
      i := i + 1;
    }
    assert cs[..i] == cs;
  }

  /** What each row says, read without indices. */
  lemma RowsFacts(cs: seq<Category>, month: int, year: int, monthName: string, rows: seq<AwardRow>)
    requires |rows| == |Won(cs)|
    requires forall i :: 0 <= i < |rows| ==>
      rows[i] == AwardRow(Won(cs)[i].winner.value, Won(cs)[i].key, month, year, monthName)
    ensures forall r :: r in rows ==> r.month == month && r.year == year && r.monthName == monthName
    ensures (forall i, j :: 0 <= i < j < |cs| ==> cs[i].key != cs[j].key) ==>
      forall i, j :: 0 <= i < j < |rows| ==> rows[i].category != rows[j].category
    ensures forall c :: c in cs && c.winner.Some? ==> exists r :: r in rows && r.category == c.key
    ensures forall r :: r in rows ==> exists c :: c in cs && r.category == c.key
  {
    forall r | r in rows ensures exists c :: c in cs && r.category == c.key {
      var k :| 0 <= k < |rows| && rows[k] == r;
      assert Won(cs)[k] in Won(cs);
    }
    if forall i, j :: 0 <= i < j < |cs| ==> cs[i].key != cs[j].key {
      WonDistinct(cs);
    }
    forall c | c in cs && c.winner.Some? ensures exists r :: r in rows && r.category == c.key {
      assert c in Won(cs);
      var k :| 0 <= k < |Won(cs)| && Won(cs)[k] == c;
      assert rows[k] in rows;
    }
  }

  lemma {:induction false} WonConcat(a: seq<Category>, b: seq<Category>)
    ensures Won(a + b) == Won(a) + Won(b)
  {
    if a == [] {
      assert a + b == b;
    } else {
      assert (a + b)[1..] == a[1..] + b;
      WonConcat(a[1..], b);
    }
  }

  lemma WonSplit(cs: seq<Category>, i: nat)
    requires i < |cs|
    ensures Won(cs[..i + 1]) == Won(cs[..i]) + (if cs[i].winner.Some? then [cs[i]] else [])
  {
    assert cs[..i + 1] == cs[..i] + [cs[i]];
    WonConcat(cs[..i], [cs[i]]);
    assert [cs[i]][1..] == [];
  }

  /** `saveMonthAwards` up to the request: no rows when there are no
      matches, otherwise at most nine rows, one per category with a winner,
      carrying the 0-based month. */
  method SaveMonthAwards(players: seq<Player>, month: int, year: int, matchesForMonth: seq<Match>)
    returns (rows: seq<AwardRow>)
    ensures matchesForMonth == [] ==> rows == []
    ensures |rows| <= 9
    ensures forall r :: r in rows ==> r.month == month && r.year == year && r.monthName == MonthName(month)
    ensures forall i, j :: 0 <= i < j < |rows| ==> rows[i].category != rows[j].category
    ensures forall r :: r in rows ==> r.category in CategoryNames()
    ensures matchesForMonth != [] && players != [] ==> exists r :: r in rows && r.category == "highestElo"
    ensures rows == AwardRows(players, month, year, matchesForMonth)
  {
    var winners := CalculateWinnersForMatches(players, matchesForMonth);
    if winners.None? {
      return [];
    }
    var cs := Categories(winners.value);
    rows := BuildRows(cs, month, year, MonthName(month));
    SavedRows(winners.value, players, cs, month, year, rows);
    RowsOfUnique(rows, AwardRows(players, month, year, matchesForMonth), Won(cs), month, year, MonthName(month));
  }

  /** The rows of the categories of rankings over `players`. */
  lemma SavedRows(w: Rankings, players: seq<Player>, cs: seq<Category>, month: int, year: int, rows: seq<AwardRow>)
    requires multiset(w.highestElo) == multiset(players) && cs == Categories(w)
    requires |rows| == |Won(cs)|
    requires forall i :: 0 <= i < |rows| ==>
      rows[i] == AwardRow(Won(cs)[i].winner.value, Won(cs)[i].key, month, year, MonthName(month))
    ensures |rows| <= 9
    ensures forall r :: r in rows ==> r.month == month && r.year == year && r.monthName == MonthName(month)
    ensures forall i, j :: 0 <= i < j < |rows| ==> rows[i].category != rows[j].category
    ensures forall r :: r in rows ==> r.category in CategoryNames()
    ensures players != [] ==> exists r :: r in rows && r.category == "highestElo"
  {
    RowsFacts(cs, month, year, MonthName(month), rows);
    CategoryKeysDistinct(w);
    CategoriesNamed(w);
    if players != [] {
      assert |multiset(w.highestElo)| == |w.highestElo|;
      assert |multiset(players)| == |players|;
      assert cs[1] in cs;
    }
  }

  /** The nine category names are distinct, so no two rows share one. */
  lemma WonDistinct(cs: seq<Category>)
    requires forall i, j :: 0 <= i < j < |cs| ==> cs[i].key != cs[j].key
    ensures forall i, j :: 0 <= i < j < |Won(cs)| ==> Won(cs)[i].key != Won(cs)[j].key
  {
    if cs != [] {
      WonDistinct(cs[1..]);
      assert forall c :: c in Won(cs[1..]) ==> c in cs[1..];
    }
  }

  // ---------------------------------------------------------------------
  // The automatic save.

  /** The previous calendar month: December of the year before for January. */
  function PrevMonth(month: MonthIndex, year: int): (r: (MonthIndex, int))
  {
    if month == 0 then (11, year - 1) else (month - 1, year)
  }

  function NextMonth(month: MonthIndex, year: int): (r: (MonthIndex, int))
  {
    if month == 11 then (0, year + 1) else (month + 1, year)
  }

  /** Going one month back and one month forward returns to the start, in
      both orders. */
  lemma PrevNext(month: MonthIndex, year: int)
    ensures NextMonth(PrevMonth(month, year).0, PrevMonth(month, year).1) == (month, year)
    ensures PrevMonth(NextMonth(month, year).0, NextMonth(month, year).1) == (month, year)
  {
  }

  /** The `lastSavedMonth` marker. */
  datatype Marker = Marker(month: int, year: int)

  /** `isNewMonth && now.getDate() === 1 && monthlyMatches.length > 0`. */
  predicate ShouldSave(marker: Option<Marker>, nowMonth: MonthIndex, nowYear: int, nowDay: int, selectedCount: nat) {
    var isNewMonth := marker.None? || marker.value.month != nowMonth || marker.value.year != nowYear;
    isNewMonth && nowDay == 1 && selectedCount > 0
  }

  /** The effect: guarded by `!isLoading && hasLoadedOnce && matches.length > 0`,
      it saves the previous month's rows and moves the marker to the current
      month, provided that month has matches.  `selectedCount` is the
      number of matches of the month on screen. */
  method CheckAndSaveAwards(players: seq<Player>, matches: seq<Match>, isLoading: bool, hasLoadedOnce: bool,
                            selectedCount: nat, marker: Option<Marker>,
                            nowMonth: MonthIndex, nowYear: int, nowDay: int)
    returns (rows: seq<AwardRow>, saved: bool, newMarker: Option<Marker>)
    ensures var (pm, py) := PrevMonth(nowMonth, nowYear);
      saved <==> !isLoading && hasLoadedOnce && matches != []
                 && ShouldSave(marker, nowMonth, nowYear, nowDay, selectedCount)
                 && FilterMonth(matches, pm, py) != []
    ensures saved ==> newMarker == Some(Marker(nowMonth, nowYear))
    ensures !saved ==> newMarker == marker && rows == []
    ensures |rows| <= 9
    ensures var (pm, py) := PrevMonth(nowMonth, nowYear);
      forall r :: r in rows ==> r.month == pm && r.year == py
    ensures var (pm, py) := PrevMonth(nowMonth, nowYear);
      saved ==> rows == AwardRows(players, pm, py, FilterMonth(matches, pm, py))
  {
    rows, saved, newMarker := [], false, marker;
    if !isLoading && hasLoadedOnce && |matches| > 0 {
      if ShouldSave(marker, nowMonth, nowYear, nowDay, selectedCount) {
        var (pm, py) := PrevMonth(nowMonth, nowYear);
        var prevMatches := FilterMonth(matches, pm, py);
        if |prevMatches| > 0 {
          rows := SaveMonthAwards(players, pm, py, prevMatches);
          assert rows == AwardRows(players, pm, py, prevMatches);
          saved, newMarker := true, Some(Marker(nowMonth, nowYear));
        }
      }
    }
  }
}
