/** scripts/generate-awards-csv.js: the one-off script that writes the
    award rows of August and September 2025 as CSV text.  Its fold is the
    same loop body as the monthly view's (a `null` rating change read as
    `|| 0`), its result holds the first element of each ranked list, and a
    line is written only for a winner that is a statistics record. */
module GenerateAwardsCsv {
  import opened Wrappers
  import opened Text
  import opened Domain
  import opened StatsFold
  import opened Rankings
  import opened MonthlyWinners
  import ExportAwards

  /** The result object's entries in `Object.entries` order, each with the
      id a line would carry.  `highestElo` holds a bare player record,
      which has no `.player`, so it never has a line: it is `None` here
      whatever the players are. */
  function ResultCategories(w: Rankings): (cs: seq<Category>)
    ensures |cs| == 9
  {
    [Category("mostPoints", StatsWinner(w.mostPoints)),
     Category("highestElo", None),
     Category("leastPointsAgainst", StatsWinner(w.leastPointsAgainst)),
     Category("mostPointsInMatch", StatsWinner(w.mostPointsInMatch)),
     Category("biggestEloSwing", StatsWinner(w.biggestEloSwing)),
     Category("biggestLoser", StatsWinner(w.biggestLoser)),
     Category("winningStreak", StatsWinner(w.winningStreak)),
     Category("giantKiller", StatsWinner(w.giantKiller)),
     Category("socialButterfly", StatsWinner(w.socialButterfly))]
  }

  /** The result keys that can name a line. */
  function LineCategories(): seq<string> {
    ["mostPoints", "leastPointsAgainst", "mostPointsInMatch", "biggestEloSwing",
     "biggestLoser", "winningStreak", "giantKiller", "socialButterfly"]
  }

  /** The categories with a line are the eight result keys other than
      `highestElo`, and no two entries share a key. */
  lemma ResultCategoriesFacts(w: Rankings)
    ensures forall c :: c in ResultCategories(w) && c.winner.Some? ==> c.key in LineCategories()
    ensures forall i, j :: 0 <= i < j < 9 ==> ResultCategories(w)[i].key != ResultCategories(w)[j].key
  {
    var cs := ResultCategories(w);
    forall i, j | 0 <= i < j < 9 ensures cs[i].key != cs[j].key {
      assert cs[i].key[..3] != cs[j].key[..3] || cs[i].key[7..] != cs[j].key[7..];
    }
  }

  /** `highestElo` is not among the keys that name a line. */
  lemma NoHighestEloLine()
    ensures "highestElo" !in LineCategories()
  {
    var ks := LineCategories();
    forall i | 0 <= i < |ks| ensures ks[i] != "highestElo" {
      assert ks[i][0] != 'h';
    }
  }

  /** Every entry but `highestElo` has a winner exactly when some player
      has a processed match. */
  lemma WinnersExist(w: Rankings, st: map<Id, Stats>, players: seq<Player>)
    requires forall y :: y in IdOrder(players) ==> y in st
    requires w == Rank(st, players)
    ensures forall i :: 0 <= i < 9 && i != 1 ==>
      (ResultCategories(w)[i].winner.Some? <==> WithStats(st, IdOrder(players)) != [])
  {
    var ws := WithStats(st, IdOrder(players));
    assert |w.mostPoints| == |ws| by { assert multiset(w.mostPoints) == multiset(ws); }
    assert |w.leastPointsAgainst| == |ws| by { assert multiset(w.leastPointsAgainst) == multiset(ws); }
    assert |w.mostPointsInMatch| == |ws| by { assert multiset(w.mostPointsInMatch) == multiset(ws); }
    assert |w.biggestEloSwing| == |ws| by { assert multiset(w.biggestEloSwing) == multiset(ws); }
    assert |w.biggestLoser| == |ws| by { assert multiset(w.biggestLoser) == multiset(ws); }
    assert |w.winningStreak| == |ws| by { assert multiset(w.winningStreak) == multiset(ws); }
    assert |w.giantKiller| == |ws| by { assert multiset(w.giantKiller) == multiset(ws); }
    assert |w.socialButterfly| == |ws| by { assert multiset(w.socialButterfly) == multiset(ws); }
  }

  /** `calculateMonthlyWinners(matches, players, month, year)`: every
      player starts a record, the matches are folded oldest first (the
      month and year arguments are not used), and each entry is the head
      of its ranked list. */
  method CalculateMonthlyWinners(matches: seq<Match>, players: seq<Player>)
    returns (st: map<Id, Stats>, cs: seq<Category>)
    ensures Describes(st, Roster(players), ByTime(matches))
    ensures cs == ResultCategories(Rank(st, players))
  {
    st := FoldMonth(players, ByTime(matches));
    cs := ResultCategories(Rank(st, players));
  }

  /** The lines the script writes for month `month` of 2025: none when it
      has no matches, otherwise those of the rankings of its matches. */
  function ScriptLines(players: seq<Player>, matches: seq<Match>, month: MonthIndex, name: string): (rows: seq<AwardRow>)
    ensures FilterMonth(matches, month, 2025) == [] ==> rows == []
    ensures |rows| <= 8
  {
    var ms := FilterMonth(matches, month, 2025);
    if ms == [] then []
    else
      ScriptRowsFacts(WinnersOf(players, ms), month, name);
      ScriptRows(ResultCategories(WinnersOf(players, ms)), month, name)
  }

  /** The lines of one month: none when it has no matches, otherwise one
      per entry whose winner is a statistics record, in entry order. */
  method MonthLines(players: seq<Player>, matches: seq<Match>, month: MonthIndex, name: string)
    returns (rows: seq<AwardRow>)
    ensures FilterMonth(matches, month, 2025) == [] ==> rows == []
    ensures FilterMonth(matches, month, 2025) != [] ==>
      exists st :: Describes(st, Roster(players), ByTime(FilterMonth(matches, month, 2025)))
        && rows == ScriptRows(ResultCategories(Rank(st, players)), month, name)
    ensures |rows| <= 8
    ensures forall r :: r in rows ==> r.month == month && r.year == 2025 && r.monthName == name
    ensures forall r :: r in rows ==> r.category in LineCategories()
    ensures forall i, j :: 0 <= i < j < |rows| ==> rows[i].category != rows[j].category
    ensures rows == ScriptLines(players, matches, month, name)
  {
    var monthMatches := FilterMonth(matches, month, 2025);
    if |monthMatches| == 0 {
      return [];
    }
    var st, cs := CalculateMonthlyWinners(monthMatches, players);
    DescribesUnique(st, players, ByTime(monthMatches));
    rows := BuildRows(cs, month, 2025, name);
    ScriptRowsShape(cs, month, name);
    assert rows == ScriptRows(cs, month, name);
    ScriptRowsFacts(Rank(st, players), month, name);
  }

  /** The lines the script writes for the entries `cs`. */
  function ScriptRows(cs: seq<Category>, month: int, name: string): (rows: seq<AwardRow>)
    ensures |rows| == |Won(cs)|
  {
    if cs == [] then []
    else if cs[0].winner.Some? then [AwardRow(cs[0].winner.value, cs[0].key, month, 2025, name)] + ScriptRows(cs[1..], month, name)
    else ScriptRows(cs[1..], month, name)
  }

  /** At most eight lines a month, none for `highestElo`, no category
      twice. */
  lemma ScriptRowsFacts(w: Rankings, month: int, name: string)
    ensures var rows := ScriptRows(ResultCategories(w), month, name);
      && |rows| <= 8
      && (forall r :: r in rows ==> r.month == month && r.year == 2025 && r.monthName == name)
      && (forall r :: r in rows ==> r.category in LineCategories())
      && (forall i, j :: 0 <= i < j < |rows| ==> rows[i].category != rows[j].category)
  {
    var cs := ResultCategories(w);
    var rows := ScriptRows(cs, month, name);
    ResultCategoriesFacts(w);
    ScriptRowsShape(cs, month, name);
    WonDistinct(cs);
    assert cs[1] !in Won(cs);
    WonAtMostEight(cs);
  }

  lemma WonAtMostEight(cs: seq<Category>)
    requires |cs| == 9 && cs[1].winner.None?
    ensures |Won(cs)| <= 8
  {
    assert cs == cs[..1] + [cs[1]] + cs[2..];
    WonConcat(cs[..1] + [cs[1]], cs[2..]);
    WonConcat(cs[..1], [cs[1]]);
  }

  /** Row `i` is the `i`-th category with a winner. */
  lemma {:induction false} ScriptRowsShape(cs: seq<Category>, month: int, name: string)
    ensures forall i :: 0 <= i < |ScriptRows(cs, month, name)| ==>
      ScriptRows(cs, month, name)[i] == AwardRow(Won(cs)[i].winner.value, Won(cs)[i].key, month, 2025, name)
  {
    if cs != [] {
      ScriptRowsShape(cs[1..], month, name);
    }
  }

  /** `generateAwardsCSV`: `null` when either data list is empty; otherwise
      the header, then the August 2025 lines (month 7), then the
      September 2025 lines (month 8), joined by line breaks. */
  method GenerateAwardsCsv(players: seq<Player>, matches: seq<Match>) returns (csv: Option<string>, rows: seq<AwardRow>)
    ensures csv.None? <==> players == [] || matches == []
    ensures csv.None? ==> rows == []
    ensures csv.Some? ==> csv.value == Join([ExportAwards.Header] + ExportAwards.Lines(rows), '\n')
    ensures |rows| <= 16
    ensures forall r :: r in rows ==> r.year == 2025 && r.category in LineCategories()
    ensures forall r :: r in rows ==>
      (r.month == 7 && r.monthName == "August" && FilterMonth(matches, 7, 2025) != [])
      || (r.month == 8 && r.monthName == "September" && FilterMonth(matches, 8, 2025) != [])
    ensures csv.Some? ==> rows == ScriptLines(players, matches, 7, "August") + ScriptLines(players, matches, 8, "September")
  {
    if |players| == 0 || |matches| == 0 {
      return None, [];
    }
    var august := MonthLines(players, matches, 7, "August");
    var september := MonthLines(players, matches, 8, "September");
    rows := august + september;
    csv := Some(Join([ExportAwards.Header] + ExportAwards.Lines(rows), '\n'));
  }
}
