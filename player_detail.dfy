/** components/PlayerDetail.jsx: one player's page.  Its awards are
    grouped by `"month_name year"` and the groups are shown newest year
    first and, within a year, months in calendar order; its matches are
    shown newest first, each seen from the player's side. */
module PlayerDetail {
  import opened Wrappers
  import opened Text
  import opened Domain
  import opened Sorting
  import opened Grouping
  import opened Rating
  import opened StatsCards

  /** `monthlyAwards.filter(award => award.player_id === playerId)`. */
  function PlayerAwards(awards: seq<AwardRow>, id: Id): (r: seq<AwardRow>)
    ensures |r| <= |awards|
    ensures forall a :: a in r <==> a in awards && a.playerId == Some(id)
  {
    if awards == [] then []
    else
      var rest := PlayerAwards(awards[1..], id);
      assert awards == [awards[0]] + awards[1..];
      if awards[0].playerId == Some(id) then [awards[0]] + rest else rest
  }

  /** The filter distributes over concatenation and keeps a single award
      iff it is the player's, so the player's awards keep their input order
      and multiplicity. */
  lemma {:induction false} PlayerAwardsConcat(a: seq<AwardRow>, b: seq<AwardRow>, id: Id)
    ensures PlayerAwards(a + b, id) == PlayerAwards(a, id) + PlayerAwards(b, id)
    ensures |b| == 1 ==> PlayerAwards(b, id) == if b[0].playerId == Some(id) then b else []
  {
    assert |b| == 1 ==> b[1..] == [];
    if a == [] {
      assert a + b == b;
    } else {
      assert (a + b)[1..] == a[1..] + b;
      PlayerAwardsConcat(a[1..], b, id);
    }
  }

  /** The player's matches, in the given order. */
  lemma {:induction false} InvolvingMembers(ms: seq<Match>, id: Id)
    ensures forall m :: m in Involving(ms, id) <==> m in ms && Involves(m, id)
  {
    if ms != [] {
      InvolvingMembers(ms[1..], id);
      assert ms == [ms[0]] + ms[1..];
    }
  }

  /** `playerMatches`: the matches with the player on either side, newest
      `played_at || created_at` first. */
  function PlayerMatches(ms: seq<Match>, id: Id): (r: seq<Match>)
    ensures multiset(r) == multiset(Involving(ms, id))
    ensures forall m :: m in r <==> m in ms && Involves(m, id)
    ensures forall i, j :: 0 <= i < j < |r| ==> When(r[i]).instant >= When(r[j]).instant
  {
    InvolvingMembers(ms, id);
    var r := NewestFirst(Involving(ms, id));
    assert forall m :: m in r <==> m in multiset(Involving(ms, id));
    r
  }

  /** `sort` is stable: the player's matches played at the same instant
      keep the order of the filtered list. */
  lemma PlayerMatchesStable(ms: seq<Match>, id: Id, v: real)
    ensures KeyFilter(PlayerMatches(ms, id), NewKey, v) == KeyFilter(Involving(ms, id), NewKey, v)
  {
    SortDescStable(Involving(ms, id), NewKey, v);
  }

  // ---------------------------------------------------------------------
  // Awards by month.

  /** `${award.month_name} ${award.year}`. */
  function AwardKey(a: AwardRow): string {
    a.monthName + " " + IntToString(a.year)
  }

  /** The grouping `forEach`: one group per key in first-seen order, each
      holding that key's awards in input order. */
  method AwardsByMonth(playerAwards: seq<AwardRow>) returns (keys: seq<string>, grouped: map<string, seq<AwardRow>>)
    ensures GroupsOk(playerAwards, AwardKey, keys, grouped)
  {
    keys, grouped := GroupBy(playerAwards, AwardKey);
  }

  /** Every award sits in exactly one group, the one of its own key, and
      the group sizes add up to the number of awards. */
  lemma GroupsPartition(awards: seq<AwardRow>, i: nat, k: string)
    requires i < |awards|
    ensures awards[i] in Members(awards, AwardKey, k) <==> k == AwardKey(awards[i])
    ensures SizesOver(awards, AwardKey, KeysOf(awards, AwardKey)) == |awards|
  {
    InOwnGroup(awards, AwardKey, i);
    SizesSum(awards, AwardKey);
  }

  /** The position of an English month name, 0 for a name that is not one
      (what `new Date("<name> 1, <year>")` does with such a name is not
      modelled). */
  function MonthIndexOf(name: string): (m: MonthIndex)
    ensures name in MonthNames() ==> MonthNames()[m] == name
  {
    MonthIndexFrom(name, 0)
  }

  function MonthIndexFrom(name: string, from: nat): (m: MonthIndex)
    requires from <= 12
    ensures (exists j :: from <= j < 12 && MonthNames()[j] == name) ==> MonthNames()[m] == name
    decreases 12 - from
  {
    if from == 12 then 0
    else if MonthNames()[from] == name then from
    else MonthIndexFrom(name, from + 1)
  }

  /** The comparator of the group list as a rank: a later year ranks
      higher, and within a year an earlier month ranks higher.  The key is
      split at its spaces into the month name and the year, as the source
      does; a key without a year, or with a year `parseInt` cannot read,
      counts as year 0. */
  function GroupRank(k: string): int {
    var parts := Split(k, ' ');
    var year := if |parts| >= 2 then ParseInt(parts[1]).GetOr(0) else 0;
    year * 12 + 11 - MonthIndexOf(parts[0])
  }

  function EntryRank(e: (string, seq<AwardRow>)): real {
    GroupRank(e.0) as real
  }

  /** `Object.entries(awardsByMonth).sort(...)`. */
  function SortedGroups(keys: seq<string>, grouped: map<string, seq<AwardRow>>): (r: seq<(string, seq<AwardRow>)>)
    requires forall k :: k in keys ==> k in grouped
    ensures multiset(r) == multiset(Entries(keys, grouped))
    ensures SortedDesc(r, EntryRank)
  {
    SortDesc(Entries(keys, grouped), EntryRank)
  }

  function Entries(keys: seq<string>, grouped: map<string, seq<AwardRow>>): (r: seq<(string, seq<AwardRow>)>)
    requires forall k :: k in keys ==> k in grouped
    ensures |r| == |keys| && forall i :: 0 <= i < |keys| ==> r[i] == (keys[i], grouped[keys[i]])
  {
    if keys == [] then [] else [(keys[0], grouped[keys[0]])] + Entries(keys[1..], grouped)
  }

  /** No English month name contains a space. */
  lemma MonthNamesSpaceless(name: string)
    requires name in MonthNames()
    ensures ' ' !in name
  {
  }

  /** The key of an award with an English month name splits back into
      that name and its year, and ranks by year, then by month. */
  lemma AwardKeyRank(a: AwardRow)
    requires a.monthName in MonthNames()
    ensures GroupRank(AwardKey(a)) == a.year * 12 + 11 - MonthIndexOf(a.monthName)
  {
    var parts := [a.monthName, IntToString(a.year)];
    MonthNamesSpaceless(a.monthName);
    IntToStringClean(a.year, ' ');
    assert Join(parts, ' ') == AwardKey(a);
    SplitOfJoin(parts, ' ');
    ParseIntOfIntToString(a.year);
  }

  /** In the sorted group list, a group of an earlier position is of a
      later year, or of the same year and a month no later. */
  lemma GroupOrder(e: seq<(string, seq<AwardRow>)>, i: nat, j: nat, a: AwardRow, b: AwardRow)
    requires SortedDesc(e, EntryRank)
    requires i < j < |e|
    requires e[i].0 == AwardKey(a) && e[j].0 == AwardKey(b)
    requires a.monthName in MonthNames() && b.monthName in MonthNames()
    ensures a.year > b.year || (a.year == b.year && MonthIndexOf(a.monthName) <= MonthIndexOf(b.monthName))
  {
    AwardKeyRank(a);
    AwardKeyRank(b);
    assert EntryRank(e[i]) >= EntryRank(e[j]);
  }

  // ---------------------------------------------------------------------
  // One match from the player's side, and the win rate.

  /** A row of the match history. */
  datatype MatchView = MatchView(opponent: Option<Player>, won: bool, playerScore: int, opponentScore: int, eloChange: Option<int>)

  function ViewOf(players: seq<Player>, m: Match, id: Id): MatchView {
    var isPlayer1 := m.p1 == id;
    MatchView(
      FindPlayer(players, if isPlayer1 then m.p2 else m.p1),
      m.winner == id,
      if isPlayer1 then m.s1 else m.s2,
      if isPlayer1 then m.s2 else m.s1,
      if isPlayer1 then m.c1 else m.c2)
  }

  /** The two players of a match see it as mirror images: each other as
      opponent, the scores swapped, each its own rating change, and at
      most one of them as the winner. */
  lemma MirrorViews(players: seq<Player>, m: Match)
    requires m.p1 != m.p2
    ensures var v1 := ViewOf(players, m, m.p1);
      var v2 := ViewOf(players, m, m.p2);
      && v1.opponent == FindPlayer(players, m.p2) && v2.opponent == FindPlayer(players, m.p1)
      && v1.playerScore == v2.opponentScore && v1.opponentScore == v2.playerScore
      && v1.playerScore == m.s1 && v2.playerScore == m.s2
      && v1.eloChange == m.c1 && v2.eloChange == m.c2
      && !(v1.won && v2.won)
      && (v1.won <==> m.winner == m.p1) && (v2.won <==> m.winner == m.p2)
  {
  }

  /** The win-rate tile: 0 without matches, otherwise the rounded
      percentage of matches won. */
  function WinRate(p: Player): (r: int)
    ensures p.played <= 0 ==> r == 0
    ensures 0 <= p.won <= p.played ==> 0 <= r <= 100
  {
    if p.played > 0 then Percent(p.won, p.played) else 0
  }

  /** A player who won every one of their matches shows 100, one who won
      none shows 0. */
  lemma WinRateExtremes(p: Player)
    requires p.played > 0
    ensures p.won == p.played ==> WinRate(p) == 100
    ensures p.won == 0 ==> WinRate(p) == 0
  {
    if p.won == p.played {
      assert p.won as real / p.played as real == 1.0;
    }
  }
}
