/** scripts/backfill-awards.js: the winner calculation of the backfill
    script and the award rows it builds for August and September 2025.

    Its fold differs from the one of the monthly view: every match whose
    winner is not the first player counts as a win of the second player,
    each record also lists its matches and counts its wins, and the maxima
    are taken afterwards over the recorded matches.  As in the monthly
    view, a match naming the same player on both sides updates one record
    twice, in statement order. */
module BackfillAwards {
  import opened Wrappers
  import opened Domain
  import opened Sorting
  import S = StatsFold
  import opened Rivalry
  import opened MonthlyWinners

  datatype PlayerRecord = PlayerRecord(
    player: Player,
    totalPoints: int,
    matches: seq<Match>,
    wins: int,
    losses: int,
    pointsAgainst: seq<int>,
    opponents: set<Id>,
    currentStreak: int,
    longestStreak: int,
    giantKillerWins: int)

  function Fresh(p: Player): PlayerRecord {
    PlayerRecord(p, 0, [], 0, 0, [], {}, 0, 0, 0)
  }

  // ---------------------------------------------------------------------
  // What one match means for one player.

  /** The match once per side the player plays. */
  function MatchSides(m: Match, x: Id): seq<Match> {
    S.ForSides(m, x, m, m)
  }

  /** The outcome in statement order: the first player wins when named as
      winner, and otherwise the second player wins, whatever `winner_id`
      says.  Against themselves a player both wins and loses, the win
      first. */
  function Outcomes(m: Match, x: Id): seq<S.Event> {
    if m.winner == m.p1 then S.ForSides(m, x, S.Win, S.Loss)
    else if m.p1 == x && m.p2 == x then [S.Win, S.Loss]
    else S.ForSides(m, x, S.Loss, S.Win)
  }

  /** The giant kill on the ratings of the two records: the credited
      winner is rated strictly below the other player. */
  predicate GiantKill(m: Match, x: Id, elo1: int, elo2: int) {
    if m.winner == m.p1 then x == m.p1 && elo2 > elo1 else x == m.p2 && elo1 > elo2
  }

  /** Wins, losses, current and longest streak. */
  datatype Run = Run(wins: int, losses: int, current: int, longest: int)

  function Tally(r: Run, e: S.Event): Run {
    match e
    case Win => r.(wins := r.wins + 1, current := r.current + 1, longest := S.Max(r.longest, r.current + 1))
    case Loss => r.(losses := r.losses + 1, current := 0)
  }

  function RunOver(r: Run, es: seq<S.Event>): Run {
    if es == [] then r else Tally(RunOver(r, es[..|es| - 1]), es[|es| - 1])
  }

  function RunOf(s: PlayerRecord): Run {
    Run(s.wins, s.losses, s.currentStreak, s.longestStreak)
  }

  // What each statement group does to one record.

  function PointsStep(s: PlayerRecord, m: Match, y: Id): PlayerRecord {
    s.(totalPoints := s.totalPoints + S.Sum(S.OwnScores(m, y)))
  }

  function MatchStep(s: PlayerRecord, m: Match, y: Id): PlayerRecord {
    s.(matches := s.matches + MatchSides(m, y))
  }

  function AgainstStep(s: PlayerRecord, m: Match, y: Id): PlayerRecord {
    s.(pointsAgainst := s.pointsAgainst + S.OppScores(m, y))
  }

  function OpponentStep(s: PlayerRecord, m: Match, y: Id): PlayerRecord {
    s.(opponents := s.opponents + S.OppIds(m, y))
  }

  function OutcomeStep(s: PlayerRecord, m: Match, y: Id, elo1: int, elo2: int): PlayerRecord {
    var r := RunOver(RunOf(s), Outcomes(m, y));
    s.(wins := r.wins, losses := r.losses, currentStreak := r.current, longestStreak := r.longest,
       giantKillerWins := s.giantKillerWins + if GiantKill(m, y, elo1, elo2) then 1 else 0)
  }

  lemma RunSmall(r: Run)
    ensures RunOver(r, []) == r
    ensures RunOver(r, [S.Loss]) == Tally(r, S.Loss) && RunOver(r, [S.Win]) == Tally(r, S.Win)
    ensures RunOver(r, [S.Loss, S.Win]) == Tally(Tally(r, S.Loss), S.Win)
    ensures RunOver(r, [S.Win, S.Loss]) == Tally(Tally(r, S.Win), S.Loss)
  {
    assert [S.Loss, S.Win][..1] == [S.Loss];
    assert [S.Win, S.Loss][..1] == [S.Win];
    assert [S.Loss][..0] == [] && [S.Win][..0] == [];
  }

  // The statement groups on the dictionary.

  function AddPoints(st: map<Id, PlayerRecord>, m: Match): (r: map<Id, PlayerRecord>)
    requires m.p1 in st && m.p2 in st
    ensures r.Keys == st.Keys
    ensures forall y :: y in st ==> r[y] == PointsStep(st[y], m, y)
  {
    S.SumSmall(m.s1, m.s2);
    var st := st[m.p1 := st[m.p1].(totalPoints := st[m.p1].totalPoints + m.s1)];
    st[m.p2 := st[m.p2].(totalPoints := st[m.p2].totalPoints + m.s2)]
  }

  function PushMatch(st: map<Id, PlayerRecord>, m: Match): (r: map<Id, PlayerRecord>)
    requires m.p1 in st && m.p2 in st
    ensures r.Keys == st.Keys
    ensures forall y :: y in st ==> r[y] == MatchStep(st[y], m, y)
  {
    var st := st[m.p1 := st[m.p1].(matches := st[m.p1].matches + [m])];
    st[m.p2 := st[m.p2].(matches := st[m.p2].matches + [m])]
  }

  /** `pointsAgainst.push` of the opponent's score for each side: the
      monthly view's step (`StatsFold.PushAgainst`) over this script's
      record shape. */
  function PushAgainst(st: map<Id, PlayerRecord>, m: Match): (r: map<Id, PlayerRecord>)
    requires m.p1 in st && m.p2 in st
    ensures r.Keys == st.Keys
    ensures forall y :: y in st ==> r[y] == AgainstStep(st[y], m, y)
  {
    var st := st[m.p1 := st[m.p1].(pointsAgainst := st[m.p1].pointsAgainst + [m.s2])];
    st[m.p2 := st[m.p2].(pointsAgainst := st[m.p2].pointsAgainst + [m.s1])]
  }

  function AddOpponents(st: map<Id, PlayerRecord>, m: Match): (r: map<Id, PlayerRecord>)
    requires m.p1 in st && m.p2 in st
    ensures r.Keys == st.Keys
    ensures forall y :: y in st ==> r[y] == OpponentStep(st[y], m, y)
  {
    var st := st[m.p1 := st[m.p1].(opponents := st[m.p1].opponents + {m.p2})];
    st[m.p2 := st[m.p2].(opponents := st[m.p2].opponents + {m.p1})]
  }

  /** `winner.wins++`, `loser.losses++`, the winner's streak extended and
      its longest streak raised, the loser's streak reset, then the giant
      kill on the ratings `elo1` and `elo2` of the two records. */
  function Settle(st: map<Id, PlayerRecord>, m: Match, elo1: int, elo2: int): (r: map<Id, PlayerRecord>)
    requires m.p1 in st && m.p2 in st
    ensures r.Keys == st.Keys
    ensures forall y :: y in st ==> r[y] == OutcomeStep(st[y], m, y, elo1, elo2)
  {
    RunSmall(RunOf(st[m.p1]));
    RunSmall(RunOf(st[m.p2]));
    var w := if m.winner == m.p1 then m.p1 else m.p2;
    var l := if m.winner == m.p1 then m.p2 else m.p1;
    var st := st[w := st[w].(wins := st[w].wins + 1)];
    var st := st[l := st[l].(losses := st[l].losses + 1)];
    var st := st[w := st[w].(currentStreak := st[w].currentStreak + 1)];
    var st := st[w := st[w].(longestStreak := S.Max(st[w].longestStreak, st[w].currentStreak))];
    var st := st[l := st[l].(currentStreak := 0)];
    var kill := if m.winner == m.p1 then elo2 > elo1 else elo1 > elo2;
    if kill then st[w := st[w].(giantKillerWins := st[w].giantKillerWins + 1)] else st
  }

  /** The whole loop body for a match whose players both have a record. */
  function Apply(st: map<Id, PlayerRecord>, m: Match): (r: map<Id, PlayerRecord>)
    requires m.p1 in st && m.p2 in st
    ensures r.Keys == st.Keys
  {
    var elo1 := st[m.p1].player.elo;
    var elo2 := st[m.p2].player.elo;
    var st1 := AddPoints(st, m);
    var st2 := PushMatch(st1, m);
    var st3 := PushAgainst(st2, m);
    var st4 := AddOpponents(st3, m);
    Settle(st4, m, elo1, elo2)
  }

  // ---------------------------------------------------------------------
  // The same over the processed matches.

  function MatchesIn(ps: seq<Match>, x: Id): seq<Match> {
    if ps == [] then [] else MatchesIn(ps[..|ps| - 1], x) + MatchSides(ps[|ps| - 1], x)
  }

  function OutcomesIn(ps: seq<Match>, x: Id): seq<S.Event> {
    if ps == [] then [] else OutcomesIn(ps[..|ps| - 1], x) + Outcomes(ps[|ps| - 1], x)
  }

  function Kills(roster: map<Id, Player>, ps: seq<Match>, x: Id): nat
    requires forall m :: m in ps ==> S.Known(roster, m)
  {
    if ps == [] then 0
    else
      var m := ps[|ps| - 1];
      assert m in ps;
      assert S.Known(roster, m);
      assert forall z :: z in ps[..|ps| - 1] ==> z in ps;
      Kills(roster, ps[..|ps| - 1], x) + if GiantKill(m, x, roster[m.p1].elo, roster[m.p2].elo) then 1 else 0
  }

  /** The record the fold holds for player `x` after the matches `ms`. */
  function Tracked(roster: map<Id, Player>, ms: seq<Match>, x: Id): PlayerRecord
    requires x in roster
  {
    var ps := S.Processed(roster, ms);
    var run := RunOver(Run(0, 0, 0, 0), OutcomesIn(ps, x));
    PlayerRecord(roster[x], S.Sum(S.Owns(ps, x)), MatchesIn(ps, x), run.wins, run.losses,
                 S.Against(ps, x), S.OpponentsIn(ps, x), run.current, run.longest, Kills(roster, ps, x))
  }

  predicate Describes(st: map<Id, PlayerRecord>, roster: map<Id, Player>, ms: seq<Match>) {
    st.Keys == roster.Keys && forall y :: y in st ==> st[y] == Tracked(roster, ms, y)
  }

  /** What match `m` does to player `y`'s record, one player at a time. */
  function Advance(s: PlayerRecord, roster: map<Id, Player>, m: Match, y: Id): PlayerRecord
    requires S.Known(roster, m)
  {
    var s1 := OpponentStep(AgainstStep(MatchStep(PointsStep(s, m, y), m, y), m, y), m, y);
    OutcomeStep(s1, m, y, roster[m.p1].elo, roster[m.p2].elo)
  }

  lemma ApplyAt(st: map<Id, PlayerRecord>, roster: map<Id, Player>, m: Match, y: Id)
    requires st.Keys == roster.Keys && S.Known(roster, m) && y in st
    requires st[m.p1].player == roster[m.p1] && st[m.p2].player == roster[m.p2]
    ensures Apply(st, m)[y] == Advance(st[y], roster, m, y)
  {
  }

  lemma {:induction false} RunConcat(r: Run, a: seq<S.Event>, b: seq<S.Event>)
    ensures RunOver(r, a + b) == RunOver(RunOver(r, a), b)
  {
    if b == [] {
      assert a + b == a;
    } else {
      assert (a + b)[..|a + b| - 1] == a + b[..|b| - 1];
      RunConcat(r, a, b[..|b| - 1]);
    }
  }

  lemma ProcessedStep(roster: map<Id, Player>, ms: seq<Match>, m: Match)
    requires S.Known(roster, m)
    ensures S.Processed(roster, ms + [m]) == S.Processed(roster, ms) + [m]
  {
    assert (ms + [m])[..|ms|] == ms;
  }

  lemma KillsStep(roster: map<Id, Player>, ps: seq<Match>, m: Match, y: Id)
    requires S.Known(roster, m) && forall z :: z in ps ==> S.Known(roster, z)
    ensures forall z :: z in ps + [m] ==> S.Known(roster, z)
    ensures Kills(roster, ps + [m], y)
         == Kills(roster, ps, y) + if GiantKill(m, y, roster[m.p1].elo, roster[m.p2].elo) then 1 else 0
  {
    assert (ps + [m])[..|ps|] == ps;
  }

  /** The per-match sequences of one more match grow by that match's part. */
  lemma InStep(ps: seq<Match>, m: Match, y: Id)
    ensures MatchesIn(ps + [m], y) == MatchesIn(ps, y) + MatchSides(m, y)
    ensures OutcomesIn(ps + [m], y) == OutcomesIn(ps, y) + Outcomes(m, y)
  {
    assert (ps + [m])[..|ps|] == ps;
  }

  lemma TrackedStep(roster: map<Id, Player>, ms: seq<Match>, m: Match, y: Id)
    requires S.Known(roster, m) && y in roster
    ensures Tracked(roster, ms + [m], y) == Advance(Tracked(roster, ms, y), roster, m, y)
  {
    var ps := S.Processed(roster, ms);
    ProcessedStep(roster, ms, m);
    S.InStep(ps, m, y);
    InStep(ps, m, y);
    S.SumConcat(S.Owns(ps, y), S.OwnScores(m, y));
    RunConcat(Run(0, 0, 0, 0), OutcomesIn(ps, y), Outcomes(m, y));
    KillsStep(roster, ps, m, y);
  }

  lemma StepDescribes(st: map<Id, PlayerRecord>, roster: map<Id, Player>, ms: seq<Match>, m: Match)
    requires Describes(st, roster, ms)
    ensures S.Known(roster, m) ==> Describes(Apply(st, m), roster, ms + [m])
    ensures !S.Known(roster, m) ==> Describes(st, roster, ms + [m])
  {
    assert (ms + [m])[..|ms|] == ms;
    if S.Known(roster, m) {
      forall y | y in st ensures Apply(st, m)[y] == Tracked(roster, ms + [m], y) {
        ApplyAt(st, roster, m, y);
        TrackedStep(roster, ms, m, y);
      }
    } else {
      assert S.Processed(roster, ms + [m]) == S.Processed(roster, ms);
    }
  }

  lemma TrackedNone(roster: map<Id, Player>, y: Id)
    requires y in roster
    ensures Tracked(roster, [], y) == Fresh(roster[y])
  {
  }

  /** The loop body for a match whose players both have a record, one
      statement at a time. */
  method ApplyMatch(st: map<Id, PlayerRecord>, m: Match) returns (r: map<Id, PlayerRecord>)
    requires m.p1 in st && m.p2 in st
    ensures r == Apply(st, m)
  {
    var elo1 := st[m.p1].player.elo;
    var elo2 := st[m.p2].player.elo;
    r := AddPoints(st, m);
    r := PushMatch(r, m);
    r := PushAgainst(r, m);
    r := AddOpponents(r, m);
    r := Settle(r, m, elo1, elo2);
  }

  /** The `playerStats` dictionary, then the loop over the sorted matches,
      skipping a match when either player has no record. */
  method Fold(players: seq<Player>, sorted: seq<Match>) returns (st: map<Id, PlayerRecord>)
    ensures Describes(st, Roster(players), sorted)
  {
    st := map[];
    var i := 0;
    while i < |players|
      invariant 0 <= i <= |players|
      invariant st.Keys == Roster(players[..i]).Keys
      invariant forall y :: y in st ==> st[y] == Fresh(Roster(players[..i])[y])
    {
      assert players[..i + 1][..i] == players[..i];
      st := st[players[i].id := Fresh(players[i])];
      i := i + 1;
    }
    assert players[..i] == players;
    var roster := Roster(players);
    forall y | y in st ensures st[y] == Tracked(roster, [], y) {
      TrackedNone(roster, y);
    }
    var j := 0;
    while j < |sorted|
      invariant 0 <= j <= |sorted|
      invariant Describes(st, roster, sorted[..j])
    {
      var m := sorted[j];
      assert sorted[..j + 1] == sorted[..j] + [m];
      StepDescribes(st, roster, sorted[..j], m);
      if m.p1 in st && m.p2 in st {
        st := ApplyMatch(st, m);
      }
      j := j + 1;
    }
    assert sorted[..j] == sorted;
  }

  // ---------------------------------------------------------------------
  // What the folded records mean.

  lemma {:induction false} Lengths(ps: seq<Match>, x: Id)
    ensures |MatchesIn(ps, x)| == S.Appearances(ps, x)
    ensures |S.Against(ps, x)| == S.Appearances(ps, x)
    ensures |OutcomesIn(ps, x)| == S.Appearances(ps, x)
  {
    if ps != [] {
      Lengths(ps[..|ps| - 1], x);
    }
  }

  /** Wins plus losses count the events, and the streaks stay ordered. */
  lemma {:induction false} RunCounts(es: seq<S.Event>)
    ensures var r := RunOver(Run(0, 0, 0, 0), es);
      r.wins >= 0 && r.losses >= 0 && r.wins + r.losses == |es| && 0 <= r.current <= r.longest
  {
    if es != [] {
      RunCounts(es[..|es| - 1]);
    }
  }

  /** Every recorded match counts as a win or a loss, so wins plus losses
      is the number of matches recorded for the player, which is also the
      length of `pointsAgainst`; the current streak never exceeds the
      longest. */
  lemma TrackedMeaning(roster: map<Id, Player>, ms: seq<Match>, x: Id)
    requires x in roster
    ensures var s := Tracked(roster, ms, x);
      var ps := S.Processed(roster, ms);
      && s.player == roster[x]
      && s.wins >= 0 && s.losses >= 0
      && s.wins + s.losses == |s.matches| == |s.pointsAgainst| == S.Appearances(ps, x)
      && s.totalPoints == S.Sum(S.Owns(ps, x))
      && 0 <= s.currentStreak <= s.longestStreak
  {
    var ps := S.Processed(roster, ms);
    Lengths(ps, x);
    RunCounts(OutcomesIn(ps, x));
  }

  /** The per-match rules between two different players: the credited
      winner (the first player if named, else the second) extends their
      streak and raises their longest streak to it, the other player's
      streak drops to zero, and the kill is counted iff the loser is rated
      strictly higher. */
  lemma SettleRules(roster: map<Id, Player>, ms: seq<Match>, m: Match)
    requires S.Known(roster, m) && m.p1 != m.p2
    ensures var w := if m.winner == m.p1 then m.p1 else m.p2;
      var l := if m.winner == m.p1 then m.p2 else m.p1;
      var a := Tracked(roster, ms, w);
      var b := Tracked(roster, ms + [m], w);
      var c := Tracked(roster, ms, l);
      var d := Tracked(roster, ms + [m], l);
      && b.wins == a.wins + 1 && b.losses == a.losses
      && b.currentStreak == a.currentStreak + 1
      && b.longestStreak == S.Max(a.longestStreak, a.currentStreak + 1)
      && d.losses == c.losses + 1 && d.wins == c.wins && d.currentStreak == 0
      && d.longestStreak == c.longestStreak
      && (b.giantKillerWins == a.giantKillerWins + 1 <==> roster[l].elo > roster[w].elo)
      && (b.giantKillerWins == a.giantKillerWins || b.giantKillerWins == a.giantKillerWins + 1)
      && d.giantKillerWins == c.giantKillerWins
  {
    var w := if m.winner == m.p1 then m.p1 else m.p2;
    var l := if m.winner == m.p1 then m.p2 else m.p1;
    TrackedStep(roster, ms, m, w);
    TrackedStep(roster, ms, m, l);
    RunSmall(RunOf(Tracked(roster, ms, w)));
    RunSmall(RunOf(Tracked(roster, ms, l)));
  }

  // ---------------------------------------------------------------------
  // The averages and maxima of the players with matches.

  /** `m.player1_id === ps.player.id ? player1_score : player2_score`. */
  function OwnSide(m: Match, x: Id): int {
    if m.p1 == x then m.s1 else m.s2
  }

  /** `Math.abs` of the player's own rating change, `null` as 0. */
  function OwnSwing(m: Match, x: Id): int {
    SwingOf(if m.p1 == x then m.c1 else m.c2)
  }

  function Sides(ms: seq<Match>, x: Id): (r: seq<int>)
    ensures |r| == |ms|
    ensures forall i :: 0 <= i < |ms| ==> r[i] == OwnSide(ms[i], x)
  {
    if ms == [] then [] else [OwnSide(ms[0], x)] + Sides(ms[1..], x)
  }

  function SideSwings(ms: seq<Match>, x: Id): (r: seq<int>)
    ensures |r| == |ms|
    ensures forall i :: 0 <= i < |ms| ==> r[i] == OwnSwing(ms[i], x)
  {
    if ms == [] then [] else [OwnSwing(ms[0], x)] + SideSwings(ms[1..], x)
  }

  /** `Math.max(...s)` on a non-empty list. */
  function MaxOf(s: seq<int>): (r: int)
    requires |s| > 0
    ensures r in s
    ensures forall i :: 0 <= i < |s| ==> s[i] <= r
  {
    if |s| == 1 then s[0]
    else
      var t := MaxOf(s[..|s| - 1]);
      assert forall i :: 0 <= i < |s| - 1 ==> s[..|s| - 1][i] == s[i];
      S.Max(t, s[|s| - 1])
  }

  datatype Summary = Summary(
    rec: PlayerRecord,
    avgPointsAgainst: real,
    maxPointsInMatch: int,
    biggestEloSwing: int,
    uniqueOpponentsCount: nat)

  /** The fields the `playersWithStats.forEach` adds to a record. */
  function Summarize(s: PlayerRecord): Summary
    requires Active(s)
  {
    Summary(s,
      Mean(s.pointsAgainst),
      MaxOf(Sides(s.matches, s.player.id)),
      MaxOf(SideSwings(s.matches, s.player.id)),
      |s.opponents|)
  }

  /** A record with matches, whose `pointsAgainst` has one entry per match. */
  predicate Active(s: PlayerRecord) {
    |s.matches| > 0 && |s.pointsAgainst| == |s.matches|
  }

  lemma SidesMax(ms: seq<Match>, x: Id)
    requires |ms| > 0
    ensures forall m :: m in ms ==> OwnSide(m, x) <= MaxOf(Sides(ms, x))
    ensures exists m :: m in ms && OwnSide(m, x) == MaxOf(Sides(ms, x))
  {
    var v := Sides(ms, x);
    forall m | m in ms ensures OwnSide(m, x) <= MaxOf(v) {
      var i :| 0 <= i < |ms| && ms[i] == m;
      assert v[i] == OwnSide(m, x);
    }
    var i :| 0 <= i < |v| && v[i] == MaxOf(v);
    assert ms[i] in ms;
  }

  lemma SwingsMax(ms: seq<Match>, x: Id)
    requires |ms| > 0
    ensures forall m :: m in ms ==> OwnSwing(m, x) <= MaxOf(SideSwings(ms, x))
    ensures exists m :: m in ms && OwnSwing(m, x) == MaxOf(SideSwings(ms, x))
  {
    var v := SideSwings(ms, x);
    forall m | m in ms ensures OwnSwing(m, x) <= MaxOf(v) {
      var i :| 0 <= i < |ms| && ms[i] == m;
      assert v[i] == OwnSwing(m, x);
    }
    var i :| 0 <= i < |v| && v[i] == MaxOf(v);
    assert ms[i] in ms;
  }

  /** `xs.reduce((a, b) => a + b, 0) / xs.length`, exact. */
  function Mean(xs: seq<int>): (r: real)
    requires |xs| > 0
    ensures r * (|xs| as real) == S.Sum(xs) as real
  {
    var t := S.Sum(xs) as real;
    var n := |xs| as real;
    DivMul(t, n);
    t / n
  }

  lemma DivMul(t: real, n: real)
    requires n > 0.0
    ensures (t / n) * n == t
  {
  }

  /** The maxima are taken over the player's own side of their recorded
      matches (the first side when they played themselves), and the
      average is the mean of the points against. */
  lemma SummaryMeaning(s: PlayerRecord)
    requires Active(s)
    ensures var u := Summarize(s);
      && (forall m :: m in s.matches ==> OwnSide(m, s.player.id) <= u.maxPointsInMatch)
      && (exists m :: m in s.matches && OwnSide(m, s.player.id) == u.maxPointsInMatch)
      && (forall m :: m in s.matches ==> OwnSwing(m, s.player.id) <= u.biggestEloSwing)
      && (exists m :: m in s.matches && OwnSwing(m, s.player.id) == u.biggestEloSwing)
      && u.avgPointsAgainst == Mean(s.pointsAgainst)
  {
    SidesMax(s.matches, s.player.id);
    SwingsMax(s.matches, s.player.id);
  }

  /** `Object.values(playerStats).filter(ps => ps.matches.length > 0)`. */
  function WithMatches(order: seq<Id>, st: map<Id, PlayerRecord>): (r: seq<PlayerRecord>)
    requires forall i :: 0 <= i < |order| ==> order[i] in st
    ensures forall s :: s in r ==> |s.matches| > 0
    ensures forall i :: 0 <= i < |order| && |st[order[i]].matches| > 0 ==> st[order[i]] in r
    ensures forall s :: s in r ==> exists i :: 0 <= i < |order| && st[order[i]] == s
  {
    if order == [] then []
    else
      var t := order[..|order| - 1];
      var y := order[|order| - 1];
      var rest := WithMatches(t, st);
      assert forall i :: 0 <= i < |t| ==> t[i] == order[i];
      if |st[y].matches| > 0 then rest + [st[y]] else rest
  }

  /** The records keep the order of `order`, players without matches
      dropped. */
  lemma {:induction false} WithMatchesConcat(a: seq<Id>, b: seq<Id>, st: map<Id, PlayerRecord>)
    requires forall y :: y in a + b ==> y in st
    ensures WithMatches(a + b, st) == WithMatches(a, st) + WithMatches(b, st)
    ensures |b| == 1 ==> WithMatches(b, st) == if |st[b[0]].matches| > 0 then [st[b[0]]] else []
  {
    assert |b| == 1 ==> b[..0] == [];
    if b == [] {
      assert a + b == a;
    } else {
      var t := b[..|b| - 1];
      assert (a + b)[..|a + b| - 1] == a + t;
      WithMatchesConcat(a, t, st);
    }
  }

  /** `playersWithStats.forEach(ps => { ps.avgPointsAgainst = ...; ... })`. */
  method SummarizeAll(active: seq<PlayerRecord>) returns (sums: seq<Summary>)
    requires forall i :: 0 <= i < |active| ==> Active(active[i])
    ensures |sums| == |active|
    ensures forall i :: 0 <= i < |active| ==> sums[i] == Summarize(active[i])
  {
    sums := [];
    var i := 0;
    while i < |active|
      invariant 0 <= i <= |active|
      invariant |sums| == i
      invariant forall k :: 0 <= k < i ==> sums[k] == Summarize(active[k])
    {
      sums := sums + [Summarize(active[i])];
      i := i + 1;
    }
  }

  // ---------------------------------------------------------------------
  // The winners.

  function PointsKey(u: Summary): real { u.rec.totalPoints as real }
  function EloKey(u: Summary): real { u.rec.player.elo as real }
  function StreakKey(u: Summary): real { u.rec.longestStreak as real }
  function GiantKey(u: Summary): real { u.rec.giantKillerWins as real }
  function SocialKey(u: Summary): real { u.uniqueOpponentsCount as real }
  /** `a.avgPointsAgainst - b.avgPointsAgainst`: ascending. */
  function DefenseKey(u: Summary): real { -u.avgPointsAgainst }
  function MatchKey(u: Summary): real { u.maxPointsInMatch as real }
  function SwingKey(u: Summary): real { u.biggestEloSwing as real }
  function LossKey(u: Summary): real { u.rec.losses as real }

  /** `[...list].sort(cmp)[0]`: `undefined` for an empty list. */
  function Top<T>(s: seq<T>, key: T -> real): (r: Option<T>)
    ensures r.None? <==> s == []
    ensures r.Some? ==> r.value in s && forall x :: x in s ==> key(x) <= key(r.value)
    ensures r.Some? ==> r.value == s[FirstMaxIndex(s, key)]
  {
    if s == [] then None
    else
      SortDescHead(s, key);
      var h := SortDesc(s, key)[0];
      assert h in multiset(SortDesc(s, key));
      forall x | x in s ensures key(x) <= key(h) {
        SortDescHeadMax(s, key, x);
      }
      Some(h)
  }

  function TallyKey(t: Rivalry.Tally): real { t.count as real }

  /** `Object.values(rivalryMap)` in key order. */
  function Tallies(keys: seq<string>, table: map<string, Rivalry.Tally>): (r: seq<Rivalry.Tally>)
    requires forall i :: 0 <= i < |keys| ==> keys[i] in table
    ensures |r| == |keys|
    ensures forall i :: 0 <= i < |keys| ==> r[i] == table[keys[i]]
  {
    if keys == [] then [] else [table[keys[0]]] + Tallies(keys[1..], table)
  }

  datatype Winners = Winners(
    mostPoints: Option<Summary>,
    highestElo: Option<Summary>,
    winningStreak: Option<Summary>,
    giantKiller: Option<Summary>,
    socialButterfly: Option<Summary>,
    bestDefense: Option<Summary>,
    highestMatch: Option<Summary>,
    eloSwing: Option<Summary>,
    biggestLoser: Option<Summary>,
    rivalry: Option<Rivalry.Tally>)

  function Pick(sums: seq<Summary>, tallies: seq<Rivalry.Tally>): Winners {
    Winners(Top(sums, PointsKey), Top(sums, EloKey), Top(sums, StreakKey), Top(sums, GiantKey),
            Top(sums, SocialKey), Top(sums, DefenseKey), Top(sums, MatchKey), Top(sums, SwingKey),
            Top(sums, LossKey), Top(tallies, TallyKey))
  }

  /** The nine individual categories, in the order rows are built. */
  function Individual(w: Winners): seq<(string, Option<Summary>)> {
    [("mostPoints", w.mostPoints), ("highestElo", w.highestElo), ("winningStreak", w.winningStreak),
     ("giantKiller", w.giantKiller), ("socialButterfly", w.socialButterfly),
     ("bestDefense", w.bestDefense), ("highestMatch", w.highestMatch), ("eloSwing", w.eloSwing),
     ("biggestLoser", w.biggestLoser)]
  }

  /** The records after folding `sorted`, and the summaries of the
      players who played. */
  method SummarizePlayers(players: seq<Player>, sorted: seq<Match>)
    returns (st: map<Id, PlayerRecord>, sums: seq<Summary>)
    ensures Describes(st, Roster(players), sorted)
    ensures |sums| == |WithMatches(IdOrder(players), st)|
    ensures forall i :: 0 <= i < |sums| ==>
      Active(WithMatches(IdOrder(players), st)[i]) && sums[i] == Summarize(WithMatches(IdOrder(players), st)[i])
  {
    st := Fold(players, sorted);
    var order := IdOrder(players);
    var roster := Roster(players);
    var active := WithMatches(order, st);
    forall s | s in active ensures Active(s) {
      var i :| 0 <= i < |order| && st[order[i]] == s;
      TrackedMeaning(roster, sorted, order[i]);
    }
    sums := SummarizeAll(active);
  }

  /** `calculateWinners`: `None` when no match falls in the month.
      Otherwise the records are folded over the month's matches oldest
      first, the players with matches are summarized, and each category's
      winner is the head of its sorted list; the rivalry counter runs over
      all the month's matches, skipped ones included. */
  method CalculateWinners(players: seq<Player>, matches: seq<Match>, month: int, year: int)
    returns (r: Option<Winners>, st: map<Id, PlayerRecord>, sums: seq<Summary>, tallies: seq<Rivalry.Tally>)
    ensures r.None? <==> FilterMonth(matches, month, year) == []
    ensures r.Some? ==> Describes(st, Roster(players), ByTime(FilterMonth(matches, month, year)))
    ensures r.Some? ==> |sums| == |WithMatches(IdOrder(players), st)|
    ensures r.Some? ==> forall i :: 0 <= i < |sums| ==>
      Active(WithMatches(IdOrder(players), st)[i]) && sums[i] == Summarize(WithMatches(IdOrder(players), st)[i])
    ensures r.Some? ==> var ms := FilterMonth(matches, month, year);
      |tallies| == |KeyOrder(ms)|
      && forall i :: 0 <= i < |tallies| ==>
           tallies[i].count == KeyCount(ms, KeyOrder(ms)[i]) && FirstWith(ms, KeyOrder(ms)[i], tallies[i].first)
    ensures r.Some? ==> r.value == Pick(sums, tallies)
  {
    var monthMatches := FilterMonth(matches, month, year);
    if |monthMatches| == 0 {
      return None, map[], [], [];
    }
    st, sums := SummarizePlayers(players, ByTime(monthMatches));
    var keys, table := CountRivalries(monthMatches);
    tallies := Tallies(keys, table);
    r := Some(Pick(sums, tallies));
  }

  /** `w` are the winners of the month computed from the records `st`,
      the summaries `sums` and the rivalry tallies `tallies`, each as
      `calculateWinners` builds them. */
  predicate Calculation(players: seq<Player>, matches: seq<Match>, month: int, year: int,
                        w: Winners, st: map<Id, PlayerRecord>, sums: seq<Summary>, tallies: seq<Rivalry.Tally>)
  {
    var ms := FilterMonth(matches, month, year);
    && Describes(st, Roster(players), ByTime(ms))
    && |sums| == |WithMatches(IdOrder(players), st)|
    && (forall i :: 0 <= i < |sums| ==>
          Active(WithMatches(IdOrder(players), st)[i]) && sums[i] == Summarize(WithMatches(IdOrder(players), st)[i]))
    && |tallies| == |KeyOrder(ms)|
    && (forall i :: 0 <= i < |tallies| ==>
          tallies[i].count == KeyCount(ms, KeyOrder(ms)[i]) && FirstWith(ms, KeyOrder(ms)[i], tallies[i].first))
    && w == Pick(sums, tallies)
  }

  /** `w` is what `calculateWinners` returns for month `t`. */
  ghost predicate WinnersFor(players: seq<Player>, matches: seq<Match>, t: Target, w: Winners) {
    exists st, sums, tallies :: Calculation(players, matches, t.month, t.year, w, st, sums, tallies)
  }

  /** The rows of a month with winners `w`: the category rows, then the
      rivalry rows. */
  function WinnerRowsOf(players: seq<Player>, t: Target, w: Winners): seq<AwardRow> {
    RowsFor(Individual(w), t.month, t.year, t.name)
      + if w.rivalry.Some? then RivalryPair(players, w.rivalry.value, t.month, t.year, t.name) else []
  }

  /** `rows` are the rows `main` collects for month `t`: none when it has
      no matches, otherwise those of its winners. */
  ghost predicate MonthAwardsOf(players: seq<Player>, matches: seq<Match>, t: Target, rows: seq<AwardRow>) {
    if FilterMonth(matches, t.month, t.year) == [] then rows == []
    else exists w :: WinnersFor(players, matches, t, w) && rows == WinnerRowsOf(players, t, w)
  }

  /** `rows` are the rows of the months `ts` in turn. */
  ghost predicate Collected(players: seq<Player>, matches: seq<Match>, ts: seq<Target>, rows: seq<AwardRow>)
    decreases |ts|
  {
    if ts == [] then rows == []
    else
      exists k ::
        && 0 <= k <= |rows|
        && Collected(players, matches, ts[..|ts| - 1], rows[..k])
        && MonthAwardsOf(players, matches, ts[|ts| - 1], rows[k..])
  }

  lemma CollectedStep(players: seq<Player>, matches: seq<Match>, ts: seq<Target>, t: Target,
                      rows: seq<AwardRow>, more: seq<AwardRow>)
    requires Collected(players, matches, ts, rows) && MonthAwardsOf(players, matches, t, more)
    ensures Collected(players, matches, ts + [t], rows + more)
  {
    var all := rows + more;
    assert (ts + [t])[..|ts|] == ts && (ts + [t])[|ts|] == t;
    assert all[..|rows|] == rows && all[|rows|..] == more;
    assert Collected(players, matches, (ts + [t])[..|ts + [t]| - 1], all[..|rows|]);
    assert MonthAwardsOf(players, matches, (ts + [t])[|ts + [t]| - 1], all[|rows|..]);
  }

  // ---------------------------------------------------------------------
  // The rows.

  /** The row of one category, if it has a winner. */
  function CategoryRow(c: (string, Option<Summary>), month: int, year: int, name: string): seq<AwardRow> {
    if c.1.Some? then [AwardRow(Some(c.1.value.rec.player.id), c.0, month + 1, year, name)] else []
  }

  /** The rows of the categories, in category order. */
  function RowsFor(cs: seq<(string, Option<Summary>)>, month: int, year: int, name: string): seq<AwardRow> {
    if cs == [] then []
    else RowsFor(cs[..|cs| - 1], month, year, name) + CategoryRow(cs[|cs| - 1], month, year, name)
  }

  /** Each row names a category with a winner and its player. */
  lemma {:induction false} RowsForSound(cs: seq<(string, Option<Summary>)>, month: int, year: int, name: string)
    ensures var rows := RowsFor(cs, month, year, name);
      && |rows| <= |cs|
      && (forall r :: r in rows ==> r.month == month + 1 && r.year == year && r.monthName == name)
      && (forall r :: r in rows ==>
            exists c :: c in cs && c.1.Some? && r.category == c.0 && r.playerId == Some(c.1.value.rec.player.id))
  {
    if cs != [] {
      var init := cs[..|cs| - 1];
      RowsForSound(init, month, year, name);
      assert cs == init + [cs[|cs| - 1]];
    }
  }

  /** Every category with a winner has a row. */
  lemma {:induction false} RowsForComplete(cs: seq<(string, Option<Summary>)>, month: int, year: int, name: string)
    ensures forall c :: c in cs && c.1.Some? ==> exists r :: r in RowsFor(cs, month, year, name) && r.category == c.0
  {
    if cs != [] {
      var init := cs[..|cs| - 1];
      var c := cs[|cs| - 1];
      RowsForComplete(init, month, year, name);
      assert cs == init + [c];
      var rows := RowsFor(cs, month, year, name);
      if c.1.Some? {
        assert rows[|rows| - 1] in rows;
      }
    }
  }

  /** One row per category whose winner exists, with the month stored
      1-based. */
  method IndividualRows(cs: seq<(string, Option<Summary>)>, month: int, year: int, name: string)
    returns (rows: seq<AwardRow>)
    ensures rows == RowsFor(cs, month, year, name)
    ensures |rows| <= |cs|
    ensures forall r :: r in rows ==> r.month == month + 1 && r.year == year && r.monthName == name
    ensures forall r :: r in rows ==>
      exists c :: c in cs && c.1.Some? && r.category == c.0 && r.playerId == Some(c.1.value.rec.player.id)
    ensures forall c :: c in cs && c.1.Some? ==> exists r :: r in rows && r.category == c.0
  {
    rows := [];
    var i := 0;
    while i < |cs|
      invariant 0 <= i <= |cs|
      invariant rows == RowsFor(cs[..i], month, year, name)
    {
      var c := cs[i];
      assert cs[..i + 1][..i] == cs[..i];
      if c.1.Some? {
        rows := rows + [AwardRow(Some(c.1.value.rec.player.id), c.0, month + 1, year, name)];
      }
      i := i + 1;
    }
    assert cs[..i] == cs;
    RowsForSound(cs, month, year, name);
    RowsForComplete(cs, month, year, name);
  }

  function RivalryRow(players: seq<Player>, id: Id, month: int, year: int, name: string): seq<AwardRow> {
    if FindPlayer(players, id).Some? then [AwardRow(Some(id), "rivalryAward", month + 1, year, name)] else []
  }

  function RivalryPair(players: seq<Player>, t: Rivalry.Tally, month: int, year: int, name: string): seq<AwardRow> {
    RivalryRow(players, t.first.p1, month, year, name) + RivalryRow(players, t.first.p2, month, year, name)
  }

  /** The `rivalryAward` rows: one for each player of the top rivalry that
      `players.find` locates. */
  method RivalryRows(players: seq<Player>, top: Option<Rivalry.Tally>, month: int, year: int, name: string)
    returns (rows: seq<AwardRow>)
    ensures top.None? ==> rows == []
    ensures top.Some? ==> rows == RivalryPair(players, top.value, month, year, name)
    ensures |rows| <= 2
    ensures forall r :: r in rows ==>
      r.category == "rivalryAward" && r.month == month + 1 && r.year == year && r.monthName == name
      && r.playerId.Some? && FindPlayer(players, r.playerId.value).Some?
  {
    rows := [];
    if top.Some? {
      var player1 := FindPlayer(players, top.value.first.p1);
      var player2 := FindPlayer(players, top.value.first.p2);
      if player1.Some? {
        rows := rows + [AwardRow(Some(player1.value.id), "rivalryAward", month + 1, year, name)];
      }
      if player2.Some? {
        rows := rows + [AwardRow(Some(player2.value.id), "rivalryAward", month + 1, year, name)];
      }
    }
  }

  /** A month to backfill: 0-based month, year and name. */
  datatype Target = Target(month: MonthIndex, year: int, name: string)

  const Targets: seq<Target> := [Target(7, 2025, "August"), Target(8, 2025, "September")]

  /** The individual categories, then the rivalry category. */
  function AwardCategories(): seq<string> {
    ["mostPoints", "highestElo", "winningStreak", "giantKiller", "socialButterfly",
     "bestDefense", "highestMatch", "eloSwing", "biggestLoser", "rivalryAward"]
  }

  /** A row for month `t`, which has matches: month stored 1-based, the
      year and month name of `t`, a known category and a player. */
  predicate MonthRow(matches: seq<Match>, t: Target, r: AwardRow) {
    && FilterMonth(matches, t.month, t.year) != []
    && r.month == t.month + 1 && r.year == t.year && r.monthName == t.name
    && r.category in AwardCategories() && r.playerId.Some?
  }

  predicate TargetRow(matches: seq<Match>, r: AwardRow) {
    exists t :: t in Targets && MonthRow(matches, t, r)
  }

  lemma IndividualCategories(w: Winners)
    ensures forall c :: c in Individual(w) ==> c.0 in AwardCategories()
  {
    var a := AwardCategories();
    forall c | c in Individual(w) ensures c.0 in a {
      var i :| 0 <= i < 9 && Individual(w)[i] == c;
      assert c.0 == a[i];
    }
  }

  lemma IndividualNamed(cs: seq<(string, Option<Summary>)>, rows: seq<AwardRow>)
    requires forall c :: c in cs ==> c.0 in AwardCategories()
    requires forall r :: r in rows ==>
      exists c :: c in cs && c.1.Some? && r.category == c.0 && r.playerId == Some(c.1.value.rec.player.id)
    ensures forall r :: r in rows ==> r.category in AwardCategories() && r.playerId.Some?
  {
    forall r | r in rows ensures r.category in AwardCategories() && r.playerId.Some? {
      var c :| c in cs && c.1.Some? && r.category == c.0 && r.playerId == Some(c.1.value.rec.player.id);
    }
  }

  lemma MonthRows(matches: seq<Match>, t: Target, rows: seq<AwardRow>, rivals: seq<AwardRow>)
    requires FilterMonth(matches, t.month, t.year) != []
    requires forall r :: r in rows ==> r.category in AwardCategories() && r.playerId.Some?
    requires forall r :: r in rows ==> r.month == t.month + 1 && r.year == t.year && r.monthName == t.name
    requires forall r :: r in rivals ==>
      r.category == "rivalryAward" && r.month == t.month + 1 && r.year == t.year && r.monthName == t.name
      && r.playerId.Some?
    ensures forall r :: r in rows + rivals ==> MonthRow(matches, t, r)
  {
    assert "rivalryAward" == AwardCategories()[9];
  }

  /** The body of the loop of `main` for one month: nothing when the month
      has no matches, otherwise the category rows then the rivalry rows. */
  method MonthAwards(players: seq<Player>, matches: seq<Match>, t: Target) returns (monthAwards: seq<AwardRow>)
    ensures |monthAwards| <= 11
    ensures FilterMonth(matches, t.month, t.year) == [] ==> monthAwards == []
    ensures forall r :: r in monthAwards ==> MonthRow(matches, t, r)
    ensures MonthAwardsOf(players, matches, t, monthAwards)
  {
    var winners, st, sums, tallies := CalculateWinners(players, matches, t.month, t.year);
    if winners.None? {
      return [];
    }
    monthAwards := WinnerRows(players, matches, t, winners.value);
    assert Calculation(players, matches, t.month, t.year, winners.value, st, sums, tallies);
  }

  /** The category rows, then the rivalry rows, of a month with matches. */
  method WinnerRows(players: seq<Player>, matches: seq<Match>, t: Target, w: Winners) returns (monthAwards: seq<AwardRow>)
    requires FilterMonth(matches, t.month, t.year) != []
    ensures |monthAwards| <= 11
    ensures forall r :: r in monthAwards ==> MonthRow(matches, t, r)
    ensures monthAwards == WinnerRowsOf(players, t, w)
  {
    var cs := Individual(w);
    IndividualCategories(w);
    var rows := IndividualRows(cs, t.month, t.year, t.name);
    var rivals := RivalryRows(players, w.rivalry, t.month, t.year, t.name);
    IndividualNamed(cs, rows);
    MonthRows(matches, t, rows, rivals);
    monthAwards := rows + rivals;
  }

  /** The loop of `main` over the two months: the rows of every month with
      matches, appended; `save` says whether anything is sent. */
  method Backfill(players: seq<Player>, matches: seq<Match>) returns (allAwards: seq<AwardRow>, save: bool)
    ensures save <==> allAwards != []
    ensures |allAwards| <= 11 * |Targets|
    ensures forall r :: r in allAwards ==> TargetRow(matches, r)
    ensures Collected(players, matches, Targets, allAwards)
  {
    allAwards := [];
    var i := 0;
    while i < |Targets|
      invariant 0 <= i <= |Targets|
      invariant |allAwards| <= 11 * i
      invariant forall r :: r in allAwards ==> TargetRow(matches, r)
      invariant Collected(players, matches, Targets[..i], allAwards)
    {
      var t := Targets[i];
      var monthAwards := MonthAwards(players, matches, t);
      assert t in Targets;
      CollectedStep(players, matches, Targets[..i], t, allAwards, monthAwards);
      assert Targets[..i + 1] == Targets[..i] + [t];
      allAwards := allAwards + monthAwards;
      i := i + 1;
    }
    assert Targets[..i] == Targets;
    save := |allAwards| > 0;
  }
}
