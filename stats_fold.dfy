/** The monthly statistics fold shared, line for line, by
    `calculateMonthlyWinners` and `calculateWinnersForMatches` in
    components/MonthlyWinners.jsx, `calculateWinnersForMatches` in
    components/ExportAwards.jsx and `calculateMonthlyWinners` in
    scripts/generate-awards-csv.js, and the nine ranked lists built from it.

    The source keeps one mutable record per player id and, for every match
    whose two players are both known, updates the two records statement by
    statement.  When a match names the same player on both sides the two
    records are one object, so the second statement of each pair sees the
    first one's effect; the map updates below are in the same statement
    order and reproduce that. */
module StatsFold {
  import opened Wrappers
  import opened Domain
  import opened Sorting

  datatype Stats = Stats(
    player: Player,
    totalPoints: int,
    pointsAgainst: seq<int>,
    maxPointsInMatch: int,
    biggestEloSwing: int,
    losses: int,
    currentStreak: int,
    longestStreak: int,
    giantKillerWins: int,
    uniqueOpponents: set<Id>)

  /** The record a player starts the month with. */
  function Fresh(p: Player): (s: Stats)
    ensures s.player == p && s.pointsAgainst == [] && s.uniqueOpponents == {}
    ensures s.totalPoints == 0 && s.losses == 0 && s.currentStreak == 0 && s.longestStreak == 0
  {
    Stats(p, 0, [], 0, 0, 0, 0, 0, 0, {})
  }

  /** `p1Stats && p2Stats`: both players of the match have a record. */
  predicate Known(roster: map<Id, Player>, m: Match) {
    m.p1 in roster && m.p2 in roster
  }

  /** The matches the fold does not skip, in order. */
  function Processed(roster: map<Id, Player>, ms: seq<Match>): (r: seq<Match>)
    ensures |r| <= |ms|
    ensures forall m :: m in r <==> m in ms && Known(roster, m)
  {
    if ms == [] then []
    else
      var rest := Processed(roster, ms[..|ms| - 1]);
      assert ms == ms[..|ms| - 1] + [ms[|ms| - 1]];
      if Known(roster, ms[|ms| - 1]) then rest + [ms[|ms| - 1]] else rest
  }

  /** The skipped matches are dropped and the others keep their order. */
  lemma {:induction false} ProcessedConcat(roster: map<Id, Player>, a: seq<Match>, b: seq<Match>)
    ensures Processed(roster, a + b) == Processed(roster, a) + Processed(roster, b)
    ensures |b| == 1 ==> Processed(roster, b) == if Known(roster, b[0]) then b else []
  {
    assert |b| == 1 ==> b[..0] == [];
    if b == [] {
      assert a + b == a;
    } else {
      assert (a + b)[..|a + b| - 1] == a + b[..|b| - 1];
      ProcessedConcat(roster, a, b[..|b| - 1]);
    }
  }

  // ---------------------------------------------------------------------
  // What one match means for one player, independently of the dictionary.

  /** The values a match contributes to player `x`: `a` for the first side,
      `b` for the second, in statement order; both when the match names `x`
      on both sides. */
  function ForSides<T>(m: Match, x: Id, a: T, b: T): seq<T> {
    if m.p1 == x && m.p2 == x then [a, b]
    else if m.p1 == x then [a]
    else if m.p2 == x then [b]
    else []
  }

  /** The player's own score(s) in the match: one per side they play. */
  function OwnScores(m: Match, x: Id): seq<int> {
    ForSides(m, x, m.s1, m.s2)
  }

  /** The opponent's score(s), pushed onto `pointsAgainst`. */
  function OppScores(m: Match, x: Id): seq<int> {
    ForSides(m, x, m.s2, m.s1)
  }

  /** `Math.abs` of the player's own rating change(s). */
  function Swings(m: Match, x: Id): seq<int> {
    ForSides(m, x, SwingOf(m.c1) as int, SwingOf(m.c2) as int)
  }

  function OppIds(m: Match, x: Id): set<Id> {
    (if m.p1 == x then {m.p2} else {}) + (if m.p2 == x then {m.p1} else {})
  }

  datatype Event = Win | Loss

  /** Wins and losses the match records for the player, in statement order:
      the loser's loss first, then the winner's win.  A `winner_id` naming
      neither player records nothing. */
  function Events(m: Match, x: Id): seq<Event> {
    if m.winner == m.p2 then ForSides(m, x, Loss, Win)
    else if m.winner == m.p1 then ForSides(m, x, Win, Loss)
    else []
  }

  /** The giant-killer rule on the two ratings read before the match: the
      first player wins while rated strictly below the second, or else the
      second wins while rated strictly below the first. */
  predicate GiantRule(m: Match, x: Id, elo1: int, elo2: int) {
    var first := m.winner == m.p1 && elo1 < elo2;
    (first && x == m.p1) || (!first && m.winner == m.p2 && elo2 < elo1 && x == m.p2)
  }

  /** The rule on the players' current ratings. */
  predicate GiantWin(roster: map<Id, Player>, m: Match, x: Id)
    requires Known(roster, m)
  {
    GiantRule(m, x, roster[m.p1].elo, roster[m.p2].elo)
  }

  // What each statement pair does to one player's record.

  function PointsStep(s: Stats, m: Match, y: Id): Stats {
    s.(totalPoints := s.totalPoints + Sum(OwnScores(m, y)))
  }

  function AgainstStep(s: Stats, m: Match, y: Id): Stats {
    s.(pointsAgainst := s.pointsAgainst + OppScores(m, y))
  }

  function MaxStep(s: Stats, m: Match, y: Id): Stats {
    s.(maxPointsInMatch := MaxFold(s.maxPointsInMatch, OwnScores(m, y)))
  }

  function SwingStep(s: Stats, m: Match, y: Id): Stats {
    s.(biggestEloSwing := MaxFold(s.biggestEloSwing, Swings(m, y)))
  }

  function StreakStep(s: Stats, m: Match, y: Id): Stats {
    WithStreak(s, RunFrom(StreakOf(s), Events(m, y)))
  }

  function GiantStep(s: Stats, m: Match, y: Id, elo1: int, elo2: int): Stats {
    s.(giantKillerWins := s.giantKillerWins + if GiantRule(m, y, elo1, elo2) then 1 else 0)
  }

  function OpponentStep(s: Stats, m: Match, y: Id): Stats {
    s.(uniqueOpponents := s.uniqueOpponents + OppIds(m, y))
  }

  // ---------------------------------------------------------------------
  // The same over a sequence of processed matches.

  function Owns(ps: seq<Match>, x: Id): seq<int> {
    if ps == [] then [] else Owns(ps[..|ps| - 1], x) + OwnScores(ps[|ps| - 1], x)
  }

  function Against(ps: seq<Match>, x: Id): seq<int> {
    if ps == [] then [] else Against(ps[..|ps| - 1], x) + OppScores(ps[|ps| - 1], x)
  }

  function SwingsIn(ps: seq<Match>, x: Id): seq<int> {
    if ps == [] then [] else SwingsIn(ps[..|ps| - 1], x) + Swings(ps[|ps| - 1], x)
  }

  function OpponentsIn(ps: seq<Match>, x: Id): set<Id> {
    if ps == [] then {} else OpponentsIn(ps[..|ps| - 1], x) + OppIds(ps[|ps| - 1], x)
  }

  function EventsIn(ps: seq<Match>, x: Id): seq<Event> {
    if ps == [] then [] else EventsIn(ps[..|ps| - 1], x) + Events(ps[|ps| - 1], x)
  }

  function Giants(roster: map<Id, Player>, ps: seq<Match>, x: Id): nat
    requires forall m :: m in ps ==> Known(roster, m)
  {
    if ps == [] then 0
    else Giants(roster, ps[..|ps| - 1], x) + (if GiantWin(roster, ps[|ps| - 1], x) then 1 else 0)
  }

  /** How many sides of the matches the player plays (a match against
      themselves counts twice). */
  function Appearances(ps: seq<Match>, x: Id): nat {
    if ps == [] then 0
    else
      var m := ps[|ps| - 1];
      Appearances(ps[..|ps| - 1], x) + (if m.p1 == x then 1 else 0) + (if m.p2 == x then 1 else 0)
  }

  function Sum(s: seq<int>): int {
    if s == [] then 0 else Sum(s[..|s| - 1]) + s[|s| - 1]
  }

  function Max(a: int, b: int): int { if a >= b then a else b }

  /** `v = Math.max(v, e)` for each element `e` in turn. */
  function MaxFold(init: int, s: seq<int>): int {
    if s == [] then init else Max(MaxFold(init, s[..|s| - 1]), s[|s| - 1])
  }

  /** Loss count, current streak and longest streak. */
  datatype Streak = Streak(losses: int, current: int, longest: int)

  /** A loss adds one loss and zeroes the current streak; a win extends the
      current streak and raises the longest streak to at least it. */
  function Record(s: Streak, e: Event): Streak {
    match e
    case Loss => s.(losses := s.losses + 1, current := 0)
    case Win => s.(current := s.current + 1, longest := Max(s.longest, s.current + 1))
  }

  function RunFrom(s: Streak, es: seq<Event>): Streak {
    if es == [] then s else Record(RunFrom(s, es[..|es| - 1]), es[|es| - 1])
  }

  /** The record the fold holds for player `x` after the matches `ms`. */
  function Expected(roster: map<Id, Player>, ms: seq<Match>, x: Id): Stats
    requires x in roster
  {
    var ps := Processed(roster, ms);
    var run := RunFrom(Streak(0, 0, 0), EventsIn(ps, x));
    Stats(roster[x], Sum(Owns(ps, x)), Against(ps, x), MaxFold(0, Owns(ps, x)),
          MaxFold(0, SwingsIn(ps, x)), run.losses, run.current, run.longest,
          Giants(roster, ps, x), OpponentsIn(ps, x))
  }

  // ---------------------------------------------------------------------
  // One match, statement pair by statement pair.

  lemma SumSmall(a: int, b: int)
    ensures Sum([]) == 0 && Sum([a]) == a && Sum([b]) == b && Sum([a, b]) == a + b
  {
    assert [a, b][..1] == [a];
    assert [a][..0] == [] && [b][..0] == [];
  }

  lemma MaxSmall(v: int, a: int, b: int)
    ensures MaxFold(v, []) == v
    ensures MaxFold(v, [a]) == Max(v, a) && MaxFold(v, [b]) == Max(v, b)
    ensures MaxFold(v, [a, b]) == Max(Max(v, a), b)
  {
    assert [a, b][..1] == [a];
    assert [a][..0] == [] && [b][..0] == [];
  }

  lemma RunSmall(s: Streak)
    ensures RunFrom(s, []) == s
    ensures RunFrom(s, [Loss]) == Record(s, Loss) && RunFrom(s, [Win]) == Record(s, Win)
    ensures RunFrom(s, [Loss, Win]) == Record(Record(s, Loss), Win)
    ensures RunFrom(s, [Win, Loss]) == Record(Record(s, Win), Loss)
  {
    assert [Loss, Win][..1] == [Loss];
    assert [Win, Loss][..1] == [Win];
    assert [Loss][..0] == [] && [Win][..0] == [];
  }

  function AddPoints(st: map<Id, Stats>, m: Match): (r: map<Id, Stats>)
    requires m.p1 in st && m.p2 in st
    ensures r.Keys == st.Keys
    ensures forall y :: y in st ==> r[y] == PointsStep(st[y], m, y)
  {
    SumSmall(m.s1, m.s2);
    var st := st[m.p1 := st[m.p1].(totalPoints := st[m.p1].totalPoints + m.s1)];
    st[m.p2 := st[m.p2].(totalPoints := st[m.p2].totalPoints + m.s2)]
  }

  /** `p1Stats.pointsAgainst.push(match.player2_score)` and its mirror.  The
      backfill script repeats this step on its own records
      (`BackfillAwards.PushAgainst`). */
  function PushAgainst(st: map<Id, Stats>, m: Match): (r: map<Id, Stats>)
    requires m.p1 in st && m.p2 in st
    ensures r.Keys == st.Keys
    ensures forall y :: y in st ==> r[y] == AgainstStep(st[y], m, y)
  {
    var st := st[m.p1 := st[m.p1].(pointsAgainst := st[m.p1].pointsAgainst + [m.s2])];
    st[m.p2 := st[m.p2].(pointsAgainst := st[m.p2].pointsAgainst + [m.s1])]
  }

  function RaiseMax(st: map<Id, Stats>, m: Match): (r: map<Id, Stats>)
    requires m.p1 in st && m.p2 in st
    ensures r.Keys == st.Keys
    ensures forall y :: y in st ==> r[y] == MaxStep(st[y], m, y)
  {
    MaxSmall(st[m.p1].maxPointsInMatch, m.s1, m.s2);
    MaxSmall(st[m.p2].maxPointsInMatch, m.s1, m.s2);
    var st := st[m.p1 := st[m.p1].(maxPointsInMatch := Max(st[m.p1].maxPointsInMatch, m.s1))];
    st[m.p2 := st[m.p2].(maxPointsInMatch := Max(st[m.p2].maxPointsInMatch, m.s2))]
  }

  function RaiseSwing(st: map<Id, Stats>, m: Match): (r: map<Id, Stats>)
    requires m.p1 in st && m.p2 in st
    ensures r.Keys == st.Keys
    ensures forall y :: y in st ==> r[y] == SwingStep(st[y], m, y)
  {
    MaxSmall(st[m.p1].biggestEloSwing, SwingOf(m.c1), SwingOf(m.c2));
    MaxSmall(st[m.p2].biggestEloSwing, SwingOf(m.c1), SwingOf(m.c2));
    var st := st[m.p1 := st[m.p1].(biggestEloSwing := Max(st[m.p1].biggestEloSwing, SwingOf(m.c1)))];
    st[m.p2 := st[m.p2].(biggestEloSwing := Max(st[m.p2].biggestEloSwing, SwingOf(m.c2)))]
  }

  function StreakOf(s: Stats): Streak {
    Streak(s.losses, s.currentStreak, s.longestStreak)
  }

  function WithStreak(s: Stats, k: Streak): Stats {
    s.(losses := k.losses, currentStreak := k.current, longestStreak := k.longest)
  }

  function Lose(s: Stats): Stats {
    var s := s.(losses := s.losses + 1);
    s.(currentStreak := 0)
  }

  function Extend(s: Stats): Stats {
    var s := s.(currentStreak := s.currentStreak + 1);
    s.(longestStreak := Max(s.longestStreak, s.currentStreak))
  }

  function UpdateStreaks(st: map<Id, Stats>, m: Match): (r: map<Id, Stats>)
    requires m.p1 in st && m.p2 in st
    ensures r.Keys == st.Keys
    ensures forall y :: y in st ==> r[y] == StreakStep(st[y], m, y)
  {
    RunSmall(StreakOf(st[m.p1]));
    RunSmall(StreakOf(st[m.p2]));
    if m.winner == m.p2 then
      var st := st[m.p1 := Lose(st[m.p1])];
      st[m.p2 := Extend(st[m.p2])]
    else if m.winner == m.p1 then
      var st := st[m.p2 := Lose(st[m.p2])];
      st[m.p1 := Extend(st[m.p1])]
    else st
  }

  function CountGiant(st: map<Id, Stats>, m: Match, elo1: int, elo2: int): (r: map<Id, Stats>)
    requires m.p1 in st && m.p2 in st
    ensures r.Keys == st.Keys
    ensures forall y :: y in st ==> r[y] == GiantStep(st[y], m, y, elo1, elo2)
  {
    if m.winner == m.p1 && elo1 < elo2 then
      st[m.p1 := st[m.p1].(giantKillerWins := st[m.p1].giantKillerWins + 1)]
    else if m.winner == m.p2 && elo2 < elo1 then
      st[m.p2 := st[m.p2].(giantKillerWins := st[m.p2].giantKillerWins + 1)]
    else st
  }

  function AddOpponents(st: map<Id, Stats>, m: Match): (r: map<Id, Stats>)
    requires m.p1 in st && m.p2 in st
    ensures r.Keys == st.Keys
    ensures forall y :: y in st ==> r[y] == OpponentStep(st[y], m, y)
  {
    var st := st[m.p1 := st[m.p1].(uniqueOpponents := st[m.p1].uniqueOpponents + {m.p2})];
    st[m.p2 := st[m.p2].(uniqueOpponents := st[m.p2].uniqueOpponents + {m.p1})]
  }

  /** The whole loop body for a match whose players are both known. */
  function Apply(st: map<Id, Stats>, m: Match): (r: map<Id, Stats>)
    requires m.p1 in st && m.p2 in st
    ensures r.Keys == st.Keys
  {
    var elo1 := st[m.p1].player.elo;
    var elo2 := st[m.p2].player.elo;
    var st1 := AddPoints(st, m);
    var st2 := PushAgainst(st1, m);
    var st3 := RaiseMax(st2, m);
    var st4 := RaiseSwing(st3, m);
    var st5 := UpdateStreaks(st4, m);
    var st6 := CountGiant(st5, m, elo1, elo2);
    AddOpponents(st6, m)
  }

  // ---------------------------------------------------------------------
  // The fold computes, for every player, the record `Expected` describes.

  lemma {:induction false} SumConcat(a: seq<int>, b: seq<int>)
    ensures Sum(a + b) == Sum(a) + Sum(b)
  {
    if b == [] {
      assert a + b == a;
    } else {
      assert (a + b)[..|a + b| - 1] == a + b[..|b| - 1];
      SumConcat(a, b[..|b| - 1]);
    }
  }

  lemma {:induction false} MaxFoldConcat(v: int, a: seq<int>, b: seq<int>)
    ensures MaxFold(v, a + b) == MaxFold(MaxFold(v, a), b)
  {
    if b == [] {
      assert a + b == a;
    } else {
      assert (a + b)[..|a + b| - 1] == a + b[..|b| - 1];
      MaxFoldConcat(v, a, b[..|b| - 1]);
    }
  }

  lemma {:induction false} RunConcat(s: Streak, a: seq<Event>, b: seq<Event>)
    ensures RunFrom(s, a + b) == RunFrom(RunFrom(s, a), b)
  {
    if b == [] {
      assert a + b == a;
    } else {
      assert (a + b)[..|a + b| - 1] == a + b[..|b| - 1];
      RunConcat(s, a, b[..|b| - 1]);
    }
  }

  /** The dictionary every player's record is `Expected` in. */
  predicate Describes(st: map<Id, Stats>, roster: map<Id, Player>, ms: seq<Match>) {
    st.Keys == roster.Keys && forall y :: y in st ==> st[y] == Expected(roster, ms, y)
  }

  /** The records `Expected` gives the players `ids`, keyed by id. */
  function RecordsFor(roster: map<Id, Player>, ms: seq<Match>, ids: seq<Id>): (st: map<Id, Stats>)
    requires forall y :: y in ids ==> y in roster
    ensures forall y :: y in st <==> y in ids
    ensures forall y :: y in st ==> st[y] == Expected(roster, ms, y)
  {
    if ids == [] then map[]
    else
      var y := ids[|ids| - 1];
      RecordsFor(roster, ms, ids[..|ids| - 1])[y := Expected(roster, ms, y)]
  }

  /** The dictionary the fold over `ms` ends with, built directly. */
  function Folded(players: seq<Player>, ms: seq<Match>): (st: map<Id, Stats>)
    ensures Describes(st, Roster(players), ms)
  {
    RecordsFor(Roster(players), ms, IdOrder(players))
  }

  /** Only one dictionary is described: the fold's result is determined by
      the players and the matches. */
  lemma DescribesUnique(st: map<Id, Stats>, players: seq<Player>, ms: seq<Match>)
    requires Describes(st, Roster(players), ms)
    ensures st == Folded(players, ms)
  {
    var f := Folded(players, ms);
    assert st.Keys == f.Keys;
  }

  /** What match `m` does to player `y`'s record, read one player at a time. */
  function Advance(s: Stats, roster: map<Id, Player>, m: Match, y: Id): Stats
    requires Known(roster, m)
  {
    var s1 := AgainstStep(PointsStep(s, m, y), m, y);
    var s2 := StreakStep(SwingStep(MaxStep(s1, m, y), m, y), m, y);
    OpponentStep(GiantStep(s2, m, y, roster[m.p1].elo, roster[m.p2].elo), m, y)
  }

  /** The statement-by-statement loop body gives every player the record
      `Advance` describes, self-matches included. */
  lemma ApplyAt(st: map<Id, Stats>, roster: map<Id, Player>, m: Match, y: Id)
    requires st.Keys == roster.Keys && Known(roster, m) && y in st
    requires st[m.p1].player == roster[m.p1] && st[m.p2].player == roster[m.p2]
    ensures Apply(st, m)[y] == Advance(st[y], roster, m, y)
  {
    var st1 := AddPoints(st, m);
    var st2 := PushAgainst(st1, m);
    var st3 := RaiseMax(st2, m);
    var st4 := RaiseSwing(st3, m);
    var st5 := UpdateStreaks(st4, m);
    var st6 := CountGiant(st5, m, st[m.p1].player.elo, st[m.p2].player.elo);
    var st7 := AddOpponents(st6, m);
    assert Apply(st, m)[y] == st7[y];
    assert st1[y] == PointsStep(st[y], m, y);
    assert st2[y] == AgainstStep(st1[y], m, y);
    assert st3[y] == MaxStep(st2[y], m, y);
    assert st4[y] == SwingStep(st3[y], m, y);
    assert st5[y] == StreakStep(st4[y], m, y);
    assert st6[y] == GiantStep(st5[y], m, y, roster[m.p1].elo, roster[m.p2].elo);
  }

  lemma ProcessedAppend(roster: map<Id, Player>, ms: seq<Match>, m: Match)
    requires Known(roster, m)
    ensures Processed(roster, ms + [m]) == Processed(roster, ms) + [m]
  {
    assert (ms + [m])[..|ms|] == ms;
  }

  /** The per-match sequences of one more match grow by that match's part. */
  lemma InStep(ps: seq<Match>, m: Match, y: Id)
    ensures Owns(ps + [m], y) == Owns(ps, y) + OwnScores(m, y)
    ensures Against(ps + [m], y) == Against(ps, y) + OppScores(m, y)
    ensures SwingsIn(ps + [m], y) == SwingsIn(ps, y) + Swings(m, y)
    ensures EventsIn(ps + [m], y) == EventsIn(ps, y) + Events(m, y)
    ensures OpponentsIn(ps + [m], y) == OpponentsIn(ps, y) + OppIds(m, y)
  {
    assert (ps + [m])[..|ps|] == ps;
  }

  lemma GiantsStep(roster: map<Id, Player>, ps: seq<Match>, m: Match, y: Id)
    requires Known(roster, m) && forall z :: z in ps ==> Known(roster, z)
    ensures forall z :: z in ps + [m] ==> Known(roster, z)
    ensures Giants(roster, ps + [m], y) == Giants(roster, ps, y) + if GiantWin(roster, m, y) then 1 else 0
  {
    assert (ps + [m])[..|ps|] == ps;
  }

  /** One more processed match advances `Expected` the same way. */
  lemma ExpectedStep(roster: map<Id, Player>, ms: seq<Match>, m: Match, y: Id)
    requires Known(roster, m) && y in roster
    ensures Expected(roster, ms + [m], y) == Advance(Expected(roster, ms, y), roster, m, y)
  {
    var ps := Processed(roster, ms);
    ProcessedAppend(roster, ms, m);
    InStep(ps, m, y);
    GiantsStep(roster, ps, m, y);
    SumConcat(Owns(ps, y), OwnScores(m, y));
    MaxFoldConcat(0, Owns(ps, y), OwnScores(m, y));
    MaxFoldConcat(0, SwingsIn(ps, y), Swings(m, y));
    RunConcat(Streak(0, 0, 0), EventsIn(ps, y), Events(m, y));
  }

  lemma StepDescribes(st: map<Id, Stats>, roster: map<Id, Player>, ms: seq<Match>, m: Match)
    requires Describes(st, roster, ms)
    ensures Known(roster, m) ==> Describes(Apply(st, m), roster, ms + [m])
    ensures !Known(roster, m) ==> Describes(st, roster, ms + [m])
  {
    assert (ms + [m])[..|ms|] == ms;
    if Known(roster, m) {
      forall y | y in st ensures Apply(st, m)[y] == Expected(roster, ms + [m], y) {
        ApplyAt(st, roster, m, y);
        ExpectedStep(roster, ms, m, y);
      }
    } else {
      assert Processed(roster, ms + [m]) == Processed(roster, ms);
    }
  }

  // ---------------------------------------------------------------------
  // The loop itself.

  lemma ExpectedNone(roster: map<Id, Player>, y: Id)
    requires y in roster
    ensures Expected(roster, [], y) == Fresh(roster[y])
  {
  }

  /** `players.forEach(p => playerStats[p.id] = { player: p, ... })`: one
      fresh record per id, the last player with an id winning. */
  method StartRecords(players: seq<Player>) returns (st: map<Id, Stats>)
    ensures Describes(st, Roster(players), [])
  {
    st := map[];
    var i := 0;
    while i < |players|
      invariant 0 <= i <= |players|
      invariant st.Keys == Roster(players[..i]).Keys
      invariant forall y :: y in st ==> st[y] == Fresh(Roster(players[..i])[y])
    {
      assert players[..i + 1][..i] == players[..i];
      st := st[players[i].id := Fresh(players[i])];
      i := i + 1;
    }
    assert players[..i] == players;
    var roster := Roster(players);
    forall y | y in st ensures st[y] == Expected(roster, [], y) {
      ExpectedNone(roster, y);
    }
  }

  /** The loop body for a match whose two players have records, statement
      by statement. */
  method ApplyMatch(st: map<Id, Stats>, m: Match) returns (r: map<Id, Stats>)
    requires m.p1 in st && m.p2 in st
    ensures r == Apply(st, m)
  {
    var elo1 := st[m.p1].player.elo;
    var elo2 := st[m.p2].player.elo;
    r := AddPoints(st, m);
    r := PushAgainst(r, m);
    r := RaiseMax(r, m);
    r := RaiseSwing(r, m);
    r := UpdateStreaks(r, m);
    r := CountGiant(r, m, elo1, elo2);
    r := AddOpponents(r, m);
  }

  /** One turn of the loop over the matches: a match with an unknown
      player is skipped, any other is applied. */
  method FoldStep(st: map<Id, Stats>, ghost roster: map<Id, Player>, ghost done: seq<Match>, m: Match)
    returns (r: map<Id, Stats>)
    requires Describes(st, roster, done)
    ensures Describes(r, roster, done + [m])
  {
    StepDescribes(st, roster, done, m);
    r := st;
    if m.p1 in st && m.p2 in st {
      r := ApplyMatch(st, m);
    }
  }

  /** Builds the `playerStats` dictionary from `players`, then runs the loop
      body over `sorted`, skipping a match when either player has no
      record.  Every player's record ends up as `Expected` describes. */
  method FoldMonth(players: seq<Player>, sorted: seq<Match>) returns (st: map<Id, Stats>)
    ensures Describes(st, Roster(players), sorted)
  {
    st := StartRecords(players);
    st := FoldMatches(st, Roster(players), sorted);
  }

  /** The loop over the matches, from the records describing no match. */
  method FoldMatches(start: map<Id, Stats>, ghost roster: map<Id, Player>, sorted: seq<Match>)
    returns (st: map<Id, Stats>)
    requires Describes(start, roster, [])
    ensures Describes(st, roster, sorted)
  {
    st := start;
    var j := 0;
    assert sorted[..j] == [];
    while j < |sorted|
      invariant 0 <= j <= |sorted|
      invariant Describes(st, roster, sorted[..j])
    {
      assert sorted[..j + 1] == sorted[..j] + [sorted[j]];
      st := FoldStep(st, roster, sorted[..j], sorted[j]);
      j := j + 1;
    }
    assert sorted[..j] == sorted;
  }

  // ---------------------------------------------------------------------
  // What the folded records mean.

  /** `pointsAgainst` holds one entry for each side of a processed match the
      player played, and so does the list of their own scores. */
  lemma {:induction false} AgainstLength(ps: seq<Match>, x: Id)
    ensures |Against(ps, x)| == Appearances(ps, x)
    ensures |Owns(ps, x)| == Appearances(ps, x)
  {
    if ps != [] {
      AgainstLength(ps[..|ps| - 1], x);
    }
  }

  /** `Math.max` folded from `v`: at least `v` and every element, and either
      `v` itself or one of the elements. */
  lemma {:induction false} MaxFoldBounds(v: int, s: seq<int>)
    ensures MaxFold(v, s) >= v
    ensures forall i :: 0 <= i < |s| ==> MaxFold(v, s) >= s[i]
    ensures MaxFold(v, s) == v || MaxFold(v, s) in s
  {
    if s != [] {
      var t := s[..|s| - 1];
      MaxFoldBounds(v, t);
      assert s == t + [s[|s| - 1]];
      assert forall i :: 0 <= i < |t| ==> s[i] == t[i];
    }
  }

  /** A streak triple that can arise: nothing negative and the longest
      streak at least the current one. */
  predicate StreakOk(k: Streak) {
    k.losses >= 0 && 0 <= k.current <= k.longest
  }

  lemma {:induction false} RunKeepsOk(k: Streak, es: seq<Event>)
    requires StreakOk(k)
    ensures StreakOk(RunFrom(k, es))
    ensures RunFrom(k, es).losses >= k.losses && RunFrom(k, es).longest >= k.longest
  {
    if es != [] {
      RunKeepsOk(k, es[..|es| - 1]);
    }
  }

  /** The folded record of a known player: the points, the maxima, the
      counts and the streaks as the fold promises them. */
  lemma ExpectedMeaning(roster: map<Id, Player>, ms: seq<Match>, x: Id)
    requires x in roster
    ensures var s := Expected(roster, ms, x);
      var ps := Processed(roster, ms);
      && s.player == roster[x]
      && |s.pointsAgainst| == Appearances(ps, x)
      && s.totalPoints == Sum(Owns(ps, x))
      && s.maxPointsInMatch >= 0
      && (forall i :: 0 <= i < |Owns(ps, x)| ==> s.maxPointsInMatch >= Owns(ps, x)[i])
      && (s.maxPointsInMatch == 0 || s.maxPointsInMatch in Owns(ps, x))
      && (forall i :: 0 <= i < |SwingsIn(ps, x)| ==> s.biggestEloSwing >= SwingsIn(ps, x)[i])
      && (s.biggestEloSwing == 0 || s.biggestEloSwing in SwingsIn(ps, x))
      && 0 <= s.currentStreak <= s.longestStreak
      && s.losses >= 0
  {
    var ps := Processed(roster, ms);
    AgainstLength(ps, x);
    MaxFoldBounds(0, Owns(ps, x));
    MaxFoldBounds(0, SwingsIn(ps, x));
    RunKeepsOk(Streak(0, 0, 0), EventsIn(ps, x));
  }

  /** The streak rules for one more match between two different players:
      the winner's streak grows by one and the longest streak rises to it,
      the loser's streak drops to zero and their losses grow by one, and a
      `winner_id` naming neither player (or a bystander) changes nothing. */
  lemma StreakRules(roster: map<Id, Player>, ms: seq<Match>, m: Match, y: Id)
    requires Known(roster, m) && y in roster && m.p1 != m.p2
    ensures var a := Expected(roster, ms, y);
      var b := Expected(roster, ms + [m], y);
      && ((y == m.p1 || y == m.p2) && m.winner == y ==>
            b.currentStreak == a.currentStreak + 1
            && b.longestStreak == Max(a.longestStreak, a.currentStreak + 1)
            && b.losses == a.losses)
      && ((y == m.p1 || y == m.p2) && (m.winner == m.p1 || m.winner == m.p2) && m.winner != y ==>
            b.currentStreak == 0 && b.longestStreak == a.longestStreak && b.losses == a.losses + 1)
      && ((m.winner != m.p1 && m.winner != m.p2) || (y != m.p1 && y != m.p2) ==>
            b.currentStreak == a.currentStreak && b.longestStreak == a.longestStreak
            && b.losses == a.losses)
  {
    ExpectedStep(roster, ms, m, y);
    RunSmall(StreakOf(Expected(roster, ms, y)));
  }

  /** The giant-killer rule credits only the winner, and only when their
      current rating is strictly below their opponent's; so at most one
      player per match. */
  lemma GiantRuleMeaning(roster: map<Id, Player>, m: Match, x: Id, z: Id)
    requires Known(roster, m)
    ensures GiantWin(roster, m, x) <==>
      x == m.winner
      && ((x == m.p1 && roster[m.p1].elo < roster[m.p2].elo)
          || (x == m.p2 && roster[m.p2].elo < roster[m.p1].elo))
    ensures GiantWin(roster, m, x) && GiantWin(roster, m, z) ==> x == z
  {
  }

  /** The giant-killer count grows by exactly the rule's verdict. */
  lemma GiantStepCount(roster: map<Id, Player>, ms: seq<Match>, m: Match, y: Id)
    requires Known(roster, m) && y in roster
    ensures Expected(roster, ms + [m], y).giantKillerWins
         == Expected(roster, ms, y).giantKillerWins + if GiantWin(roster, m, y) then 1 else 0
  {
    ExpectedStep(roster, ms, m, y);
  }

  /** `uniqueOpponents` is exactly the set of ids met across a processed
      match. */
  lemma {:induction false} OpponentsMeaning(ps: seq<Match>, x: Id, o: Id)
    ensures o in OpponentsIn(ps, x) <==>
      exists k :: 0 <= k < |ps| && ((ps[k].p1 == x && ps[k].p2 == o) || (ps[k].p2 == x && ps[k].p1 == o))
  {
    if ps != [] {
      var t := ps[..|ps| - 1];
      OpponentsMeaning(t, x, o);
      assert forall k :: 0 <= k < |t| ==> ps[k] == t[k];
    }
  }
}
