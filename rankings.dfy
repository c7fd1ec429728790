/** The nine ranked lists the UI copies of the monthly fold return: every
    list but `highestElo` ranks the players with at least one processed
    match, in the order `Object.values` lists the dictionary, copied and
    stably sorted by one statistic. */
module Rankings {
  import opened Domain
  import opened Sorting
  import opened StatsFold

  /** `Object.values(playerStats).filter(p => p.pointsAgainst.length > 0)`. */
  function WithStats(st: map<Id, Stats>, order: seq<Id>): (r: seq<Stats>)
    requires forall y :: y in order ==> y in st
    ensures |r| <= |order|
    ensures forall s :: s in r <==> exists y :: y in order && s == st[y] && |st[y].pointsAgainst| > 0
  {
    if order == [] then []
    else
      var t := order[..|order| - 1];
      var y := order[|order| - 1];
      var rest := WithStats(st, t);
      assert order == t + [y];
      if |st[y].pointsAgainst| > 0 then rest + [st[y]] else rest
  }

  /** The records are listed in the order of `order`, players without a
      processed match dropped. */
  lemma {:induction false} WithStatsConcat(st: map<Id, Stats>, a: seq<Id>, b: seq<Id>)
    requires forall y :: y in a + b ==> y in st
    ensures WithStats(st, a + b) == WithStats(st, a) + WithStats(st, b)
    ensures |b| == 1 ==> WithStats(st, b) == if |st[b[0]].pointsAgainst| > 0 then [st[b[0]]] else []
  {
    assert |b| == 1 ==> b[..0] == [];
    if b == [] {
      assert a + b == a;
    } else {
      assert (a + b)[..|a + b| - 1] == a + b[..|b| - 1];
      WithStatsConcat(st, a, b[..|b| - 1]);
    }
  }

  /** `avgPointsAgainst`: the mean of the opponents' scores, exact. */
  function AvgAgainst(s: Stats): real {
    if |s.pointsAgainst| == 0 then 0.0 else (Sum(s.pointsAgainst) as real) / (|s.pointsAgainst| as real)
  }

  function PointsKey(s: Stats): real { s.totalPoints as real }
  /** `leastPointsAgainst` sorts ascending, that is descending on the negation. */
  function DefenseKey(s: Stats): real { -AvgAgainst(s) }
  function MatchKey(s: Stats): real { s.maxPointsInMatch as real }
  function SwingKey(s: Stats): real { s.biggestEloSwing as real }
  function LossKey(s: Stats): real { s.losses as real }
  function StreakKey(s: Stats): real { s.longestStreak as real }
  function GiantKey(s: Stats): real { s.giantKillerWins as real }
  function SocialKey(s: Stats): real { |s.uniqueOpponents| as real }
  function EloKey(p: Player): real { p.elo as real }

  datatype Rankings = Rankings(
    mostPoints: seq<Stats>,
    highestElo: seq<Player>,
    leastPointsAgainst: seq<Stats>,
    mostPointsInMatch: seq<Stats>,
    biggestEloSwing: seq<Stats>,
    biggestLoser: seq<Stats>,
    winningStreak: seq<Stats>,
    giantKiller: seq<Stats>,
    socialButterfly: seq<Stats>)

  /** Each list is a sorted copy of its input: the active players for eight
      of them, the whole `players` list for `highestElo`. */
  predicate RankedBy(r: seq<Stats>, w: seq<Stats>, key: Stats -> real) {
    multiset(r) == multiset(w) && SortedDesc(r, key)
  }

  function Rank(st: map<Id, Stats>, players: seq<Player>): (r: Rankings)
    requires forall y :: y in IdOrder(players) ==> y in st
    ensures var w := WithStats(st, IdOrder(players));
      && RankedBy(r.mostPoints, w, PointsKey)
      && RankedBy(r.leastPointsAgainst, w, DefenseKey)
      && RankedBy(r.mostPointsInMatch, w, MatchKey)
      && RankedBy(r.biggestEloSwing, w, SwingKey)
      && RankedBy(r.biggestLoser, w, LossKey)
      && RankedBy(r.winningStreak, w, StreakKey)
      && RankedBy(r.giantKiller, w, GiantKey)
      && RankedBy(r.socialButterfly, w, SocialKey)
    ensures multiset(r.highestElo) == multiset(players) && SortedDesc(r.highestElo, EloKey)
  {
    var w := WithStats(st, IdOrder(players));
    Rankings(SortDesc(w, PointsKey), SortDesc(players, EloKey), SortDesc(w, DefenseKey),
             SortDesc(w, MatchKey), SortDesc(w, SwingKey), SortDesc(w, LossKey),
             SortDesc(w, StreakKey), SortDesc(w, GiantKey), SortDesc(w, SocialKey))
  }

  /** Ties keep the input order: every list's head is the earliest record
      of `WithStats` (or, for `highestElo`, of `players`) with the best
      key. */
  lemma RankHeads(st: map<Id, Stats>, players: seq<Player>)
    requires forall y :: y in IdOrder(players) ==> y in st
    ensures var r := Rank(st, players);
      var w := WithStats(st, IdOrder(players));
      w != [] ==>
        && r.mostPoints[0] == w[FirstMaxIndex(w, PointsKey)]
        && r.leastPointsAgainst[0] == w[FirstMaxIndex(w, DefenseKey)]
        && r.mostPointsInMatch[0] == w[FirstMaxIndex(w, MatchKey)]
        && r.biggestEloSwing[0] == w[FirstMaxIndex(w, SwingKey)]
        && r.biggestLoser[0] == w[FirstMaxIndex(w, LossKey)]
        && r.winningStreak[0] == w[FirstMaxIndex(w, StreakKey)]
        && r.giantKiller[0] == w[FirstMaxIndex(w, GiantKey)]
        && r.socialButterfly[0] == w[FirstMaxIndex(w, SocialKey)]
    ensures players != [] ==> Rank(st, players).highestElo[0] == players[FirstMaxIndex(players, EloKey)]
  {
    var w := WithStats(st, IdOrder(players));
    if w != [] {
      SortDescHead(w, PointsKey);
      SortDescHead(w, DefenseKey);
      SortDescHead(w, MatchKey);
      SortDescHead(w, SwingKey);
      SortDescHead(w, LossKey);
      SortDescHead(w, StreakKey);
      SortDescHead(w, GiantKey);
      SortDescHead(w, SocialKey);
    }
    if players != [] {
      SortDescHead(players, EloKey);
    }
  }

  predicate AllActive(l: seq<Stats>) {
    forall s :: s in l ==> |s.pointsAgainst| > 0
  }

  lemma SameMembers<T>(l: seq<T>, w: seq<T>, x: T)
    requires multiset(l) == multiset(w)
    ensures x in l <==> x in w
  {
    assert x in l <==> x in multiset(l);
    assert x in w <==> x in multiset(w);
  }

  lemma ActiveCopy(l: seq<Stats>, w: seq<Stats>)
    requires multiset(l) == multiset(w) && AllActive(w)
    ensures AllActive(l)
  {
    forall s | s in l ensures |s.pointsAgainst| > 0 {
      SameMembers(l, w, s);
    }
  }

  /** A player without a processed match appears in none of the eight lists
      over active players, while `highestElo` lists every player. */
  lemma RankedAreActive(st: map<Id, Stats>, players: seq<Player>)
    requires forall z :: z in IdOrder(players) ==> z in st
    ensures var r := Rank(st, players);
      && AllActive(r.mostPoints) && AllActive(r.leastPointsAgainst)
      && AllActive(r.mostPointsInMatch) && AllActive(r.biggestEloSwing)
      && AllActive(r.biggestLoser) && AllActive(r.winningStreak)
      && AllActive(r.giantKiller) && AllActive(r.socialButterfly)
    ensures forall p :: p in players ==> p in Rank(st, players).highestElo
  {
    var r := Rank(st, players);
    var w := WithStats(st, IdOrder(players));
    ActiveCopy(r.mostPoints, w);
    ActiveCopy(r.leastPointsAgainst, w);
    ActiveCopy(r.mostPointsInMatch, w);
    ActiveCopy(r.biggestEloSwing, w);
    ActiveCopy(r.biggestLoser, w);
    ActiveCopy(r.winningStreak, w);
    ActiveCopy(r.giantKiller, w);
    ActiveCopy(r.socialButterfly, w);
    forall p | p in players ensures p in r.highestElo {
      SameMembers(r.highestElo, players, p);
    }
  }
}
