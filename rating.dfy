/** The rating update the match forms share (components/Scoreboard.jsx and
    components/Leaderboard.jsx): the actual score that feeds the rating
    formula, the winner a submission names, and the update of the players'
    counters and ratings after a match.

    The expected-score formula `1 / (1 + 10^((rB - rA) / 400))` and the
    rounding of `32 * (actual - expected)` are floating point; the model
    takes the resulting change as a function `delta(ratingA, ratingB,
    actualHalves)` supplied by the caller. */
module Rating {
  import opened Wrappers
  import opened Domain

  /** `delta(ratingA, ratingB, actualHalves)`: the rounded rating change of
      the first player for an actual score of `actualHalves / 2`. */
  type Delta = (int, int, nat) -> int

  /** `scoreA > scoreB ? 1 : scoreA === scoreB ? 0.5 : 0`, counted in
      halves. */
  function ActualHalves(scoreA: int, scoreB: int): (h: nat)
    ensures h <= 2
    ensures h == 2 <==> scoreA > scoreB
    ensures h == 1 <==> scoreA == scoreB
    ensures h == 0 <==> scoreA < scoreB
  {
    if scoreA > scoreB then 2 else if scoreA == scoreB then 1 else 0
  }

  /** The two players' actual scores add up to one whole point. */
  lemma ActualComplement(scoreA: int, scoreB: int)
    ensures ActualHalves(scoreA, scoreB) + ActualHalves(scoreB, scoreA) == 2
  {
  }

  /** `calculateEloChange(player1.elo_rating, player2.elo_rating, s1, s2)`. */
  function EloChange(delta: Delta, ratingA: int, ratingB: int, scoreA: int, scoreB: int): int {
    delta(ratingA, ratingB, ActualHalves(scoreA, scoreB))
  }

  /** `player1Score > player2Score ? player1Id : player2Id`. */
  function WinnerOf(p1: Id, p2: Id, s1: int, s2: int): (w: Id)
    ensures w == p1 || w == p2
  {
    if s1 > s2 then p1 else p2
  }

  /** The winner is player 1 exactly when they scored strictly more; a tie
      names player 2. */
  lemma WinnerRule(p1: Id, p2: Id, s1: int, s2: int)
    requires p1 != p2
    ensures WinnerOf(p1, p2, s1, s2) == p1 <==> s1 > s2
    ensures s1 == s2 ==> WinnerOf(p1, p2, s1, s2) == p2
  {
  }

  /** The record a match request carries. */
  datatype Submission = Submission(
    p1: Id, p2: Id, s1: int, s2: int, winner: Id,
    c1: Option<int>, c2: Option<int>, playedAt: Option<int>)

  /** `matches_played == matches_won + matches_lost`. */
  predicate Balanced(p: Player) {
    p.played == p.won + p.lost
  }

  /** One participant's record after the match: the rating moves by its
      change, one more match played, and one more win or loss. */
  function Credit(p: Player, change: int, winner: Id): Player {
    p.(elo := p.elo + change, played := p.played + 1,
       won := if p.id == winner then p.won + 1 else p.won,
       lost := if p.id != winner then p.lost + 1 else p.lost)
  }

  /** The `prev.map(p => ...)` step for one player: player 1's id is tested
      first. */
  function Updated(p: Player, p1: Id, p2: Id, winner: Id, c1: int, c2: int): Player {
    if p.id == p1 then Credit(p, c1, winner)
    else if p.id == p2 then Credit(p, c2, winner)
    else p
  }

  /** `setPlayers(prev => prev.map(...))`. */
  function ApplyMatch(ps: seq<Player>, p1: Id, p2: Id, winner: Id, c1: int, c2: int): (r: seq<Player>)
    ensures |r| == |ps|
    ensures forall i {:trigger r[i]} :: 0 <= i < |ps| ==> r[i] == Updated(ps[i], p1, p2, winner, c1, c2)
  {
    if ps == [] then [] else [Updated(ps[0], p1, p2, winner, c1, c2)] + ApplyMatch(ps[1..], p1, p2, winner, c1, c2)
  }

  /** What the update does to each player: a participant plays one more
      match, the winner wins one more, the other participant loses one
      more, its rating moves by its own change; everybody else is
      unchanged; ids and names never change and a balanced record stays
      balanced. */
  lemma ApplyMatchEffect(ps: seq<Player>, p1: Id, p2: Id, winner: Id, c1: int, c2: int, i: nat)
    requires i < |ps|
    ensures var q := ApplyMatch(ps, p1, p2, winner, c1, c2)[i];
      var p := ps[i];
      && q.id == p.id && q.name == p.name
      && (p.id != p1 && p.id != p2 ==> q == p)
      && (p.id == p1 || p.id == p2 ==>
            q.played == p.played + 1
            && (p.id == winner ==> q.won == p.won + 1 && q.lost == p.lost)
            && (p.id != winner ==> q.won == p.won && q.lost == p.lost + 1))
      && (p.id == p1 ==> q.elo == p.elo + c1)
      && (p.id == p2 && p.id != p1 ==> q.elo == p.elo + c2)
      && (Balanced(p) ==> Balanced(q))
  {
  }

  function SumElo(ps: seq<Player>): int {
    if ps == [] then 0 else ps[0].elo + SumElo(ps[1..])
  }

  /** How many records carry `id`. */
  function CountId(ps: seq<Player>, id: Id): nat {
    if ps == [] then 0 else (if ps[0].id == id then 1 else 0) + CountId(ps[1..], id)
  }

  /** One record's part in the sum: its rating moves by the change of
      the participant it is. */
  lemma UpdatedElo(p: Player, p1: Id, p2: Id, winner: Id, c1: int, c2: int, k1: int, k2: int)
    requires p1 != p2
    ensures Updated(p, p1, p2, winner, c1, c2).elo + c1 * k1 + c2 * k2
         == p.elo + c1 * ((if p.id == p1 then 1 else 0) + k1) + c2 * ((if p.id == p2 then 1 else 0) + k2)
  {
  }

  /** The ratings move by each change once per record of its player. */
  lemma {:induction false} SumEloAfter(ps: seq<Player>, p1: Id, p2: Id, winner: Id, c1: int, c2: int)
    requires p1 != p2
    ensures SumElo(ApplyMatch(ps, p1, p2, winner, c1, c2))
         == SumElo(ps) + c1 * CountId(ps, p1) + c2 * CountId(ps, p2)
  {
    if ps != [] {
      var after := ApplyMatch(ps, p1, p2, winner, c1, c2);
      var rest := ApplyMatch(ps[1..], p1, p2, winner, c1, c2);
      assert after[1..] == rest;
      SumEloAfter(ps[1..], p1, p2, winner, c1, c2);
      UpdatedElo(ps[0], p1, p2, winner, c1, c2, CountId(ps[1..], p1), CountId(ps[1..], p2));
    }
  }

  /** Zero sum: with each player listed once and player 2's change the
      negation of player 1's, a match leaves the sum of all ratings
      unchanged. */
  lemma ZeroSum(ps: seq<Player>, p1: Id, p2: Id, winner: Id, c1: int)
    requires p1 != p2
    requires CountId(ps, p1) == 1 && CountId(ps, p2) == 1
    ensures SumElo(ApplyMatch(ps, p1, p2, winner, c1, -c1)) == SumElo(ps)
  {
    SumEloAfter(ps, p1, p2, winner, c1, -c1);
  }
}
