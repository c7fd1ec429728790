/** components/Scoreboard.jsx: the stand-alone scoreboard form.  It keeps
    its own copies of the players and matches, checks a match before
    sending it, and on success applies the rating update locally.  The
    network calls are replaced by their outcome, a `Result` the caller
    supplies: `Failure(message)` is the error the `catch` block receives. */
module Scoreboard {
  import opened Wrappers
  import opened Text
  import opened Domain
  import opened Sorting
  import opened Rating

  /** The messages the form shows. */
  const NotTwoPlayers: string := "Select two different players"
  const NegativeScore: string := "Scores cannot be negative"
  const UnknownPlayer: string := "Invalid players selected"
  const EmptyName: string := "Player name cannot be empty"

  function CreatedKey(m: Match): real { m.createdAt.instant as real }

  /** `data.sort((a, b) => new Date(b.created_at) - new Date(a.created_at))`:
      the same matches, newest `created_at` first, ties in fetched order. */
  function ByCreated(ms: seq<Match>): (r: seq<Match>)
    ensures multiset(r) == multiset(ms)
    ensures forall i, j :: 0 <= i < j < |r| ==> r[i].createdAt.instant >= r[j].createdAt.instant
  {
    SortDesc(ms, CreatedKey)
  }

  /** The checks `addMatch` makes before sending, in their order: two
      different selected players, then no negative score, then both
      players known.  `None` means the match is sent. */
  function Rejection(players: seq<Player>, p1: Id, p2: Id, s1: int, s2: int): (r: Option<string>)
    ensures r == Some(NotTwoPlayers) <==> p1 == "" || p2 == "" || p1 == p2
    ensures r == Some(NegativeScore) <==>
      p1 != "" && p2 != "" && p1 != p2 && (s1 < 0 || s2 < 0)
    ensures r == Some(UnknownPlayer) <==>
      p1 != "" && p2 != "" && p1 != p2 && s1 >= 0 && s2 >= 0
      && (FindPlayer(players, p1).None? || FindPlayer(players, p2).None?)
    ensures r.None? <==>
      p1 != "" && p2 != "" && p1 != p2 && s1 >= 0 && s2 >= 0
      && FindPlayer(players, p1).Some? && FindPlayer(players, p2).Some?
  {
    if p1 == "" || p2 == "" || p1 == p2 then Some(NotTwoPlayers)
    else if s1 < 0 || s2 < 0 then Some(NegativeScore)
    else if FindPlayer(players, p1).None? || FindPlayer(players, p2).None? then Some(UnknownPlayer)
    else None
  }

  /** A tie between two known players is sent, with an actual score of one
      half and player 2 named the winner. */
  lemma TieAccepted(players: seq<Player>, p1: Id, p2: Id, s: int)
    requires p1 != "" && p2 != "" && p1 != p2 && s >= 0
    requires FindPlayer(players, p1).Some? && FindPlayer(players, p2).Some?
    ensures Rejection(players, p1, p2, s, s).None?
    ensures ActualHalves(s, s) == 1
    ensures WinnerOf(p1, p2, s, s) == p2
  {
  }

  /** A match the form accepts updates a roster that lists every player
      once without changing the sum of the ratings, and keeps every
      balanced record balanced. */
  lemma AcceptedUpdate(players: seq<Player>, p1: Id, p2: Id, s1: int, s2: int, c1: int)
    requires Rejection(players, p1, p2, s1, s2).None?
    requires CountId(players, p1) == 1 && CountId(players, p2) == 1
    ensures var after := ApplyMatch(players, p1, p2, WinnerOf(p1, p2, s1, s2), c1, -c1);
      && SumElo(after) == SumElo(players)
      && forall i :: 0 <= i < |players| && Balanced(players[i]) ==> Balanced(after[i])
  {
    var w := WinnerOf(p1, p2, s1, s2);
    ZeroSum(players, p1, p2, w, c1);
    forall i | 0 <= i < |players| && Balanced(players[i])
      ensures Balanced(ApplyMatch(players, p1, p2, w, c1, -c1)[i])
    {
      ApplyMatchEffect(players, p1, p2, w, c1, -c1, i);
    }
  }

  class Scoreboard {
    var players: seq<Player>
    var matches: seq<Match>
    var newPlayerName: string
    var player1Id: Id
    var player2Id: Id
    var player1Score: int
    var player2Score: int
    var errorMsg: string

    /** The initial `useState` values. */
    constructor ()
      ensures players == [] && matches == [] && newPlayerName == ""
      ensures player1Id == "" && player2Id == ""
      ensures player1Score == 0 && player2Score == 0 && errorMsg == ""
    {
      players := [];
      matches := [];
      newPlayerName := "";
      player1Id := "";
      player2Id := "";
      player1Score := 0;
      player2Score := 0;
      errorMsg := "";
    }

    /** `fetchPlayers`: the fetched list replaces the players and fills an
        empty selection with the first (player 1) or second (player 2)
        fetched player; a failure, or an answer that is not a list, leaves
        no players. */
    method FetchPlayers(response: Result<seq<Player>>)
      modifies this
      ensures response.Failure? ==> players == [] && player1Id == old(player1Id) && player2Id == old(player2Id)
      ensures response.Success? ==>
        && players == response.value
        && player1Id == (if |response.value| > 0 && old(player1Id) == "" then response.value[0].id else old(player1Id))
        && player2Id == (if |response.value| > 1 && old(player2Id) == "" then response.value[1].id else old(player2Id))
      ensures matches == old(matches) && newPlayerName == old(newPlayerName) && errorMsg == old(errorMsg)
      ensures player1Score == old(player1Score) && player2Score == old(player2Score)
    {
      match response {
        case Failure(_) =>
          players := [];
        case Success(data) =>
          players := data;
          if |data| > 0 && player1Id == "" {
            player1Id := data[0].id;
          }
          if |data| > 1 && player2Id == "" {
            player2Id := data[1].id;
          }
      }
    }

    /** `fetchMatches`: the fetched matches newest `created_at` first; a
        failure, or an answer that is not a list, leaves no matches. */
    method FetchMatches(response: Result<seq<Match>>)
      modifies this
      ensures response.Failure? ==> matches == []
      ensures response.Success? ==> matches == ByCreated(response.value)
      ensures players == old(players) && newPlayerName == old(newPlayerName) && errorMsg == old(errorMsg)
      ensures player1Id == old(player1Id) && player2Id == old(player2Id)
      ensures player1Score == old(player1Score) && player2Score == old(player2Score)
    {
      match response {
        case Failure(_) =>
          matches := [];
        case Success(data) =>
          matches := ByCreated(data);
      }
    }

    /** `addPlayer`: a blank name is refused; otherwise the trimmed name is
        sent (`sent`), and the player the server returns is appended, the
        name is cleared and the player fills the first empty selection,
        player 1 before player 2.  A failed request shows its message. */
    method AddPlayer(response: Result<Player>) returns (sent: Option<string>)
      modifies this
      ensures IsBlank(old(newPlayerName)) ==>
        && sent.None? && errorMsg == EmptyName
        && players == old(players) && newPlayerName == old(newPlayerName)
        && player1Id == old(player1Id) && player2Id == old(player2Id)
      ensures !IsBlank(old(newPlayerName)) ==> sent == Some(Trim(old(newPlayerName)))
      ensures !IsBlank(old(newPlayerName)) && response.Success? ==>
        && errorMsg == ""
        && players == old(players) + [response.value]
        && newPlayerName == ""
        && player1Id == (if old(player1Id) == "" then response.value.id else old(player1Id))
        && player2Id == (if old(player1Id) != "" && old(player2Id) == "" then response.value.id else old(player2Id))
      ensures !IsBlank(old(newPlayerName)) && response.Failure? ==>
        && errorMsg == response.error
        && players == old(players) && newPlayerName == old(newPlayerName)
        && player1Id == old(player1Id) && player2Id == old(player2Id)
      ensures matches == old(matches) && player1Score == old(player1Score) && player2Score == old(player2Score)
    {
      var name := newPlayerName;
      if IsBlank(name) {
        errorMsg := EmptyName;
        return None;
      }
      errorMsg := "";
      sent := Some(Trim(name));
      match response {
        case Failure(message) =>
          errorMsg := message;
        case Success(added) =>
          Added(added);
      }
    }

    /** The success branch of `addPlayer`: append the player, clear the
        name, and fill the first empty selection. */
    method Added(added: Player)
      modifies this
      ensures players == old(players) + [added] && newPlayerName == ""
      ensures player1Id == (if old(player1Id) == "" then added.id else old(player1Id))
      ensures player2Id == (if old(player1Id) != "" && old(player2Id) == "" then added.id else old(player2Id))
      ensures matches == old(matches) && player1Score == old(player1Score) && player2Score == old(player2Score)
      ensures errorMsg == old(errorMsg)
    {
      players := players + [added];
      newPlayerName := "";
      if player1Id == "" {
        player1Id := added.id;
      } else if player2Id == "" {
        player2Id := added.id;
      }
    }

    /** `addMatch`: the checks of `Rejection` in order; an accepted match
        is sent with player 1's change from `delta`, player 2's change its
        negation and the strictly higher scorer (player 2 on a tie) as
        winner.  On success the returned match is put in front, the rating
        update is applied to the local players and both scores go back to
        0; a failed request shows its message and changes nothing else. */
    method AddMatch(delta: Delta, response: Result<Match>) returns (sent: Option<Submission>)
      modifies this
      ensures var rejected := Rejection(old(players), old(player1Id), old(player2Id), old(player1Score), old(player2Score));
        rejected.Some? ==>
          && sent.None? && errorMsg == rejected.value
          && players == old(players) && matches == old(matches)
          && player1Score == old(player1Score) && player2Score == old(player2Score)
      ensures Rejection(old(players), old(player1Id), old(player2Id), old(player1Score), old(player2Score)).None? ==>
        var a := FindPlayer(old(players), old(player1Id)).value;
        var b := FindPlayer(old(players), old(player2Id)).value;
        var c1 := EloChange(delta, a.elo, b.elo, old(player1Score), old(player2Score));
        var w := WinnerOf(old(player1Id), old(player2Id), old(player1Score), old(player2Score));
        && sent == Some(Submission(old(player1Id), old(player2Id), old(player1Score), old(player2Score),
                                   w, Some(c1), Some(-c1), None))
        && (response.Success? ==>
              && errorMsg == ""
              && matches == [response.value] + old(matches)
              && players == ApplyMatch(old(players), old(player1Id), old(player2Id), w, c1, -c1)
              && player1Score == 0 && player2Score == 0)
        && (response.Failure? ==>
              && errorMsg == response.error
              && players == old(players) && matches == old(matches)
              && player1Score == old(player1Score) && player2Score == old(player2Score))
      ensures player1Id == old(player1Id) && player2Id == old(player2Id) && newPlayerName == old(newPlayerName)
    {
      var ps, id1, id2, s1, s2 := players, player1Id, player2Id, player1Score, player2Score;
      if id1 == "" || id2 == "" || id1 == id2 {
        errorMsg := NotTwoPlayers;
        return None;
      }
      if s1 < 0 || s2 < 0 {
        errorMsg := NegativeScore;
        return None;
      }
      errorMsg := "";
      var player1 := FindPlayer(ps, id1);
      var player2 := FindPlayer(ps, id2);
      if player1.None? || player2.None? {
        errorMsg := UnknownPlayer;
        return None;
      }
      var change1 := EloChange(delta, player1.value.elo, player2.value.elo, s1, s2);
      var change2 := -change1;
      var winnerId := WinnerOf(id1, id2, s1, s2);
      sent := Some(Submission(id1, id2, s1, s2, winnerId, Some(change1), Some(change2), None));
      match response {
        case Failure(message) =>
          errorMsg := message;
        case Success(newMatch) =>
          Recorded(newMatch, winnerId, change1, change2);
      }
    }

    /** The success branch of `addMatch`: the new match goes in front, the
        rating update is applied to the local players, and both scores go
        back to 0. */
    method Recorded(newMatch: Match, winnerId: Id, change1: int, change2: int)
      modifies this
      ensures matches == [newMatch] + old(matches)
      ensures players == ApplyMatch(old(players), player1Id, player2Id, winnerId, change1, change2)
      ensures player1Score == 0 && player2Score == 0
      ensures player1Id == old(player1Id) && player2Id == old(player2Id)
      ensures newPlayerName == old(newPlayerName) && errorMsg == old(errorMsg)
    {
      matches := [newMatch] + matches;
      players := ApplyMatch(players, player1Id, player2Id, winnerId, change1, change2);
      player1Score := 0;
      player2Score := 0;
    }
  }
}
