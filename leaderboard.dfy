/** components/Leaderboard.jsx: the main page's match and player forms.
    The players come from the shared data store; adding a match or a
    player goes through the store, whose outcome the caller supplies as a
    `Result` (`Failure(message)` is the error the `catch` block receives). */
module Leaderboard {
  import opened Wrappers
  import opened Text
  import opened Domain
  import opened Rating

  /** The messages the forms show. */
  const ElevenRule: string := "At least one player must score 11 or more points to win a match"
  const UnknownPlayer: string := "Invalid players selected"
  const EmptyName: string := "Player name cannot be empty"

  /** `Player name "${name}" is already taken`. */
  function Taken(name: string): string {
    "Player name \"" + name + "\" is already taken"
  }

  /** `canSubmitMatch`: both players selected, two different players, and
      at least one score of 11 or more. */
  function CanSubmit(p1: Id, p2: Id, s1: int, s2: int): (ok: bool)
    ensures ok <==> p1 != "" && p2 != "" && p1 != p2 && (s1 >= 11 || s2 >= 11)
  {
    if p1 == "" || p2 == "" then false
    else if p1 == p2 then false
    else if s1 < 11 && s2 < 11 then false
    else true
  }

  /** The checks `handleAddMatch` makes before sending, in their order: the
      11-point rule, then both players known.  The form itself does not
      compare the two ids. */
  function MatchRejection(players: seq<Player>, p1: Id, p2: Id, s1: int, s2: int): (r: Option<string>)
    ensures s1 < 11 && s2 < 11 ==> r == Some(ElevenRule)
    ensures (s1 >= 11 || s2 >= 11) && (FindPlayer(players, p1).None? || FindPlayer(players, p2).None?) ==>
      r == Some(UnknownPlayer)
    ensures r.None? <==>
      (s1 >= 11 || s2 >= 11) && FindPlayer(players, p1).Some? && FindPlayer(players, p2).Some?
  {
    if s1 < 11 && s2 < 11 then Some(ElevenRule)
    else if FindPlayer(players, p1).None? || FindPlayer(players, p2).None? then Some(UnknownPlayer)
    else None
  }

  /** An 11-11 tie between two different known players can be submitted
      and passes the checks; it counts as a draw for the rating and names
      player 2 the winner. */
  lemma ElevenAllAccepted(players: seq<Player>, p1: Id, p2: Id)
    requires p1 != "" && p2 != "" && p1 != p2
    requires FindPlayer(players, p1).Some? && FindPlayer(players, p2).Some?
    ensures CanSubmit(p1, p2, 11, 11)
    ensures MatchRejection(players, p1, p2, 11, 11).None?
    ensures ActualHalves(11, 11) == 1 && WinnerOf(p1, p2, 11, 11) == p2
  {
  }

  /** Only the disabled button stops a match of a player against
      themselves: the checks in `handleAddMatch` let it through. */
  lemma SelfMatchOnlyDisabled(players: seq<Player>, p: Id, s1: int, s2: int)
    requires p != "" && FindPlayer(players, p).Some? && (s1 >= 11 || s2 >= 11)
    ensures !CanSubmit(p, p, s1, s2)
    ensures MatchRejection(players, p, p, s1, s2).None?
  {
  }

  /** Whatever the button allows passes the 11-point rule. */
  lemma SubmittableMeetsElevenRule(players: seq<Player>, p1: Id, p2: Id, s1: int, s2: int)
    requires CanSubmit(p1, p2, s1, s2)
    ensures MatchRejection(players, p1, p2, s1, s2) != Some(ElevenRule)
  {
  }

  /** The name checks of `handleAddPlayer` (and of the add-player dialog),
      in their order: not blank, then no existing player with the same
      name ignoring case, compared with the trimmed name. */
  function NameRejection(players: seq<Player>, name: string): (r: Option<string>)
    ensures IsBlank(name) ==> r == Some(EmptyName)
    ensures !IsBlank(name) && FindByName(players, Trim(name)).Some? ==> r == Some(Taken(Trim(name)))
    ensures r.None? <==> !IsBlank(name) && FindByName(players, Trim(name)).None?
  {
    if IsBlank(name) then Some(EmptyName)
    else if FindByName(players, Trim(name)).Some? then Some(Taken(Trim(name)))
    else None
  }

  /** No two players whose names agree ignoring case. */
  predicate DistinctNames(ps: seq<Player>) {
    forall i, j :: 0 <= i < j < |ps| ==> ToLower(ps[i].name) != ToLower(ps[j].name)
  }

  /** Adding a player under an accepted name, stored trimmed, keeps the
      names distinct ignoring case. */
  lemma AcceptedNameKeepsDistinct(ps: seq<Player>, name: string, added: Player)
    requires DistinctNames(ps)
    requires NameRejection(ps, name).None?
    requires added.name == Trim(name)
    ensures DistinctNames(ps + [added])
  {
    var qs := ps + [added];
    forall i, j | 0 <= i < j < |qs| ensures ToLower(qs[i].name) != ToLower(qs[j].name) {
      if j == |ps| {
        assert qs[i] == ps[i];
      } else {
        assert qs[i] == ps[i] && qs[j] == ps[j];
      }
    }
  }

  /** The accepted name is the trimmed input: not empty, and neither
      beginning nor ending with white space. */
  lemma AcceptedNameTrimmed(ps: seq<Player>, name: string)
    requires NameRejection(ps, name).None?
    ensures Trim(name) != [] && Trimmed(Trim(name))
  {
  }

  class Leaderboard {
    var newPlayerName: string
    var player1Id: Id
    var player2Id: Id
    var player1Score: int
    var player2Score: int
    var errorMsg: string

    /** The initial `useState` values. */
    constructor ()
      ensures newPlayerName == "" && player1Id == "" && player2Id == ""
      ensures player1Score == 0 && player2Score == 0 && errorMsg == ""
    {
      newPlayerName := "";
      player1Id := "";
      player2Id := "";
      player1Score := 0;
      player2Score := 0;
      errorMsg := "";
    }

    /** `canSubmitMatch()` on the current form. */
    predicate Submittable()
      reads this
    {
      CanSubmit(player1Id, player2Id, player1Score, player2Score)
    }

    /** `handleAddMatch`: the error is cleared, then the checks of
        `MatchRejection`; an accepted match is sent with player 1's change
        from `delta`, its negation for player 2, the strictly higher scorer
        (player 2 on a tie) as winner and `now` as the time it was played.
        Success resets both scores to 0 and both selections to empty; a
        failure shows its message and keeps the form. */
    method HandleAddMatch(players: seq<Player>, delta: Delta, now: int, response: Result<Match>)
      returns (sent: Option<Submission>)
      modifies this
      ensures var rejected := MatchRejection(players, old(player1Id), old(player2Id), old(player1Score), old(player2Score));
        rejected.Some? ==>
          && sent.None? && errorMsg == rejected.value
          && player1Id == old(player1Id) && player2Id == old(player2Id)
          && player1Score == old(player1Score) && player2Score == old(player2Score)
      ensures MatchRejection(players, old(player1Id), old(player2Id), old(player1Score), old(player2Score)).None? ==>
        var a := FindPlayer(players, old(player1Id)).value;
        var b := FindPlayer(players, old(player2Id)).value;
        var c1 := EloChange(delta, a.elo, b.elo, old(player1Score), old(player2Score));
        && sent == Some(Submission(old(player1Id), old(player2Id), old(player1Score), old(player2Score),
                                   WinnerOf(old(player1Id), old(player2Id), old(player1Score), old(player2Score)),
                                   Some(c1), Some(-c1), Some(now)))
        && (response.Success? ==>
              && errorMsg == ""
              && player1Id == "" && player2Id == ""
              && player1Score == 0 && player2Score == 0)
        && (response.Failure? ==>
              && errorMsg == response.error
              && player1Id == old(player1Id) && player2Id == old(player2Id)
              && player1Score == old(player1Score) && player2Score == old(player2Score))
      ensures newPlayerName == old(newPlayerName)
    {
      errorMsg := "";
      if player1Score < 11 && player2Score < 11 {
        errorMsg := ElevenRule;
        return None;
      }
      var player1 := FindPlayer(players, player1Id);
      var player2 := FindPlayer(players, player2Id);
      if player1.None? || player2.None? {
        errorMsg := UnknownPlayer;
        return None;
      }
      var change1 := EloChange(delta, player1.value.elo, player2.value.elo, player1Score, player2Score);
      var change2 := -change1;
      var winnerId := WinnerOf(player1Id, player2Id, player1Score, player2Score);
      sent := Some(Submission(player1Id, player2Id, player1Score, player2Score, winnerId,
                              Some(change1), Some(change2), Some(now)));
      match response {
        case Failure(message) =>
          errorMsg := message;
        case Success(_) =>
          player1Score := 0;
          player2Score := 0;
          player1Id := "";
          player2Id := "";
      }
    }

    /** `handleAddPlayer`: the checks of `NameRejection`; an accepted name
        is sent trimmed.  Success clears the name; a failure shows its
        message and keeps the name. */
    method HandleAddPlayer(players: seq<Player>, response: Result<Player>) returns (sent: Option<string>)
      modifies this
      ensures var rejected := NameRejection(players, old(newPlayerName));
        rejected.Some? ==> sent.None? && errorMsg == rejected.value && newPlayerName == old(newPlayerName)
      ensures NameRejection(players, old(newPlayerName)).None? ==>
        && sent == Some(Trim(old(newPlayerName)))
        && (response.Success? ==> errorMsg == "" && newPlayerName == "")
        && (response.Failure? ==> errorMsg == response.error && newPlayerName == old(newPlayerName))
      ensures player1Id == old(player1Id) && player2Id == old(player2Id)
      ensures player1Score == old(player1Score) && player2Score == old(player2Score)
    {
      var name := newPlayerName;
      if IsBlank(name) {
        errorMsg := EmptyName;
        return None;
      }
      if FindByName(players, Trim(name)).Some? {
        errorMsg := Taken(Trim(name));
        return None;
      }
      sent := Some(Trim(name));
      PlayerAnswered(response);
    }

    /** The request of `handleAddPlayer`: success clears the error and the
        name, a failure shows its message. */
    method PlayerAnswered(response: Result<Player>)
      modifies this
      ensures response.Success? ==> errorMsg == "" && newPlayerName == ""
      ensures response.Failure? ==> errorMsg == response.error && newPlayerName == old(newPlayerName)
      ensures player1Id == old(player1Id) && player2Id == old(player2Id)
      ensures player1Score == old(player1Score) && player2Score == old(player2Score)
    {
      errorMsg := "";
      match response {
        case Failure(message) =>
          errorMsg := message;
        case Success(_) =>
          newPlayerName := "";
      }
    }
  }
}
