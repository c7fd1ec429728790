/** components/AddMatchDialog.jsx: the dialog that records a match.  It
    sends the two players, the scores and the winner, and no rating
    change; what `onSubmit` does with it is the caller's, so its outcome
    is a `Result` the caller supplies. */
module AddMatchDialog {
  import opened Wrappers
  import opened Domain
  import opened Rating

  /** The messages the dialog shows. */
  const MissingPlayer: string := "Please select both players"
  const SamePlayer: string := "Cannot play against yourself"
  const TiedScores: string := "Scores cannot be tied - someone must win!"

  /** `canSubmitMatch`: both players selected, two different players, and
      some score above 0. */
  predicate CanSubmit(p1: Id, p2: Id, s1: int, s2: int) {
    p1 != "" && p2 != "" && p1 != p2 && (s1 > 0 || s2 > 0)
  }

  /** The checks of `handleSubmit`, in their order: both players selected,
      two different players, no tie. */
  function Rejection(p1: Id, p2: Id, s1: int, s2: int): (r: Option<string>)
    ensures p1 == "" || p2 == "" ==> r == Some(MissingPlayer)
    ensures p1 != "" && p2 != "" && p1 == p2 ==> r == Some(SamePlayer)
    ensures p1 != "" && p2 != "" && p1 != p2 && s1 == s2 ==> r == Some(TiedScores)
    ensures r.None? <==> p1 != "" && p2 != "" && p1 != p2 && s1 != s2
  {
    if p1 == "" || p2 == "" then Some(MissingPlayer)
    else if p1 == p2 then Some(SamePlayer)
    else if s1 == s2 then Some(TiedScores)
    else None
  }

  /** A submitted match names one of its two players as the winner, and
      that player scored strictly more than the other. */
  lemma AcceptedWinner(p1: Id, p2: Id, s1: int, s2: int)
    requires Rejection(p1, p2, s1, s2).None?
    ensures var w := WinnerOf(p1, p2, s1, s2);
      && (w == p1 || w == p2)
      && (w == p1 ==> s1 > s2)
      && (w == p2 ==> s2 > s1)
  {
  }

  /** The enabled button does not rule out a tie: a tied score above 0
      between two players is enabled and then refused by `handleSubmit`. */
  lemma TieEnabledThenRefused(p1: Id, p2: Id, s: int)
    requires p1 != "" && p2 != "" && p1 != p2 && s > 0
    ensures CanSubmit(p1, p2, s, s)
    ensures Rejection(p1, p2, s, s) == Some(TiedScores)
  {
  }

  class AddMatchDialog {
    var player1Id: Id
    var player2Id: Id
    var player1Score: int
    var player2Score: int
    var errorMsg: string

    /** The initial `useState` values. */
    constructor ()
      ensures player1Id == "" && player2Id == "" && player1Score == 0 && player2Score == 0 && errorMsg == ""
    {
      player1Id := "";
      player2Id := "";
      player1Score := 0;
      player2Score := 0;
      errorMsg := "";
    }

    /** `handleClose`: asks the owner to close (`closed`) and resets both
        selections, both scores and the error. */
    method HandleClose() returns (closed: bool)
      modifies this
      ensures closed
      ensures player1Id == "" && player2Id == "" && player1Score == 0 && player2Score == 0 && errorMsg == ""
    {
      closed := true;
      player1Id := "";
      player2Id := "";
      player1Score := 0;
      player2Score := 0;
      errorMsg := "";
    }

    /** `handleSubmit`: the checks of `Rejection`; an accepted match is
        sent with the strictly higher scorer as winner.  Success closes and
        resets the dialog; a failure shows its message and keeps the
        form open and filled. */
    method HandleSubmit(response: Result<()>) returns (sent: Option<Submission>, closed: bool)
      modifies this
      ensures var rejected := Rejection(old(player1Id), old(player2Id), old(player1Score), old(player2Score));
        rejected.Some? ==>
          && sent.None? && !closed && errorMsg == rejected.value
          && player1Id == old(player1Id) && player2Id == old(player2Id)
          && player1Score == old(player1Score) && player2Score == old(player2Score)
      ensures Rejection(old(player1Id), old(player2Id), old(player1Score), old(player2Score)).None? ==>
        && sent == Some(Submission(old(player1Id), old(player2Id), old(player1Score), old(player2Score),
                                   WinnerOf(old(player1Id), old(player2Id), old(player1Score), old(player2Score)),
                                   None, None, None))
        && (response.Success? ==>
              && closed
              && player1Id == "" && player2Id == "" && player1Score == 0 && player2Score == 0 && errorMsg == "")
        && (response.Failure? ==>
              && !closed && errorMsg == response.error
              && player1Id == old(player1Id) && player2Id == old(player2Id)
              && player1Score == old(player1Score) && player2Score == old(player2Score))
    {
      closed := false;
      if player1Id == "" || player2Id == "" {
        errorMsg := MissingPlayer;
        return None, false;
      }
      if player1Id == player2Id {
        errorMsg := SamePlayer;
        return None, false;
      }
      if player1Score == player2Score {
        errorMsg := TiedScores;
        return None, false;
      }
      errorMsg := "";
      sent := Some(Submission(player1Id, player2Id, player1Score, player2Score,
                              WinnerOf(player1Id, player2Id, player1Score, player2Score), None, None, None));
      match response {
        case Failure(message) =>
          errorMsg := message;
        case Success(_) =>
          closed := HandleClose();
      }
    }
  }
}
