/** components/AddPlayerDialog.jsx: the dialog that adds a player.  Its
    name checks are the ones of the leaderboard's player form
    (`Leaderboard.NameRejection`); what `onSubmit` does with the name is the
    caller's, so its outcome is a `Result` the caller supplies. */
module AddPlayerDialog {
  import opened Wrappers
  import opened Text
  import opened Domain
  import Leaderboard

  /** `confirmDisabled={!newPlayerName.trim()}`. */
  function ConfirmDisabled(name: string): (d: bool)
    ensures d <==> forall i :: 0 <= i < |name| ==> IsWhite(name[i])
  {
    BlankIffAllWhite(name);
    IsBlank(name)
  }

  /** The confirm button is disabled exactly for the names the submit
      handler refuses as empty; every other refusal is a taken name. */
  lemma DisabledIffEmptyRefusal(players: seq<Player>, name: string)
    ensures ConfirmDisabled(name) <==> Leaderboard.NameRejection(players, name) == Some(Leaderboard.EmptyName)
    ensures !ConfirmDisabled(name) && Leaderboard.NameRejection(players, name).Some? ==>
      Leaderboard.NameRejection(players, name) == Some(Leaderboard.Taken(Trim(name)))
  {
    var t := Leaderboard.Taken(Trim(name));
    assert t[12] == '"';
    assert Leaderboard.EmptyName[12] == 'c';
  }

  class AddPlayerDialog {
    var newPlayerName: string
    var errorMsg: string

    /** The initial `useState` values. */
    constructor ()
      ensures newPlayerName == "" && errorMsg == ""
    {
      newPlayerName := "";
      errorMsg := "";
    }

    /** `handleClose`: asks the owner to close (`closed`) and clears the
        name and the error. */
    method HandleClose() returns (closed: bool)
      modifies this
      ensures closed && newPlayerName == "" && errorMsg == ""
    {
      closed := true;
      newPlayerName := "";
      errorMsg := "";
    }

    /** `handleSubmit`: the checks of `Leaderboard.NameRejection`; an
        accepted name is sent trimmed.  Success clears the name and closes
        the dialog; a failure shows its message and keeps the name. */
    method HandleSubmit(players: seq<Player>, response: Result<()>) returns (sent: Option<string>, closed: bool)
      modifies this
      ensures var rejected := Leaderboard.NameRejection(players, old(newPlayerName));
        rejected.Some? ==> sent.None? && !closed && errorMsg == rejected.value && newPlayerName == old(newPlayerName)
      ensures Leaderboard.NameRejection(players, old(newPlayerName)).None? ==>
        && sent == Some(Trim(old(newPlayerName)))
        && (response.Success? ==> closed && newPlayerName == "" && errorMsg == "")
        && (response.Failure? ==> !closed && errorMsg == response.error && newPlayerName == old(newPlayerName))
    {
      closed := false;
      var name := newPlayerName;
      if IsBlank(name) {
        errorMsg := Leaderboard.EmptyName;
        return None, false;
      }
      if FindByName(players, Trim(name)).Some? {
        errorMsg := Leaderboard.Taken(Trim(name));
        return None, false;
      }
      errorMsg := "";
      sent := Some(Trim(name));
      match response {
        case Failure(message) =>
          errorMsg := message;
        case Success(_) =>
          newPlayerName := "";
          closed := HandleClose();
      }
    }
  }
}
