/** pages/api/players.js: the players endpoint.  Listing the players and
    inserting one are database calls and stay outside the model; what is
    modelled is which request gets which answer and the record a valid
    POST inserts. */
module PlayersApi {
  import opened Text
  import opened Domain
  import opened Rating
  import Leaderboard

  /** The `name` field of a request body: absent, a string, or a JSON
      value of another type. */
  datatype NameField = Missing | Text(s: string) | NotText

  /** The record a POST inserts; the database adds the id. */
  datatype NewPlayer = NewPlayer(name: string, elo: int, played: int, won: int, lost: int)

  /** The answer before any database call: list the players (200), refuse
      the body (400), insert a player (201), or refuse the method (405). */
  datatype Answer = ListPlayers | BadRequest | Insert(row: NewPlayer) | NotAllowed

  /** `!name || typeof name !== 'string' || name.trim().length === 0`. */
  predicate Invalid(name: NameField) {
    !name.Text? || IsBlank(name.s)
  }

  /** `handler(req, res)` for the request method `verb` and body field
      `name`, up to the database call. */
  function Handle(verb: string, name: NameField): (a: Answer)
    ensures a == ListPlayers <==> verb == "GET"
    ensures a == NotAllowed <==> verb != "GET" && verb != "POST"
    ensures a == BadRequest <==> verb == "POST" && Invalid(name)
    ensures a.Insert? <==> verb == "POST" && !Invalid(name)
    ensures a.Insert? ==> a.row == NewPlayer(Trim(name.s), 1000, 0, 0, 0)
  {
    if verb == "GET" then ListPlayers
    else if verb == "POST" then
      if Invalid(name) then BadRequest
      else Insert(NewPlayer(Trim(name.s), 1000, 0, 0, 0))
    else NotAllowed
  }

  /** The player row the database returns for an inserted record. */
  function Stored(id: Id, row: NewPlayer): Player {
    Player(id, row.name, row.elo, row.played, row.won, row.lost)
  }

  /** A created player has a non-empty name with no white space at either
      end, the starting rating 1000, and a balanced record. */
  lemma CreatedPlayer(name: NameField, id: Id)
    requires Handle("POST", name).Insert?
    ensures var p := Stored(id, Handle("POST", name).row);
      && p.name != [] && Trimmed(p.name)
      && p.elo == 1000 && p.played == 0 && Balanced(p)
  {
  }

  /** A name the player form accepts, sent trimmed, is stored exactly as
      sent. */
  lemma FormNameStored(players: seq<Player>, name: string)
    requires Leaderboard.NameRejection(players, name).None?
    ensures Handle("POST", Text(Trim(name))) == Insert(NewPlayer(Trim(name), 1000, 0, 0, 0))
  {
    assert !IsBlank(Trim(name));
  }

  /** A blank name is refused whatever white space it holds. */
  lemma BlankRefused(name: string)
    requires forall i :: 0 <= i < |name| ==> IsWhite(name[i])
    ensures Handle("POST", Text(name)) == BadRequest
  {
    BlankIffAllWhite(name);
  }
}
