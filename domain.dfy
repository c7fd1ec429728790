/** The records the application stores (players, matches, award rows) and the
    few derived notions every component shares: when a match happened, which
    calendar month it falls in, and the roster of players by id. */
module Domain {
  import opened Wrappers
  import opened Text

  type Id = string

  /** `getMonth()`: 0 for January up to 11 for December. */
  type MonthIndex = m: int | 0 <= m < 12

  /** A timestamp with its local calendar decomposition: `instant` orders
      timestamps (milliseconds), `year` and `month` are what `getFullYear`
      and `getMonth` give.  Years before year 0 are not represented. */
  datatype Stamp = Stamp(instant: int, year: nat, month: MonthIndex)

  /** A row of the `players` table. */
  datatype Player = Player(id: Id, name: string, elo: int, played: int, won: int, lost: int)

  /** A row of the `matches` table.  The rating changes may be `null`;
      `playedAt` may be missing, in which case `createdAt` is used. */
  datatype Match = Match(
    id: Id,
    p1: Id, p2: Id,
    s1: int, s2: int,
    winner: Id,
    c1: Option<int>, c2: Option<int>,
    playedAt: Option<Stamp>,
    createdAt: Stamp)

  /** `match.played_at || match.created_at`. */
  function When(m: Match): (t: Stamp)
    ensures m.playedAt.Some? ==> t == m.playedAt.value
    ensures m.playedAt.None? ==> t == m.createdAt
  {
    m.playedAt.GetOr(m.createdAt)
  }

  predicate InMonth(m: Match, month: int, year: int) {
    When(m).month == month && When(m).year == year
  }

  /** The matches of one calendar month, in their original order. */
  function FilterMonth(ms: seq<Match>, month: int, year: int): (r: seq<Match>)
    ensures |r| <= |ms|
    ensures forall m :: m in r <==> m in ms && InMonth(m, month, year)
  {
    if ms == [] then []
    else
      var rest := FilterMonth(ms[..|ms| - 1], month, year);
      assert ms == ms[..|ms| - 1] + [ms[|ms| - 1]];
      if InMonth(ms[|ms| - 1], month, year) then rest + [ms[|ms| - 1]] else rest
  }

  /** Filtering distributes over concatenation, so with the one-match case
      the filter keeps exactly the matches of the month in input order. */
  lemma {:induction false} FilterMonthConcat(a: seq<Match>, b: seq<Match>, month: int, year: int)
    ensures FilterMonth(a + b, month, year) == FilterMonth(a, month, year) + FilterMonth(b, month, year)
    ensures |b| == 1 ==> FilterMonth(b, month, year) == if InMonth(b[0], month, year) then b else []
  {
    assert |b| == 1 ==> b[..0] == [];
    if b == [] {
      assert a + b == a;
    } else {
      assert (a + b)[..|a + b| - 1] == a + b[..|b| - 1];
      FilterMonthConcat(a, b[..|b| - 1], month, year);
    }
  }

  /** `Math.abs(change)`: a `null` change reads as 0. */
  function SwingOf(c: Option<int>): (r: nat)
    ensures c.None? ==> r == 0
    ensures c.Some? ==> r == (if c.value < 0 then -c.value else c.value)
  {
    var v := c.GetOr(0);
    if v < 0 then -v else v
  }

  /** The English month name `toLocaleString('en-US', { month: 'long' })`
      gives for `new Date(year, month, 1)`; the month wraps modulo 12. */
  function MonthName(month: int): (r: string)
    ensures 0 <= month < 12 ==> r == MonthNames()[month]
    ensures r in MonthNames()
  {
    MonthNames()[month % 12]
  }

  function MonthNames(): seq<string> {
    ["January", "February", "March", "April", "May", "June", "July",
     "August", "September", "October", "November", "December"]
  }

  /** The `playerStats` dictionary's key set: the last record with a given id
      is the one stored. */
  function Roster(ps: seq<Player>): (r: map<Id, Player>)
    ensures forall id :: id in r <==> exists k :: 0 <= k < |ps| && ps[k].id == id
    ensures forall id :: id in r ==> r[id].id == id && r[id] in ps
  {
    if ps == [] then map[]
    else
      var last := ps[|ps| - 1];
      var r := Roster(ps[..|ps| - 1])[last.id := last];
      assert forall k :: 0 <= k < |ps| - 1 ==> ps[..|ps| - 1][k] == ps[k];
      r
  }

  /** The record stored under an id is the last one in `ps` with that id. */
  lemma {:induction false} RosterLast(ps: seq<Player>, id: Id)
    requires id in Roster(ps)
    ensures exists k :: 0 <= k < |ps| && ps[k] == Roster(ps)[id] && forall l :: k < l < |ps| ==> ps[l].id != id
  {
    var t := ps[..|ps| - 1];
    var last := ps[|ps| - 1];
    assert Roster(ps) == Roster(t)[last.id := last];
    if id == last.id {
      assert ps[|ps| - 1] == Roster(ps)[id];
    } else {
      RosterLast(t, id);
      LastShift(ps, t, id, Roster(t)[id]);
    }
  }

  /** A record that is the last with its id stays so when a record with
      another id is appended. */
  lemma LastShift(ps: seq<Player>, t: seq<Player>, id: Id, p: Player)
    requires ps != [] && t == ps[..|ps| - 1] && ps[|ps| - 1].id != id
    requires exists k :: 0 <= k < |t| && t[k] == p && forall l :: k < l < |t| ==> t[l].id != id
    ensures exists k :: 0 <= k < |ps| && ps[k] == p && forall l :: k < l < |ps| ==> ps[l].id != id
  {
    var k :| 0 <= k < |t| && t[k] == p && forall l :: k < l < |t| ==> t[l].id != id;
    assert ps[k] == p;
    forall l | k < l < |ps| ensures ps[l].id != id {
      if l < |t| { assert ps[l] == t[l]; }
    }
  }

  /** The ids of `ps` in order of first appearance: the order in which
      `Object.values` lists the `playerStats` dictionary. */
  function IdOrder(ps: seq<Player>): (r: seq<Id>)
    ensures forall i, j :: 0 <= i < j < |r| ==> r[i] != r[j]
    ensures forall id :: id in r <==> id in Roster(ps)
  {
    if ps == [] then []
    else
      var o := IdOrder(ps[..|ps| - 1]);
      var last := ps[|ps| - 1];
      assert forall k :: 0 <= k < |ps| - 1 ==> ps[..|ps| - 1][k] == ps[k];
      if last.id in o then o else o + [last.id]
  }

  /** `a` is listed in `ps` before any record with id `b`. */
  predicate Before(ps: seq<Player>, a: Id, b: Id) {
    exists k :: 0 <= k < |ps| && ps[k].id == a && forall l :: 0 <= l <= k ==> ps[l].id != b
  }

  /** `IdOrder` lists the ids by first appearance: each id's first record
      comes before any record of every id listed after it. */
  lemma {:induction false} IdOrderFirstAppearance(ps: seq<Player>)
    ensures forall i, j :: 0 <= i < j < |IdOrder(ps)| ==> Before(ps, IdOrder(ps)[i], IdOrder(ps)[j])
  {
    if ps != [] {
      var t := ps[..|ps| - 1];
      var p := ps[|ps| - 1];
      assert ps == t + [p];
      var o := IdOrder(t);
      IdOrderFirstAppearance(t);
      var r := IdOrder(ps);
      assert r == o || (r == o + [p.id] && p.id !in o);
      forall i, j | 0 <= i < j < |r| ensures Before(ps, r[i], r[j]) {
        if j < |o| {
          assert r[i] == o[i] && r[j] == o[j];
          BeforeExtend(t, p, o[i], o[j]);
        } else {
          assert o[i] in Roster(t);
          BeforeNew(t, p, o[i]);
        }
      }
    }
  }

  lemma BeforeExtend(t: seq<Player>, p: Player, a: Id, b: Id)
    requires Before(t, a, b)
    ensures Before(t + [p], a, b)
  {
    var k :| 0 <= k < |t| && t[k].id == a && forall l :: 0 <= l <= k ==> t[l].id != b;
    assert (t + [p])[k].id == a;
  }

  lemma BeforeNew(t: seq<Player>, p: Player, a: Id)
    requires a in Roster(t) && p.id !in Roster(t)
    ensures Before(t + [p], a, p.id)
  {
    var k :| 0 <= k < |t| && t[k].id == a;
    assert (t + [p])[k].id == a;
  }

  /** `players.find(p => p.id === id)`: the first player with that id. */
  function FindPlayer(ps: seq<Player>, id: Id): (r: Option<Player>)
    ensures r.None? <==> forall k :: 0 <= k < |ps| ==> ps[k].id != id
    ensures r.Some? ==> r.value.id == id && r.value in ps
    ensures r.Some? ==> exists k :: 0 <= k < |ps| && ps[k] == r.value && forall l :: 0 <= l < k ==> ps[l].id != id
  {
    if ps == [] then None
    else if ps[0].id == id then Some(ps[0])
    else
      var r := FindPlayer(ps[1..], id);
      assert r.Some? ==> exists k :: 0 <= k < |ps| && ps[k] == r.value && forall l :: 0 <= l < k ==> ps[l].id != id by {
        if r.Some? {
          var k :| 0 <= k < |ps| - 1 && ps[1..][k] == r.value && forall l :: 0 <= l < k ==> ps[1..][l].id != id;
          assert ps[k + 1] == r.value;
          assert forall l :: 0 <= l < k + 1 ==> ps[l].id != id by {
            forall l | 0 <= l < k + 1 ensures ps[l].id != id {
              if l > 0 { assert ps[l] == ps[1..][l - 1]; }
            }
          }
        }
      }
      r
  }

  /** One row of the `monthly_awards` table.  `playerId` is `None` where
      the source computes `undefined` for it. */
  datatype AwardRow = AwardRow(playerId: Option<Id>, category: string, month: int, year: int, monthName: string)

  /** `players.find(p => p.name.toLowerCase() === name.toLowerCase())`:
      the first player whose name matches `name` ignoring letter case. */
  function FindByName(ps: seq<Player>, name: string): (r: Option<Player>)
    ensures r.None? <==> forall k :: 0 <= k < |ps| ==> ToLower(ps[k].name) != ToLower(name)
    ensures r.Some? ==> r.value in ps && ToLower(r.value.name) == ToLower(name)
  {
    if ps == [] then None
    else if ToLower(ps[0].name) == ToLower(name) then Some(ps[0])
    else FindByName(ps[1..], name)
  }

  /** No player before the one found matches the name. */
  lemma {:induction false} FindByNameFirst(ps: seq<Player>, name: string)
    requires FindByName(ps, name).Some?
    ensures exists k ::
              && 0 <= k < |ps| && ps[k] == FindByName(ps, name).value
              && forall l :: 0 <= l < k ==> ToLower(ps[l].name) != ToLower(name)
  {
    if ToLower(ps[0].name) == ToLower(name) {
      assert ps[0] == FindByName(ps, name).value;
    } else {
      var t := ps[1..];
      FindByNameFirst(t, name);
      var k :| 0 <= k < |t| && t[k] == FindByName(t, name).value
        && forall l :: 0 <= l < k ==> ToLower(t[l].name) != ToLower(name);
      assert ps[k + 1] == FindByName(ps, name).value;
      forall l | 0 <= l < k + 1 ensures ToLower(ps[l].name) != ToLower(name) {
        if l > 0 { assert ps[l] == t[l - 1]; }
      }
    }
  }

  /** `Math.round`: the nearest integer, halves rounded up. */
  function RoundHalfUp(x: real): (r: int)
    ensures x - 0.5 < r as real <= x + 0.5
  {
    (x + 0.5).Floor
  }

  /** `Math.round(won / played * 100)` computed exactly. */
  function Percent(won: int, played: int): (r: int)
    requires played != 0
    ensures 0 <= won <= played ==> 0 <= r <= 100
  {
    RoundHalfUp(won as real / played as real * 100.0)
  }
}
