/** components/ExportAwards.jsx: the CSV export of the award rows of the
    selected months, the selection toggle, and the list of months that
    have matches. */
module ExportAwards {
  import opened Wrappers
  import opened Text
  import opened Domain
  import opened Sorting
  import opened Rankings
  import opened MonthlyWinners

  const Header: string := "player_id,category,month,year,month_name"

  /** A template literal prints `undefined` for a missing id. */
  function IdText(id: Option<Id>): string {
    match id
    case None => "undefined"
    case Some(s) => s
  }

  /** `${playerId},${key},${month},${year},${monthName}`. */
  function CsvLine(r: AwardRow): string {
    Join([IdText(r.playerId), r.category, IntToString(r.month), IntToString(r.year), r.monthName], ',')
  }

  function Lines(rows: seq<AwardRow>): (ls: seq<string>)
    ensures |ls| == |rows|
    ensures forall i :: 0 <= i < |rows| ==> ls[i] == CsvLine(rows[i])
  {
    if rows == [] then [] else [CsvLine(rows[0])] + Lines(rows[1..])
  }

  lemma LinesConcat(a: seq<AwardRow>, b: seq<AwardRow>)
    ensures Lines(a + b) == Lines(a) + Lines(b)
  {
  }

  /** `monthKey.split('-').map(Number)`: the year and the month, `None` for
      `NaN` or a missing piece. */
  function ParseSelection(key: string): (Option<int>, Option<int>) {
    var parts := Split(key, '-');
    (NumberOf(parts[0]), if |parts| > 1 then NumberOf(parts[1]) else None)
  }

  /** The matches a selected key picks out; a key that does not parse
      compares unequal to every month and year. */
  function SelectionMatches(matches: seq<Match>, key: string): seq<Match> {
    match ParseSelection(key)
    case (Some(y), Some(m)) => FilterMonth(matches, m, y)
    case _ => []
  }

  /** A row printed for the selected key `k`: the key names the row's
      month and year, that month has matches, the month stays 0-based, and
      the row names one of the nine categories. */
  predicate KeyRow(matches: seq<Match>, k: string, r: AwardRow) {
    && ParseSelection(k) == (Some(r.year), Some(r.month))
    && FilterMonth(matches, r.month, r.year) != []
    && 0 <= r.month < 12
    && r.monthName == MonthName(r.month)
    && r.category in CategoryNames()
  }

  predicate SelectedRow(matches: seq<Match>, selected: seq<string>, r: AwardRow) {
    exists k :: k in selected && KeyRow(matches, k, r)
  }

  /** The rows a selected key contributes: those `saveMonthAwards` would
      store for its month, or none when the key does not parse. */
  function KeyAwardRows(players: seq<Player>, matches: seq<Match>, key: string): (rows: seq<AwardRow>)
    ensures SelectionMatches(matches, key) == [] ==> rows == []
    ensures SelectionMatches(matches, key) != [] ==>
      var (y, m) := (ParseSelection(key).0.value, ParseSelection(key).1.value);
      RowsOf(rows, Won(Categories(WinnersOf(players, FilterMonth(matches, m, y)))), m, y, MonthName(m))
  {
    match ParseSelection(key)
    case (Some(y), Some(m)) => AwardRows(players, m, y, FilterMonth(matches, m, y))
    case _ => []
  }

  /** The rows of the selected keys, key by key in selection order. */
  function SelectedRows(players: seq<Player>, matches: seq<Match>, selected: seq<string>): seq<AwardRow> {
    Flatten(k => KeyAwardRows(players, matches, k), selected)
  }

  /** The rows `f` gives for each key, concatenated in key order. */
  function Flatten(f: string -> seq<AwardRow>, keys: seq<string>): seq<AwardRow> {
    if keys == [] then [] else Flatten(f, keys[..|keys| - 1]) + f(keys[|keys| - 1])
  }

  /** Selecting more keys appends their rows. */
  lemma {:induction false} FlattenConcat(f: string -> seq<AwardRow>, a: seq<string>, b: seq<string>)
    ensures Flatten(f, a + b) == Flatten(f, a) + Flatten(f, b)
  {
    if b == [] {
      assert a + b == a;
    } else {
      assert (a + b)[..|a + b| - 1] == a + b[..|b| - 1];
      FlattenConcat(f, a, b[..|b| - 1]);
    }
  }

  lemma SelectedRowsStep(players: seq<Player>, matches: seq<Match>, selected: seq<string>, i: nat)
    requires i < |selected|
    ensures SelectedRows(players, matches, selected[..i + 1])
      == SelectedRows(players, matches, selected[..i]) + KeyAwardRows(players, matches, selected[i])
  {
    assert selected[..i + 1][..i] == selected[..i];
  }

  /** The rows of one selected month: those `saveMonthAwards` would store
      for it, or none when it has no matches. */
  method KeyRows(players: seq<Player>, matches: seq<Match>, key: string) returns (added: seq<AwardRow>)
    ensures |added| <= 9
    ensures forall r :: r in added ==> KeyRow(matches, key, r)
    ensures forall i, j :: 0 <= i < j < |added| ==> added[i].category != added[j].category
    ensures SelectionMatches(matches, key) == [] ==> added == []
    ensures added == KeyAwardRows(players, matches, key)
  {
    var monthMatches := SelectionMatches(matches, key);
    if |monthMatches| == 0 {
      return [];
    }
    var y := ParseSelection(key).0.value;
    var m := ParseSelection(key).1.value;
    var w := monthMatches[0];
    assert w in FilterMonth(matches, m, y);
    added := SaveMonthAwards(players, m, y, monthMatches);
  }

  /** `generateCSV`: the header line, then for each selected month that has
      matches one line per category with a winner.  `rows` are the award
      rows the lines print. */
  method GenerateCsv(players: seq<Player>, matches: seq<Match>, selected: seq<string>)
    returns (rows: seq<AwardRow>, csv: string)
    ensures csv == Join([Header] + Lines(rows), '\n')
    ensures |csv| >= |Header| && csv[..|Header|] == Header
    ensures |rows| <= 9 * |selected|
    ensures forall r :: r in rows ==> SelectedRow(matches, selected, r)
    ensures rows == SelectedRows(players, matches, selected)
  {
    rows := [];
    var i := 0;
    while i < |selected|
      invariant 0 <= i <= |selected|
      invariant |rows| <= 9 * i
      invariant forall r :: r in rows ==> SelectedRow(matches, selected[..i], r)
      invariant rows == SelectedRows(players, matches, selected[..i])
    {
      var added := KeyRows(players, matches, selected[i]);
      SelectedGrows(matches, selected, i, rows, added);
      SelectedRowsStep(players, matches, selected, i);
      rows := rows + added;
      i := i + 1;
    }
    assert selected[..i] == selected;
    csv := Join([Header] + Lines(rows), '\n');
    HeaderFirst(Lines(rows));
  }

  lemma SelectedGrows(matches: seq<Match>, selected: seq<string>, i: nat, rows: seq<AwardRow>, added: seq<AwardRow>)
    requires i < |selected|
    requires forall r :: r in rows ==> SelectedRow(matches, selected[..i], r)
    requires forall r :: r in added ==> KeyRow(matches, selected[i], r)
    ensures forall r :: r in rows + added ==> SelectedRow(matches, selected[..i + 1], r)
  {
    forall r | r in rows + added ensures SelectedRow(matches, selected[..i + 1], r) {
      if r in rows {
        var k :| k in selected[..i] && KeyRow(matches, k, r);
        assert k in selected[..i + 1];
      } else {
        assert selected[..i + 1][i] == selected[i];
      }
    }
  }

  lemma HeaderFirst(ls: seq<string>)
    ensures var csv := Join([Header] + ls, '\n');
      |csv| >= |Header| && csv[..|Header|] == Header
  {
    if ls != [] {
      assert ([Header] + ls)[1..] == ls;
    }
  }

  // ---------------------------------------------------------------------
  // The month selection.

  /** `toggleMonth`: removes a present key, appends an absent one. */
  function ToggleMonth(sel: seq<string>, key: string): (r: seq<string>)
    ensures key in r <==> key !in sel
    ensures forall k :: k != key ==> (k in r <==> k in sel)
    ensures (forall i, j :: 0 <= i < j < |sel| ==> sel[i] != sel[j]) ==>
      forall i, j :: 0 <= i < j < |r| ==> r[i] != r[j]
  {
    if key in sel then Without(sel, key) else sel + [key]
  }

  /** `filter(m => m !== key)`. */
  function Without(sel: seq<string>, key: string): (r: seq<string>)
    ensures forall k :: k in r <==> k in sel && k != key
    ensures (forall i, j :: 0 <= i < j < |sel| ==> sel[i] != sel[j]) ==>
      forall i, j :: 0 <= i < j < |r| ==> r[i] != r[j]
    ensures key !in sel ==> r == sel
  {
    if sel == [] then []
    else
      assert sel == [sel[0]] + sel[1..];
      assert forall i :: 0 <= i < |sel| - 1 ==> sel[1..][i] == sel[i + 1];
      var rest := Without(sel[1..], key);
      if sel[0] == key then rest
      else
        assert (forall i, j :: 0 <= i < j < |sel| ==> sel[i] != sel[j]) ==> sel[0] !in rest;
        [sel[0]] + rest
  }

  /** Toggling a key twice restores the set of selected keys, and undoes
      the first toggle exactly when the key was absent. */
  lemma ToggleTwice(sel: seq<string>, key: string)
    ensures forall k :: k in ToggleMonth(ToggleMonth(sel, key), key) <==> k in sel
    ensures key !in sel ==> ToggleMonth(ToggleMonth(sel, key), key) == sel
  {
    if key !in sel {
      WithoutAppended(sel, key);
    }
  }

  lemma {:induction false} WithoutAppended(sel: seq<string>, key: string)
    requires key !in sel
    ensures Without(sel + [key], key) == sel
  {
    if sel == [] {
      assert [key][1..] == [];
    } else {
      assert (sel + [key])[1..] == sel[1..] + [key];
      WithoutAppended(sel[1..], key);
      assert sel == [sel[0]] + sel[1..];
    }
  }

  // ---------------------------------------------------------------------
  // The months that have matches.

  /** `${getFullYear()}-${getMonth()}`. */
  function MonthKey(y: nat, m: MonthIndex): string {
    IntToString(y) + "-" + IntToString(m)
  }

  /** An entry of the month picker: the key, the parsed year and month and
      the display name. */
  datatype MonthEntry = MonthEntry(key: string, year: Option<int>, month: Option<int>, name: string)

  /** `new Date(y, m, 1)` reads a two-digit year as 19yy. */
  function DisplayYear(y: int): int {
    if 0 <= y <= 99 then 1900 + y else y
  }

  /** `const [year, month] = key.split('-')` with `parseInt`, and the
      `{ month: 'long', year: 'numeric' }` name. */
  function EntryOf(key: string): MonthEntry {
    var parts := Split(key, '-');
    var y := ParseInt(parts[0]);
    var m := if |parts| > 1 then ParseInt(parts[1]) else None;
    var name := if y.Some? && m.Some? then MonthName(m.value) + " " + IntToString(DisplayYear(y.value)) else "Invalid Date";
    MonthEntry(key, y, m, name)
  }

  /** The key reads back as the year and month it was printed from. */
  lemma EntryOfKey(y: nat, m: MonthIndex)
    ensures EntryOf(MonthKey(y, m)).year == Some(y as int)
    ensures EntryOf(MonthKey(y, m)).month == Some(m as int)
  {
    var a := IntToString(y);
    var b := IntToString(m);
    IntToStringClean(y, '-');
    IntToStringClean(m, '-');
    assert Join([a, b], '-') == a + "-" + b;
    SplitOfJoin([a, b], '-');
    ParseIntOfIntToString(y);
    ParseIntOfIntToString(m);
  }

  /** Different months print different keys, so the `Set` of keys holds
      one key per distinct (year, month). */
  lemma MonthKeyInjective(y1: nat, m1: MonthIndex, y2: nat, m2: MonthIndex)
    requires MonthKey(y1, m1) == MonthKey(y2, m2)
    ensures y1 == y2 && m1 == m2
  {
    EntryOfKey(y1, m1);
    EntryOfKey(y2, m2);
  }

  /** The distinct (year, month) pairs of the matches in first-occurrence
      order: the order the `Set` of their keys keeps. */
  function MonthsOf(ms: seq<Match>): (r: seq<(nat, MonthIndex)>)
    ensures forall i, j :: 0 <= i < j < |r| ==> r[i] != r[j]
    ensures forall p :: p in r <==> exists m :: m in ms && (When(m).year, When(m).month) == p
  {
    if ms == [] then []
    else
      var t := ms[..|ms| - 1];
      var rest := MonthsOf(t);
      var p := (When(ms[|ms| - 1]).year, When(ms[|ms| - 1]).month);
      assert ms == t + [ms[|ms| - 1]];
      if p in rest then rest else rest + [p]
  }

  /** The keys of the matches' months, one per distinct month: the
      `Set` of keys. */
  function Keys(ps: seq<(nat, MonthIndex)>): (r: seq<string>)
    ensures |r| == |ps|
    ensures forall i :: 0 <= i < |ps| ==> r[i] == MonthKey(ps[i].0, ps[i].1)
  {
    if ps == [] then [] else [MonthKey(ps[0].0, ps[0].1)] + Keys(ps[1..])
  }

  /** `Array.from(months).map(...)`: each key parsed into its entry. */
  function Parsed(keys: seq<string>): seq<MonthEntry> {
    if keys == [] then [] else [EntryOf(keys[0])] + Parsed(keys[1..])
  }

  /** The entry a month's key parses into, written out. */
  function Entry(p: (nat, MonthIndex)): MonthEntry {
    MonthEntry(MonthKey(p.0, p.1), Some(p.0 as int), Some(p.1 as int),
      MonthName(p.1) + " " + IntToString(DisplayYear(p.0)))
  }

  function Entries(ps: seq<(nat, MonthIndex)>): (r: seq<MonthEntry>)
    ensures |r| == |ps|
    ensures forall i :: 0 <= i < |ps| ==> r[i] == Entry(ps[i])
  {
    if ps == [] then [] else [Entry(ps[0])] + Entries(ps[1..])
  }

  /** Parsing the printed keys gives back every month's entry. */
  lemma {:induction false} ParsedKeys(ps: seq<(nat, MonthIndex)>)
    ensures Parsed(Keys(ps)) == Entries(ps)
  {
    if ps != [] {
      ParsedKeys(ps[1..]);
      EntryOfKey(ps[0].0, ps[0].1);
      assert Keys(ps)[1..] == Keys(ps[1..]);
    }
  }

  /** Year descending, then month descending, as one key (months are 0 to 11). */
  function EntryKey(e: MonthEntry): real {
    (e.year.GetOr(0) * 12 + e.month.GetOr(0)) as real
  }

  /** `getAvailableMonths`. */
  function AvailableMonths(ms: seq<Match>): seq<MonthEntry> {
    SortDesc(Parsed(Keys(MonthsOf(ms))), EntryKey)
  }

  /** The available months are the written-out entries, sorted. */
  lemma AvailableEntries(ms: seq<Match>)
    ensures AvailableMonths(ms) == SortDesc(Entries(MonthsOf(ms)), EntryKey)
  {
    ParsedKeys(MonthsOf(ms));
  }

  /** Every entry is the entry of one of the pairs. */
  lemma EntryFromPair(ps: seq<(nat, MonthIndex)>, e: MonthEntry)
    requires e in Entries(ps)
    ensures exists p :: p in ps && e == Entry(p)
  {
    var i :| 0 <= i < |ps| && Entries(ps)[i] == e;
    assert ps[i] in ps;
  }

  /** Months are 0 to 11, so `year * 12 + month` tells months apart. */
  lemma MonthNumberInjective(y1: int, m1: MonthIndex, y2: int, m2: MonthIndex)
    requires y1 * 12 + m1 == y2 * 12 + m2
    ensures y1 == y2 && m1 == m2
  {
  }

  /** The entries of distinct months have distinct sort keys. */
  lemma EntryKeysDistinct(ps: seq<(nat, MonthIndex)>)
    requires forall i, j :: 0 <= i < j < |ps| ==> ps[i] != ps[j]
    ensures forall i, j :: 0 <= i < j < |Entries(ps)| ==> EntryKey(Entries(ps)[i]) != EntryKey(Entries(ps)[j])
  {
    var es := Entries(ps);
    forall i, j | 0 <= i < j < |es| ensures EntryKey(es[i]) != EntryKey(es[j]) {
      if EntryKey(es[i]) == EntryKey(es[j]) {
        assert es[i] == Entry(ps[i]) && es[j] == Entry(ps[j]);
        MonthNumberInjective(ps[i].0, ps[i].1, ps[j].0, ps[j].1);
        assert false;
      }
    }
  }

  /** Every available month is the month of some match. */
  lemma AvailableFromMatches(ms: seq<Match>, e: MonthEntry)
    requires e in AvailableMonths(ms)
    ensures e.year.Some? && e.month.Some?
    ensures exists m :: m in ms && When(m).year == e.year.value && When(m).month == e.month.value
  {
    var ps := MonthsOf(ms);
    AvailableEntries(ms);
    SameMembers(AvailableMonths(ms), Entries(ps), e);
    EntryFromPair(ps, e);
    var p :| p in ps && e == Entry(p);
    var m :| m in ms && (When(m).year, When(m).month) == p;
  }

  /** The month of every match is available. */
  lemma AvailableCovers(ms: seq<Match>, m: Match)
    requires m in ms
    ensures exists e :: e in AvailableMonths(ms) && e.year == Some(When(m).year as int) && e.month == Some(When(m).month as int)
  {
    var ps := MonthsOf(ms);
    var p := (When(m).year, When(m).month);
    assert p in ps;
    EntryInEntries(ps, p);
    AvailableEntries(ms);
    SameMembers(AvailableMonths(ms), Entries(ps), Entry(p));
  }

  lemma EntryInEntries(ps: seq<(nat, MonthIndex)>, p: (nat, MonthIndex))
    requires p in ps
    ensures Entry(p) in Entries(ps)
  {
    var i :| 0 <= i < |ps| && ps[i] == p;
    assert Entries(ps)[i] == Entry(p);
  }

  /** Each month once, newest first. */
  lemma AvailableStrict(ms: seq<Match>, i: nat, j: nat)
    requires i < j < |AvailableMonths(ms)|
    ensures var r := AvailableMonths(ms);
      r[i].year.Some? && r[i].month.Some? && r[j].year.Some? && r[j].month.Some?
      && (r[i].year.value > r[j].year.value
          || (r[i].year.value == r[j].year.value && r[i].month.value > r[j].month.value))
  {
    AvailableEntries(ms);
    SortedStrict(MonthsOf(ms), AvailableMonths(ms), i, j);
  }

  /** A descending sort of the entries of distinct months is strict. */
  lemma {:induction false} SortedStrict(ps: seq<(nat, MonthIndex)>, r: seq<MonthEntry>, i: nat, j: nat)
    requires forall a, b :: 0 <= a < b < |ps| ==> ps[a] != ps[b]
    requires multiset(r) == multiset(Entries(ps)) && SortedDesc(r, EntryKey)
    requires i < j < |r|
    ensures r[i].year.Some? && r[i].month.Some? && r[j].year.Some? && r[j].month.Some?
    ensures r[i].year.value > r[j].year.value
         || (r[i].year.value == r[j].year.value && r[i].month.value > r[j].month.value)
  {
    EntryKeysDistinct(ps);
    NoRepeat(Entries(ps), r, i, j);
    assert r[i] in r && r[j] in r;
    SameMembers(r, Entries(ps), r[i]);
    SameMembers(r, Entries(ps), r[j]);
    EntryFromPair(ps, r[i]);
    EntryFromPair(ps, r[j]);
    var pi :| pi in ps && r[i] == Entry(pi);
    var pj :| pj in ps && r[j] == Entry(pj);
    EntryOrder(pi, pj);
  }

  lemma EntryOrder(pi: (nat, MonthIndex), pj: (nat, MonthIndex))
    requires EntryKey(Entry(pi)) > EntryKey(Entry(pj))
    ensures pi.0 > pj.0 || (pi.0 == pj.0 && pi.1 > pj.1)
  {
  }

  /** A sorted copy of a list whose keys are pairwise different keeps them
      pairwise different, so its order is strict. */
  lemma NoRepeat(es: seq<MonthEntry>, r: seq<MonthEntry>, i: nat, j: nat)
    requires forall a, b :: 0 <= a < b < |es| ==> EntryKey(es[a]) != EntryKey(es[b])
    requires multiset(r) == multiset(es) && SortedDesc(r, EntryKey)
    requires i < j < |r|
    ensures EntryKey(r[i]) > EntryKey(r[j])
  {
    if EntryKey(r[i]) == EntryKey(r[j]) {
      assert r[i] in multiset(es) && r[j] in multiset(es);
      var a :| 0 <= a < |es| && es[a] == r[i];
      var b :| 0 <= b < |es| && es[b] == r[j];
      assert a == b;
      MultiplicityTwo(r, i, j);
      MultiplicityOne(es, a);
      assert false;
    }
  }

  lemma MultiplicityTwo<T>(r: seq<T>, i: nat, j: nat)
    requires i < j < |r| && r[i] == r[j]
    ensures multiset(r)[r[i]] >= 2
  {
    assert r == r[..i] + [r[i]] + r[i + 1..j] + [r[j]] + r[j + 1..];
  }

  lemma MultiplicityOne(es: seq<MonthEntry>, a: nat)
    requires forall x, y :: 0 <= x < y < |es| ==> EntryKey(es[x]) != EntryKey(es[y])
    requires a < |es|
    ensures multiset(es)[es[a]] == 1
  {
    assert es == es[..a] + [es[a]] + es[a + 1..];
    assert es[a] !in es[..a] by {
      forall x | 0 <= x < a ensures es[..a][x] != es[a] {
        assert EntryKey(es[x]) != EntryKey(es[a]);
      }
    }
    assert es[a] !in es[a + 1..] by {
      forall x | a < x < |es| ensures es[x] != es[a] {
        assert EntryKey(es[a]) != EntryKey(es[x]);
      }
    }
  }
}
