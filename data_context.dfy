/** lib/DataContext.js: the shared store of players, matches and monthly
    awards, with a five-minute cache.  The clock (`Date.now()`) is the
    parameter `now`; each of the three requests is replaced by its
    outcome, a `Result` the caller supplies, where `Failure` stands for a
    failed request and for an answer that is not a list alike. */
module DataContext {
  import opened Wrappers
  import opened Domain
  import opened StatsCards

  /** `CACHE_DURATION`: five minutes in milliseconds. */
  const CacheDuration: int := 5 * 60 * 1000

  /** `isCacheValid`: a fetch time that is unset (or 0, which is falsy)
      never makes the cache valid; otherwise it is valid for strictly less
      than five minutes after that time. */
  function CacheValid(lastFetchTime: Option<int>, now: int): (v: bool)
    ensures v <==> lastFetchTime.Some? && lastFetchTime.value != 0 && now - lastFetchTime.value < 300000
  {
    match lastFetchTime
    case None => false
    case Some(t) => if t == 0 then false else now - t < CacheDuration
  }

  /** Once valid, the cache stays valid until five minutes after the
      fetch and is invalid from then on. */
  lemma CacheExpiry(t: int, now: int, later: int)
    requires CacheValid(Some(t), now) && now <= later
    ensures CacheValid(Some(t), later) <==> later < t + 300000
  {
  }

  /** A fetch at any time but 0 makes the cache valid at that time. */
  lemma FreshAfterFetch(t: int)
    requires t != 0
    ensures CacheValid(Some(t), t)
  {
  }

  /** The skip test of `loadAllData`. */
  predicate Skips(forceRefresh: bool, lastFetchTime: Option<int>, now: int, players: seq<Player>, matches: seq<Match>) {
    !forceRefresh && CacheValid(lastFetchTime, now) && |players| > 0 && |matches| > 0
  }

  /** A forced load never skips, nor does a load with an empty list. */
  lemma SkipNeedsEverything(lastFetchTime: Option<int>, now: int, players: seq<Player>, matches: seq<Match>, force: bool)
    ensures Skips(force, lastFetchTime, now, players, matches) ==>
      !force && lastFetchTime.Some? && now - lastFetchTime.value < 300000 && players != [] && matches != []
    ensures !Skips(true, lastFetchTime, now, players, matches)
  {
  }

  /** `fetchPlayers` and `fetchMonthlyAwards`: the list, or no elements
      after a failure. */
  function ListOrEmpty<T>(response: Result<seq<T>>): (r: seq<T>)
    ensures response.Failure? ==> r == []
    ensures response.Success? ==> r == response.value
  {
    match response
    case Failure(_) => []
    case Success(data) => data
  }

  /** `fetchMatches`: the matches newest `played_at || created_at` first,
      or no matches after a failure. */
  function FetchedMatches(response: Result<seq<Match>>): (r: seq<Match>)
    ensures response.Failure? ==> r == []
    ensures response.Success? ==> multiset(r) == multiset(response.value)
    ensures forall i, j :: 0 <= i < j < |r| ==> When(r[i]).instant >= When(r[j]).instant
  {
    match response
    case Failure(_) => []
    case Success(data) => NewestFirst(data)
  }

  class DataStore {
    var players: seq<Player>
    var matches: seq<Match>
    var monthlyAwards: seq<AwardRow>
    var isLoading: bool
    var hasLoadedOnce: bool
    var lastFetchTime: Option<int>

    /** The initial `useState` values: empty lists, loading, never loaded,
        no fetch time. */
    constructor ()
      ensures players == [] && matches == [] && monthlyAwards == []
      ensures isLoading && !hasLoadedOnce && lastFetchTime.None?
    {
      players := [];
      matches := [];
      monthlyAwards := [];
      isLoading := true;
      hasLoadedOnce := false;
      lastFetchTime := None;
    }

    /** The `isCacheValid` the store publishes. */
    predicate IsCacheValid(now: int)
      reads this
    {
      CacheValid(lastFetchTime, now)
    }

    /** `loadAllData(forceRefresh)`: with a valid cache and both lists
        non-empty an unforced load only ends the loading state; otherwise
        all three lists are replaced by what was fetched, the fetch time
        becomes `now` and the store counts as loaded.  Either way loading
        has ended, and a loaded store stays loaded. */
    method LoadAllData(forceRefresh: bool, now: int, fetchedPlayers: Result<seq<Player>>,
                       fetchedMatches: Result<seq<Match>>, fetchedAwards: Result<seq<AwardRow>>)
      returns (fetched: bool)
      modifies this
      ensures fetched <==> !old(Skips(forceRefresh, lastFetchTime, now, players, matches))
      ensures !fetched ==>
        && players == old(players) && matches == old(matches) && monthlyAwards == old(monthlyAwards)
        && lastFetchTime == old(lastFetchTime) && hasLoadedOnce == old(hasLoadedOnce)
      ensures fetched ==>
        && players == ListOrEmpty(fetchedPlayers)
        && matches == FetchedMatches(fetchedMatches)
        && monthlyAwards == ListOrEmpty(fetchedAwards)
        && lastFetchTime == Some(now)
        && hasLoadedOnce
      ensures !isLoading
      ensures old(hasLoadedOnce) ==> hasLoadedOnce
    {
      if !forceRefresh && IsCacheValid(now) && |players| > 0 && |matches| > 0 {
        isLoading := false;
        return false;
      }
      isLoading := true;
      var playersData := ListOrEmpty(fetchedPlayers);
      var matchesData := FetchedMatches(fetchedMatches);
      var awardsData := ListOrEmpty(fetchedAwards);
      players := playersData;
      matches := matchesData;
      monthlyAwards := awardsData;
      lastFetchTime := Some(now);
      hasLoadedOnce := true;
      isLoading := false;
      fetched := true;
    }

    /** `refreshData`: a forced load, which always fetches. */
    method RefreshData(now: int, fetchedPlayers: Result<seq<Player>>,
                       fetchedMatches: Result<seq<Match>>, fetchedAwards: Result<seq<AwardRow>>)
      modifies this
      ensures players == ListOrEmpty(fetchedPlayers)
      ensures matches == FetchedMatches(fetchedMatches)
      ensures monthlyAwards == ListOrEmpty(fetchedAwards)
      ensures lastFetchTime == Some(now) && hasLoadedOnce && !isLoading
    {
      var fetched := LoadAllData(true, now, fetchedPlayers, fetchedMatches, fetchedAwards);
    }
  }
}
