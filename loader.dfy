/** The repository loader: the one-hour cache in browser storage, the
    cache-first fetch of the repository list, and the main flow that
    replaces the grid with the cards, the empty placeholder or the error
    placeholder. Network replies and clock readings are inputs. */
module Loader {
  import opened Wrappers
  import opened Repository
  import Recency
  import Cards

  /** One hour in milliseconds. */
  const CacheTtl: int := 60 * 60 * 1000

  /** The storage slot under the cache key: nothing (or an empty string),
      a value that does not parse as `{timestamp, data}`, or an entry. */
  datatype Slot = Missing | Corrupt | Stored(timestamp: int, data: seq<Repo>)

  /** What a `fetch` produced: a rejected promise, or a response with its
      status and its body, `None` when the body is not valid JSON. */
  datatype Reply<T> = NetworkError | Response(status: int, body: Option<T>)

  /** `res.ok`: a status in the 200-299 range. */
  predicate IsOk(status: int) {
    200 <= status <= 299
  }

  /** Why the repository list could not be had. */
  datatype LoadError = NetworkFailed | HttpError(status: int) | MalformedBody

  /** One child of the grid. */
  datatype Item = CardItem(card: Cards.Card) | EmptyPlaceholder | ErrorPlaceholder

  /** `getCached` at time `now`: the stored list while it is younger than
      an hour, absent otherwise. An empty stored list is still a hit. */
  function Lookup(slot: Slot, now: int): Option<seq<Repo>> {
    match slot
    case Stored(timestamp, data) => if now - timestamp < CacheTtl then Some(data) else None
    case _ => None
  }

  /** What `fetchRepos` yields: the cached list on a hit, otherwise the
      response body, or an error for a failed request, a status outside
      200-299 or a body that is not JSON. */
  function FetchResult(slot: Slot, now: int, reply: Reply<seq<Repo>>): Result<seq<Repo>, LoadError> {
    if Lookup(slot, now).Some? then Ok(Lookup(slot, now).value)
    else match reply
      case NetworkError => Err(NetworkFailed)
      case Response(status, body) =>
        if !IsOk(status) then Err(HttpError(status))
        else if body.None? then Err(MalformedBody)
        else Ok(body.value)
  }

  /** The slot after `fetchRepos`: written, stamped `fetchedAt`, only after
      a miss and a good response, and only if storage accepts the write. */
  function SlotAfterFetch(slot: Slot, now: int, fetchedAt: int, reply: Reply<seq<Repo>>, writeOk: bool): Slot {
    if Lookup(slot, now).None? && FetchResult(slot, now, reply).Ok? && writeOk
    then Stored(fetchedAt, FetchResult(slot, now, reply).value)
    else slot
  }

  /** The parsed configuration file: JSON `null`, or an object. */
  datatype ConfigBody = NullConfig | Entries(entries: Config)

  /** `fetchConfig`: the parsed configuration of a good response, `{}` on
      any failure. */
  function ConfigOf(reply: Reply<ConfigBody>): ConfigBody {
    match reply
    case Response(status, Some(config)) => if IsOk(status) then config else Entries(map[])
    case _ => Entries(map[])
  }

  /** One card item per repository, in order. */
  function CardItems(repos: seq<Repo>, config: Config, now: int): seq<Item> {
    if repos == [] then []
    else CardItems(repos[..|repos| - 1], config, now) + [CardItem(Cards.CardFor(repos[|repos| - 1], config, now))]
  }

  /** The grid after the main flow, given what `fetchRepos` yielded. A
      `null` configuration makes the first card's `config[repo.name]` throw,
      which the flow turns into the error placeholder. */
  function Page(fetched: Result<seq<Repo>, LoadError>, config: ConfigBody, now: int): seq<Item> {
    match fetched
    case Err(_) => [ErrorPlaceholder]
    case Ok(repos) =>
      var recent := Recency.RecentNewestFirst(repos, now);
      if recent == [] then [EmptyPlaceholder]
      else if config.NullConfig? then [ErrorPlaceholder]
      else CardItems(recent, config.entries, now)
  }

  /** The browser state the loader works on: the cache slot in local
      storage and the children of the projects grid. */
  class Loader {
    var slot: Slot
    var grid: seq<Item>

    constructor (stored: Slot)
      ensures slot == stored && grid == []
    {
      slot := stored;
      grid := [];
    }

    /** `getCached`. */
    method GetCached(now: int) returns (data: Option<seq<Repo>>)
      ensures data == Lookup(slot, now)
    {
      match slot
      case Stored(timestamp, stored) =>
        if now - timestamp < CacheTtl {
          return Some(stored);
        }
        return None;
      case _ =>
        return None;
    }

    /** `setCache`: a write that may fail (storage full or disabled), in
        which case the slot is left as it was. */
    method SetCache(now: int, data: seq<Repo>, writeOk: bool)
      modifies this`slot
      ensures slot == if writeOk then Stored(now, data) else old(slot)
    {
      if writeOk {
        slot := Stored(now, data);
      }
    }

    /** `fetchRepos`: the cache first; on a miss one request, whose good
        result is cached (at the later clock reading `fetchedAt`) and
        returned. `usedNetwork` tells whether the request was made. */
    method FetchRepos(now: int, fetchedAt: int, reply: Reply<seq<Repo>>, writeOk: bool)
      returns (result: Result<seq<Repo>, LoadError>, usedNetwork: bool)
      modifies this`slot
      ensures usedNetwork <==> Lookup(old(slot), now).None?
      ensures result == FetchResult(old(slot), now, reply)
      ensures slot == SlotAfterFetch(old(slot), now, fetchedAt, reply, writeOk)
    {
      var cached := GetCached(now);
      if cached.Some? {
        return Ok(cached.value), false;
      }
      usedNetwork := true;
      match reply
      case NetworkError =>
        result := Err(NetworkFailed);
      case Response(status, body) =>
        if !IsOk(status) {
          result := Err(HttpError(status));
        } else if body.None? {
          result := Err(MalformedBody);
        } else {
          SetCache(fetchedAt, body.value, writeOk);
          result := Ok(body.value);
        }
    }

    /** The main flow: fetch the list (the configuration alongside), keep
        the recent repositories newest first, and replace the grid with
        their cards, the empty placeholder, or on failure the error
        placeholder. */
    method Load(now: int, fetchedAt: int, reply: Reply<seq<Repo>>, writeOk: bool, configReply: Reply<ConfigBody>)
      modifies this
      ensures slot == SlotAfterFetch(old(slot), now, fetchedAt, reply, writeOk)
      ensures grid == Page(FetchResult(old(slot), now, reply), ConfigOf(configReply), now)
    {
      var fetched, _ := FetchRepos(now, fetchedAt, reply, writeOk);
      var config := ConfigOf(configReply);
      match fetched
      case Err(_) =>
        grid := [ErrorPlaceholder];
      case Ok(repos) =>
        var recent := Recency.RecentNewestFirst(repos, now);
        grid := [];
        if |recent| == 0 {
          grid := [EmptyPlaceholder];
          return;
        }
        for i := 0 to |recent|
          invariant config.Entries? ==> grid == CardItems(recent[..i], config.entries, now)
          invariant config.NullConfig? ==> i == 0 && grid == []
          invariant slot == SlotAfterFetch(old(slot), now, fetchedAt, reply, writeOk)
        {
          if config.NullConfig? {
            grid := [ErrorPlaceholder];
            return;
          }
          var card := Cards.RenderCard(recent[i], config.entries, now);
          assert recent[..i + 1][..i] == recent[..i];
          grid := grid + [CardItem(card)];
        }
        assert recent[..|recent|] == recent;
    }
  }

  /** Writing the cache at `t` and reading it at `later` through a loader. */
  method SetThenGet(stored: Slot, t: int, later: int, data: seq<Repo>) returns (read: Option<seq<Repo>>)
    ensures read == if later - t < CacheTtl then Some(data) else None
  {
    var loader := new Loader(stored);
    loader.SetCache(t, data, true);
    read := loader.GetCached(later);
  }

  /** The cache round trip: an entry written at `t` is read back unchanged
      while less than an hour has passed and is absent from then on; a
      missing or corrupt slot reads as absent. */
  lemma CacheRoundTrip(t: int, later: int, data: seq<Repo>)
    ensures later - t < CacheTtl ==> Lookup(Stored(t, data), later) == Some(data)
    ensures later - t >= CacheTtl ==> Lookup(Stored(t, data), later) == None
    ensures Lookup(Missing, later) == None && Lookup(Corrupt, later) == None
  {
  }

  /** The three outcomes of `fetchRepos`: a hit returns the cached list
      and writes nothing; a failed request leaves the slot as it was; a good
      response is returned and, if storage accepts it, is what the slot then
      holds. */
  lemma FetchOutcomes(slot: Slot, now: int, fetchedAt: int, reply: Reply<seq<Repo>>, writeOk: bool)
    ensures Lookup(slot, now).Some? ==>
      FetchResult(slot, now, reply) == Ok(Lookup(slot, now).value) &&
      SlotAfterFetch(slot, now, fetchedAt, reply, writeOk) == slot
    ensures FetchResult(slot, now, reply).Err? ==>
      Lookup(slot, now).None? && SlotAfterFetch(slot, now, fetchedAt, reply, writeOk) == slot
    ensures Lookup(slot, now).None? && (reply.NetworkError? || !IsOk(reply.status) || reply.body.None?) ==>
      FetchResult(slot, now, reply).Err?
    ensures Lookup(slot, now).None? && reply.Response? && IsOk(reply.status) && reply.body.Some? ==>
      FetchResult(slot, now, reply) == Ok(reply.body.value) &&
      SlotAfterFetch(slot, now, fetchedAt, reply, writeOk) ==
        (if writeOk then Stored(fetchedAt, reply.body.value) else slot)
  {
  }

  lemma {:induction false} CardItemsAt(repos: seq<Repo>, config: Config, now: int)
    ensures |CardItems(repos, config, now)| == |repos|
    ensures forall i :: 0 <= i < |repos| ==>
      CardItems(repos, config, now)[i] == CardItem(Cards.CardFor(repos[i], config, now))
  {
    if repos != [] {
      var init := repos[..|repos| - 1];
      CardItemsAt(init, config, now);
      assert forall i :: 0 <= i < |init| ==> init[i] == repos[i];
    }
  }

  /** The grid holds exactly one of three things: the error placeholder
      alone when the list could not be had; the empty placeholder alone when
      no repository is recent; otherwise one card per recent repository in
      newest-first order and no placeholder. */
  lemma PageOutcomes(fetched: Result<seq<Repo>, LoadError>, config: ConfigBody, now: int)
    ensures fetched.Err? ==> Page(fetched, config, now) == [ErrorPlaceholder]
    ensures fetched.Ok? && Recency.RecentNewestFirst(fetched.value, now) == [] ==>
      Page(fetched, config, now) == [EmptyPlaceholder]
    ensures fetched.Ok? && Recency.RecentNewestFirst(fetched.value, now) != [] && config.NullConfig? ==>
      Page(fetched, config, now) == [ErrorPlaceholder]
    ensures fetched.Ok? && Recency.RecentNewestFirst(fetched.value, now) != [] && config.Entries? ==>
      var recent, page := Recency.RecentNewestFirst(fetched.value, now), Page(fetched, config, now);
      |page| == |recent| &&
      forall i :: 0 <= i < |page| ==> page[i] == CardItem(Cards.CardFor(recent[i], config.entries, now))
  {
    if fetched.Ok? && config.Entries? {
      CardItemsAt(Recency.RecentNewestFirst(fetched.value, now), config.entries, now);
    }
  }

  /** `fetchConfig` never fails the flow by itself: a network error, a
      status outside 200-299 or a body that is not JSON all give `{}`, and a
      good response gives its parsed body. */
  lemma ConfigOutcomes(reply: Reply<ConfigBody>)
    ensures reply.NetworkError? || !IsOk(reply.status) || reply.body.None? ==>
      ConfigOf(reply) == Entries(map[])
    ensures reply.Response? && IsOk(reply.status) && reply.body.Some? ==>
      ConfigOf(reply) == reply.body.value
  {
  }

  /** A 403 response on a cache miss: the error placeholder alone, and the
      cache slot untouched. */
  lemma ForbiddenShowsError(slot: Slot, now: int, fetchedAt: int, body: Option<seq<Repo>>, writeOk: bool, config: ConfigBody)
    requires Lookup(slot, now).None?
    ensures FetchResult(slot, now, Response(403, body)) == Err(HttpError(403))
    ensures Page(FetchResult(slot, now, Response(403, body)), config, now) == [ErrorPlaceholder]
    ensures SlotAfterFetch(slot, now, fetchedAt, Response(403, body), writeOk) == slot
  {
  }
}
