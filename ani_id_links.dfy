/** The anime cross-reference index of `src/sublimaku/ani_id_links.py`: a
    list of records linking one title across ID systems, kept in a shared
    cache region, refreshed over HTTP with an ETag, and indexed by TMDB ID. */
module AniIdLinks {
  import opened Values

  datatype AnimeType = MOVIE | TV | UNKNOWN | ONA | OVA | SPECIAL

  /** One record of the mapping; every key of the dictionary may be missing. */
  datatype AniIdLink = AniIdLink(
    anidbId: Option<int>,
    anilistId: Option<int>,
    animePlanetId: Option<string>,
    anisearchId: Option<int>,
    imdbId: Option<string>,
    kitsuId: Option<int>,
    livechartId: Option<int>,
    malId: Option<int>,
    notifyMoeId: Option<string>,
    themoviedbId: Option<int>,
    thetvdbId: Option<int>,
    kind: Option<AnimeType>)

  const LinksKey := "AniIDLinks"
  const EtagKey := "AniIDLinksEtag"
  /** The key the indexer reads its ETag from; nothing in the module writes it. */
  const IndexerEtagKey := "AniIDLinkIndexer.etag"
  const DataUrl := "https://raw.githubusercontent.com/Fribb/anime-lists/master/anime-list-mini.json"

  // ---------------------------------------------------------------------
  // The cache region (an external key-value store with expiry)
  // ---------------------------------------------------------------------

  /** What the region holds under a key: a link list (possibly `None`) or a text. */
  datatype CacheValue = LinkList(links: Option<seq<AniIdLink>>) | Text(text: string)

  /** Whether each read's TTL still covers the stored value; the clock is the caller's. */
  datatype Freshness = Freshness(
    refinerTtl: bool,  // `get(REFINER_EXPIRATION_TIME)`, line 93
    zeroTtl: bool,     // `get(0)`, line 103
    etagTtl: bool)     // the 30-day read of the indexer's ETag, lines 104-106

  /** The link list a read finds under `key`, if it is there and still live. */
  function LinksIn(entries: map<string, CacheValue>, key: string, live: bool): Option<seq<AniIdLink>> {
    if live && key in entries && entries[key].LinkList? then entries[key].links else None
  }

  /** The text a read finds under `key`, if it is there and still live. */
  function TextIn(entries: map<string, CacheValue>, key: string, live: bool): Option<string> {
    if live && key in entries && entries[key].Text? then Some(entries[key].text) else None
  }

  /** The region's contents after `AniIDLinksCache.set(data, etag)`. */
  function AfterSet(entries: map<string, CacheValue>, data: Option<seq<AniIdLink>>, etag: string): map<string, CacheValue> {
    entries[LinksKey := LinkList(data)][EtagKey := Text(etag)]
  }

  /** A key-value region; `readLog` logs every key looked up, in order. */
  class Region {
    var entries: map<string, CacheValue>
    var readLog: seq<string>

    constructor (entries: map<string, CacheValue>)
      ensures this.entries == entries && readLog == []
    {
      this.entries := entries;
      readLog := [];
    }

    method Get(key: string, live: bool) returns (v: Option<CacheValue>)
      modifies this`readLog
      ensures readLog == old(readLog) + [key]
      ensures v == (if live && key in entries then Some(entries[key]) else None)
    {
      readLog := readLog + [key];
      v := if live && key in entries then Some(entries[key]) else None;
    }

    method Set(key: string, value: CacheValue)
      modifies this`entries
      ensures entries == old(entries)[key := value]
    {
      entries := entries[key := value];
    }
  }

  /** `AniIDLinksCache`: the link list and its ETag under two keys of one region. */
  class AniIdLinksCache {
    const region: Region

    constructor (region: Region)
      ensures this.region == region
    {
      this.region := region;
    }

    /** `get(expiration_time)`: the stored list when the TTL still covers it. */
    method Get(live: bool) returns (links: Option<seq<AniIdLink>>)
      modifies region`readLog
      ensures region.readLog == old(region.readLog) + [LinksKey]
      ensures links == LinksIn(region.entries, LinksKey, live)
    {
      var v := region.Get(LinksKey, live);
      links := if v.Some? && v.value.LinkList? then v.value.links else None;
    }

    /** `set(data, etag)`: the list under `links_key`, then the ETag under `etag_key`. */
    method Set(data: Option<seq<AniIdLink>>, etag: string)
      modifies region`entries
      ensures region.entries == AfterSet(old(region.entries), data, etag)
    {
      region.Set(LinksKey, LinkList(data));
      SetEtag(etag);
    }

    method GetEtag(live: bool) returns (etag: Option<string>)
      modifies region`readLog
      ensures region.readLog == old(region.readLog) + [EtagKey]
      ensures etag == TextIn(region.entries, EtagKey, live)
    {
      var v := region.Get(EtagKey, live);
      etag := if v.Some? && v.value.Text? then Some(v.value.text) else None;
    }

    /** `_set_etag(etag)`. */
    method SetEtag(etag: string)
      modifies region`entries
      ensures region.entries == old(region.entries)[EtagKey := Text(etag)]
    {
      region.Set(EtagKey, Text(etag));
    }
  }

  /** After `set(d, e)` a live `get_etag()` finds `e` and a live `get` finds `d`;
      every other key, the indexer's ETag key among them, is as it was. */
  lemma SetThenGet(entries: map<string, CacheValue>, d: Option<seq<AniIdLink>>, e: string)
    ensures TextIn(AfterSet(entries, d, e), EtagKey, true) == Some(e)
    ensures LinksIn(AfterSet(entries, d, e), LinksKey, true) == d
    ensures forall k | k != LinksKey && k != EtagKey ::
      (k in AfterSet(entries, d, e) <==> k in entries) &&
      (k in entries ==> AfterSet(entries, d, e)[k] == entries[k])
    ensures IndexerEtagKey in AfterSet(entries, d, e) <==> IndexerEtagKey in entries
  {
  }

  // ---------------------------------------------------------------------
  // The network
  // ---------------------------------------------------------------------

  /** A GET of `url`, with the `If-None-Match` header when one was set. */
  datatype Request = Request(url: string, ifNoneMatch: Option<string>)

  /** A reply: its status, its `ETag` header if any, and its body if it decodes
      as a JSON list of records. */
  datatype Response = Response(status: int, etag: Option<string>, body: Option<seq<AniIdLink>>)

  /** The dataset's server: `answer(n, req)` is its reply to `req` when `n`
      requests came before it, so the same request may be answered
      differently each time; `sent` logs every request. */
  class Network {
    var sent: seq<Request>
    const answer: (nat, Request) -> Response

    constructor (answer: (nat, Request) -> Response)
      ensures sent == [] && this.answer == answer
    {
      sent := [];
      this.answer := answer;
    }

    method Get(req: Request) returns (resp: Response)
      modifies this`sent
      ensures sent == old(sent) + [req] && resp == answer(|old(sent)|, req)
    {
      resp := answer(|sent|, req);
      sent := sent + [req];
    }
  }

  // ---------------------------------------------------------------------
  // The TMDB table
  // ---------------------------------------------------------------------

  /** The dictionary comprehension of lines 83-85: records without a
      `themoviedb_id` are skipped and, on a repeated ID, the later record wins. */
  function TmdbTable(links: seq<AniIdLink>): (table: map<int, AniIdLink>)
    ensures forall k | k in table :: table[k].themoviedbId == Some(k)
    decreases |links|
  {
    if links == [] then map[]
    else
      var table := TmdbTable(links[..|links| - 1]);
      var last := links[|links| - 1];
      if last.themoviedbId.Some? then table[last.themoviedbId.value := last] else table
  }

  /** `dict.get(k)`. */
  function TableGet(table: map<int, AniIdLink>, k: int): Option<AniIdLink> {
    if k in table then Some(table[k]) else None
  }

  /** `i` is the position of the last record in `links` carrying TMDB ID `k`. */
  ghost predicate IsLastWithTmdb(links: seq<AniIdLink>, k: int, i: int) {
    && 0 <= i < |links|
    && links[i].themoviedbId == Some(k)
    && forall j :: i < j < |links| ==> links[j].themoviedbId != Some(k)
  }

  /** `found` is the last record carrying TMDB ID `k`, or `None` when none carries it. */
  ghost predicate LastWins(links: seq<AniIdLink>, k: int, found: Option<AniIdLink>) {
    if found.Some? then exists i :: IsLastWithTmdb(links, k, i) && links[i] == found.value
    else forall i :: 0 <= i < |links| ==> links[i].themoviedbId != Some(k)
  }

  /** Looking `k` up in the table built from `links` yields the last record
      that carries `k`, and `None` exactly when no record carries it. */
  lemma {:induction false} TmdbTableLastWins(links: seq<AniIdLink>, k: int)
    ensures LastWins(links, k, TableGet(TmdbTable(links), k))
    decreases |links|
  {
    if links != [] {
      var init := links[..|links| - 1];
      var last := links[|links| - 1];
      TmdbTableLastWins(init, k);
      if last.themoviedbId == Some(k) {
        assert IsLastWithTmdb(links, k, |links| - 1);
      } else {
        assert TableGet(TmdbTable(links), k) == TableGet(TmdbTable(init), k);
        var found := TableGet(TmdbTable(init), k);
        if found.Some? {
          var i :| IsLastWithTmdb(init, k, i) && init[i] == found.value;
          assert IsLastWithTmdb(links, k, i);
        } else {
          forall i | 0 <= i < |links| ensures links[i].themoviedbId != Some(k) {
            if i < |init| { assert links[i] == init[i]; }
          }
        }
      }
    }
  }

  // ---------------------------------------------------------------------
  // The indexer
  // ---------------------------------------------------------------------

  /** The exceptions the refresh can raise: no `ETag` header on the reply
      (`KeyError`, line 120) or a body that is not a JSON list (line 122). */
  datatype FetchError = MissingEtagHeader | BodyNotJson

  /** The ETag line 108 tests and the stale list it tests with it, both truthy. */
  predicate Revalidates(etag: Option<string>, stale: Option<seq<AniIdLink>>) {
    TruthyText(etag) && TruthyList(stale)
  }

  /** What lines 118-125 leave behind once the reply `resp` is in: on an
      `ETag`, the region gets the PREVIOUS in-memory list `previous` and the new
      ETag (line 120), and the decoded body is returned. */
  ghost predicate FullFetchOutcome(
    resp: Response, previous: Option<seq<AniIdLink>>,
    before: map<string, CacheValue>, after: map<string, CacheValue>,
    r: Result<seq<AniIdLink>, FetchError>)
  {
    if resp.etag.None? then r == Err(MissingEtagHeader) && after == before
    else
      && after == AfterSet(before, previous, resp.etag.value)
      && r == (if resp.body.None? then Err(BodyNotJson) else Ok(resp.body.value))
  }

  /** What lines 103-125 do once neither the list in memory nor the live
      cached list is truthy, from the region `before` and the request log
      `sentBefore` to `after`, `sentAfter` and the result `r`: with a truthy
      ETag and stale list, a conditional GET whose 304 returns the stale list;
      otherwise a full GET (a second one, with the header still set, after a
      non-304), whose reply `FullFetchOutcome` reads. */
  ghost predicate RefreshOutcome(
    answer: (nat, Request) -> Response, live: Freshness, previous: Option<seq<AniIdLink>>,
    before: map<string, CacheValue>, after: map<string, CacheValue>,
    sentBefore: seq<Request>, sentAfter: seq<Request>,
    r: Result<seq<AniIdLink>, FetchError>)
  {
    var stale := LinksIn(before, LinksKey, live.zeroTtl);
    var etag := TextIn(before, IndexerEtagKey, live.etagTtl);
    var n := |sentBefore|;
    if Revalidates(etag, stale) then
      var conditional := Request(DataUrl, etag);
      if answer(n, conditional).status == 304 then
        && sentAfter == sentBefore + [conditional]
        && r == Ok(stale.value)
        && after == before
      else
        && sentAfter == sentBefore + [conditional, conditional]
        && FullFetchOutcome(answer(n + 1, conditional), previous, before, after, r)
    else
      && sentAfter == sentBefore + [Request(DataUrl, None)]
      && FullFetchOutcome(answer(n, Request(DataUrl, None)), previous, before, after, r)
  }

  /** What `lookup_themoviedb_id` (lines 81-96) does to the list in memory,
      its flag, the region, the read log and the request log, from the table
      `table0`, list `links0` and flag `updated0` it starts with; `failure` is
      the error it raises, if any. A non-empty table, the list in memory or the
      live cached list leave all of them as they were (the cached list is only
      read and adopted); otherwise the refresh of lines 103-125 runs, and only
      its success marks the list updated. */
  ghost predicate LookupOutcome(
    answer: (nat, Request) -> Response, live: Freshness, table0: Option<map<int, AniIdLink>>,
    links0: Option<seq<AniIdLink>>, updated0: bool, links1: Option<seq<AniIdLink>>, updated1: bool,
    before: map<string, CacheValue>, after: map<string, CacheValue>,
    readsBefore: seq<string>, readsAfter: seq<string>,
    sentBefore: seq<Request>, sentAfter: seq<Request>,
    failure: Option<FetchError>)
  {
    var content := LinksIn(before, LinksKey, live.refinerTtl);
    if TruthyTable(table0) then
      && failure.None? && links1 == links0 && updated1 == updated0
      && after == before && readsAfter == readsBefore && sentAfter == sentBefore
    else if updated0 && TruthyList(links0) then
      && failure.None? && links1 == links0 && updated1
      && after == before && readsAfter == readsBefore && sentAfter == sentBefore
    else if TruthyList(content) then
      && failure.None? && links1 == content && updated1
      && after == before && readsAfter == readsBefore + [LinksKey] && sentAfter == sentBefore
    else
      && readsAfter == readsBefore + [LinksKey, LinksKey, IndexerEtagKey]
      && (failure.None? ==> links1.Some? && updated1)
      && (failure.Some? ==> links1 == links0 && updated1 == updated0)
      && RefreshOutcome(answer, live, links0, before, after, sentBefore, sentAfter,
                        if failure.None? then Ok(links1.value) else Err(failure.value))
  }

  class AniIdLinkIndexer {
    var aniIdLinks: Option<seq<AniIdLink>>
    var themoviedbTable: Option<map<int, AniIdLink>>
    var thetvdbTable: Option<map<int, AniIdLink>>
    var updated: bool

    constructor (
      aniIdLinks: Option<seq<AniIdLink>>,
      themoviedbTable: Option<map<int, AniIdLink>>,
      thetvdbTable: Option<map<int, AniIdLink>>,
      updated: bool)
      ensures this.aniIdLinks == aniIdLinks && this.themoviedbTable == themoviedbTable
      ensures this.thetvdbTable == thetvdbTable && this.updated == updated
    {
      this.aniIdLinks := aniIdLinks;
      this.themoviedbTable := themoviedbTable;
      this.thetvdbTable := thetvdbTable;
      this.updated := updated;
    }

    /** `ani_id_links()`: the in-memory list, else the live cached list, else
        a conditional GET answered 304, else a full GET. */
    method AniIdLinks(cache: AniIdLinksCache, net: Network, live: Freshness)
      returns (r: Result<seq<AniIdLink>, FetchError>)
      modifies this`aniIdLinks, this`updated, cache.region, net`sent
      // every successful return leaves the list in memory and marks it updated
      ensures r.Ok? ==> updated && aniIdLinks == Some(r.value)
      ensures r.Err? ==> aniIdLinks == old(aniIdLinks) && updated == old(updated)
      // 1. the in-memory list: no cache read, no request
      ensures old(updated) && TruthyList(old(aniIdLinks)) ==>
        && r == Ok(old(aniIdLinks).value)
        && net.sent == old(net.sent)
        && cache.region.readLog == old(cache.region.readLog)
        && cache.region.entries == old(cache.region.entries)
      // 2. the live cached list: one read, no request
      ensures
        var content := LinksIn(old(cache.region.entries), LinksKey, live.refinerTtl);
        !(old(updated) && TruthyList(old(aniIdLinks))) && TruthyList(content) ==>
        && r == Ok(content.value)
        && net.sent == old(net.sent)
        && cache.region.readLog == old(cache.region.readLog) + [LinksKey]
        && cache.region.entries == old(cache.region.entries)
      // 3. and 4. a refresh over the network
      ensures
        var content := LinksIn(old(cache.region.entries), LinksKey, live.refinerTtl);
        !(old(updated) && TruthyList(old(aniIdLinks))) && !TruthyList(content) ==>
        && cache.region.readLog == old(cache.region.readLog) + [LinksKey, LinksKey, IndexerEtagKey]
        && RefreshOutcome(net.answer, live, old(aniIdLinks), old(cache.region.entries), cache.region.entries,
                          old(net.sent), net.sent, r)
      // a call sends at most two requests, and an If-None-Match only with a truthy ETag and stale list
      ensures |old(net.sent)| <= |net.sent| <= |old(net.sent)| + 2
      ensures forall i | |old(net.sent)| <= i < |net.sent| :: net.sent[i].ifNoneMatch.Some? ==>
        Revalidates(TextIn(old(cache.region.entries), IndexerEtagKey, live.etagTtl),
                    LinksIn(old(cache.region.entries), LinksKey, live.zeroTtl))
    {
      if updated && TruthyList(aniIdLinks) {
        return Ok(aniIdLinks.value);
      }

      var cachedList := cache.Get(live.refinerTtl);
      if TruthyList(cachedList) {
        aniIdLinks := cachedList;
        updated := true;
        return Ok(cachedList.value);
      }

      r := Refresh(cache, net, live);
    }

    /** The second half of `ani_id_links`, reached when neither the list in
        memory nor the live cached list is truthy: revalidate the stale list
        with its ETag, or download the list again. */
    method Refresh(cache: AniIdLinksCache, net: Network, live: Freshness)
      returns (r: Result<seq<AniIdLink>, FetchError>)
      modifies this`aniIdLinks, this`updated, cache.region, net`sent
      ensures r.Ok? ==> updated && aniIdLinks == Some(r.value)
      ensures r.Err? ==> aniIdLinks == old(aniIdLinks) && updated == old(updated)
      ensures cache.region.readLog == old(cache.region.readLog) + [LinksKey, IndexerEtagKey]
      ensures RefreshOutcome(net.answer, live, old(aniIdLinks), old(cache.region.entries), cache.region.entries,
                             old(net.sent), net.sent, r)
    {
      ghost var before := cache.region.entries;
      var stale := cache.Get(live.zeroTtl);
      var stored := cache.region.Get(IndexerEtagKey, live.etagTtl);
      var etag := if stored.Some? && stored.value.Text? then Some(stored.value.text) else None;
      assert etag == TextIn(before, IndexerEtagKey, live.etagTtl);

      // the session's header stays set for the second GET as well
      var ifNoneMatch: Option<string> := None;
      if TruthyText(etag) && TruthyList(stale) {
        ifNoneMatch := etag;
        var first := net.Get(Request(DataUrl, ifNoneMatch));
        if first.status == 304 {
          aniIdLinks := stale;
          updated := true;
          return Ok(stale.value);
        }
      }

      var resp := net.Get(Request(DataUrl, ifNoneMatch));
      if resp.etag.None? {
        return Err(MissingEtagHeader);
      }
      cache.Set(aniIdLinks, resp.etag.value);
      if resp.body.None? {
        return Err(BodyNotJson);
      }
      aniIdLinks := resp.body;
      updated := true;
      r := Ok(resp.body.value);
    }

    /** `lookup_themoviedb_id(k)`: build the TMDB table when it is `None` or
        empty, then look `k` up in it. */
    method LookupThemoviedbId(k: int, cache: AniIdLinksCache, net: Network, live: Freshness)
      returns (r: Result<Option<AniIdLink>, FetchError>)
      modifies this`aniIdLinks, this`updated, this`themoviedbTable, cache.region, net`sent
      // a non-empty table is used as it is
      ensures TruthyTable(old(themoviedbTable)) ==>
        r == Ok(TableGet(old(themoviedbTable).value, k)) && themoviedbTable == old(themoviedbTable)
      // otherwise the table is rebuilt from the list just obtained, and the
      // answer is the last record of that list carrying `k`
      ensures !TruthyTable(old(themoviedbTable)) && r.Ok? ==>
        && aniIdLinks.Some?
        && themoviedbTable == Some(TmdbTable(aniIdLinks.value))
        && LastWins(aniIdLinks.value, k, r.value)
      // the list, its flag, the region and both logs, case by case
      ensures LookupOutcome(net.answer, live, old(themoviedbTable), old(aniIdLinks), old(updated), aniIdLinks, updated,
                            old(cache.region.entries), cache.region.entries, old(cache.region.readLog), cache.region.readLog,
                            old(net.sent), net.sent, if r.Ok? then None else Some(r.error))
      ensures r.Ok? ==> themoviedbTable.Some? && r.value == TableGet(themoviedbTable.value, k)
      ensures r.Err? ==> themoviedbTable == old(themoviedbTable)
    {
      if !TruthyTable(themoviedbTable) {
        var links := AniIdLinks(cache, net, live);
        if links.Err? {
          return Err(links.error);
        }
        themoviedbTable := Some(TmdbTable(links.value));
        TmdbTableLastWins(links.value, k);
      }
      r := Ok(TableGet(themoviedbTable.value, k));
    }
  }

  /** Python truthiness of an optional dictionary. */
  predicate TruthyTable(table: Option<map<int, AniIdLink>>) {
    table.Some? && table.value != map[]
  }

  // ---------------------------------------------------------------------
  // The scenarios of tests/test_ani_id_links.py
  // ---------------------------------------------------------------------

  const Nonnon := AniIdLink(
    Some(9722), Some(17549), Some("non-non-biyori"), Some(8390), Some("tt3114358"), Some(7711),
    Some(93), Some(17549), Some("CGzppFiig"), Some(66875), Some(272316), Some(TV))

  const OrderARabbit := AniIdLink(
    Some(1292), Some(1209), Some("nasu-summer-in-andalusia"), Some(673), Some("tt0382868"), Some(1087),
    Some(5776), Some(1209), Some("A3dxcFmmR"), Some(60843), None, Some(MOVIE))

  const TestLinks := [Nonnon, OrderARabbit]

  /** A server that always answers 200 with an ETag and the test records. */
  function ServeTestLinks(n: nat, req: Request): Response {
    Response(200, Some("test_etag"), Some(TestLinks))
  }

  /** Two refreshes of a fresh indexer over an empty region send one request. */
  method RequestsOnlyOnce() returns (requests: nat, links: Result<seq<AniIdLink>, FetchError>)
    ensures requests == 1
    ensures links == Ok(TestLinks)
  {
    var region := new Region(map[]);
    var cache := new AniIdLinksCache(region);
    var net := new Network(ServeTestLinks);
    var indexer := new AniIdLinkIndexer(None, None, None, false);
    var live := Freshness(true, true, true);
    var first := indexer.AniIdLinks(cache, net, live);
    links := indexer.AniIdLinks(cache, net, live);
    requests := |net.sent|;
  }

  /** With the list in the cache, two refreshes read the cache once and send nothing. */
  method CacheReadOnlyOnce() returns (cacheReads: nat, requests: nat)
    ensures cacheReads == 1 && requests == 0
  {
    var region := new Region(map[]);
    var cache := new AniIdLinksCache(region);
    cache.Set(Some(TestLinks), "test_etag");
    var net := new Network(ServeTestLinks);
    var indexer := new AniIdLinkIndexer(None, None, None, false);
    var live := Freshness(true, true, true);
    var first := indexer.AniIdLinks(cache, net, live);
    var second := indexer.AniIdLinks(cache, net, live);
    cacheReads := |region.readLog|;
    requests := |net.sent|;
  }

  /** An indexer built on the test records finds the record for TMDB 66875. */
  method FindTmdb() returns (found: Result<Option<AniIdLink>, FetchError>)
    ensures found == Ok(Some(Nonnon))
  {
    var region := new Region(map[]);
    var cache := new AniIdLinksCache(region);
    var net := new Network(ServeTestLinks);
    var indexer := new AniIdLinkIndexer(Some(TestLinks), None, None, true);
    found := indexer.LookupThemoviedbId(66875, cache, net, Freshness(true, true, true));
    assert found.Ok? && found.value.Some? ==> found.value.value.themoviedbId == Some(66875);
  }

  /** An indexer built on the test records finds nothing for TMDB 42. */
  method NoFindTmdb() returns (found: Result<Option<AniIdLink>, FetchError>)
    ensures found == Ok(None)
  {
    var region := new Region(map[]);
    var cache := new AniIdLinksCache(region);
    var net := new Network(ServeTestLinks);
    var indexer := new AniIdLinkIndexer(Some(TestLinks), None, None, true);
    found := indexer.LookupThemoviedbId(42, cache, net, Freshness(true, true, true));
  }

  /** A lookup served from the cached list reads the cache once and sends nothing. */
  method UsesCachedList() returns (found: Result<Option<AniIdLink>, FetchError>, cacheReads: nat, requests: nat)
    ensures found == Ok(Some(Nonnon))
    ensures cacheReads == 1 && requests == 0
  {
    var region := new Region(map[]);
    var cache := new AniIdLinksCache(region);
    cache.Set(Some(TestLinks), "test_etag");
    var net := new Network(ServeTestLinks);
    var indexer := new AniIdLinkIndexer(None, None, None, false);
    found := indexer.LookupThemoviedbId(66875, cache, net, Freshness(true, true, true));
    assert found.Ok? && found.value.Some? ==> found.value.value.themoviedbId == Some(66875);
    cacheReads := |region.readLog|;
    requests := |net.sent|;
  }

  /** An ETag stored by `AniIDLinksCache` under its own key is never sent:
      with a stale list and that ETag both in the region, the indexer reads a
      different key, so the refresh is a plain GET. */
  method StoredEtagIsNotSent() returns (requests: seq<Request>)
    ensures requests == [Request(DataUrl, None)]
  {
    var region := new Region(map[LinksKey := LinkList(Some(TestLinks)), EtagKey := Text("test_etag")]);
    var cache := new AniIdLinksCache(region);
    var net := new Network(ServeTestLinks);
    var indexer := new AniIdLinkIndexer(None, None, None, false);
    // the cached list has outlived the refiner's TTL but is still there to revalidate
    var links := indexer.AniIdLinks(cache, net, Freshness(false, true, true));
    requests := net.sent;
  }

  /** A fresh indexer's full download caches the list it held before, `None`,
      rather than the records it just received, while the ETag is stored. */
  method FetchCachesPreviousList() returns (stored: Option<seq<AniIdLink>>, etag: Option<string>, links: Result<seq<AniIdLink>, FetchError>)
    ensures stored == None && etag == Some("test_etag")
    ensures links == Ok(TestLinks)
  {
    var region := new Region(map[]);
    var cache := new AniIdLinksCache(region);
    var net := new Network(ServeTestLinks);
    var indexer := new AniIdLinkIndexer(None, None, None, false);
    links := indexer.AniIdLinks(cache, net, Freshness(true, true, true));
    SetThenGet(map[], None, "test_etag");
    stored := LinksIn(region.entries, LinksKey, true);
    etag := TextIn(region.entries, EtagKey, true);
  }
}
