# sublimaku in Dafny

A verified model of the core of sublimaku. sublimaku is a Jimaku subtitle
provider for subliminal, the subtitle downloader. The model covers four
pieces of that code:

- **The anime cross-reference index** (`AniIdLinks`, `ani_id_links.dfy`).
  - A list of records links one title across ID systems.
  - The list is kept in a shared cache region and refreshed over HTTP with
    an ETag.
  - It is indexed lazily by TMDB ID.
  - The cache region and the network are classes whose state the methods
    change: the region's entries and a log of the keys read, and the log of
    the requests sent.
  - Whether a cached value is still live for a given TTL is an input
    (`Freshness`). So are the server's replies: `Network.answer(n, req)` is
    the reply to `req` after `n` earlier requests, so a repeated request may
    be answered differently.
- **The Jimaku catalog client** (`JimakuApi`, `jimaku_api.dfy`).
  - The checks and the query parameters of `search`, and the endpoint strings.
  - The status rule and the mapping from a JSON array to records.
  - The normalisation of `flags` in `JimakuEntry.__post_init__`.
  - The session's GET is a function parameter `get`.
- **The provider** (`Jimaku`, `jimaku.dfy`).
  - Archive detection and the result filter.
  - The choice of search in `query`, the fallback title search, and the
    reconciliation loop that turns files into results.
  - The result-to-subtitle mapping of `list_subtitles` and the `info` text.
- **The command-line hooks** (`CliHacks`, `cli_hacks.dfy`).
  - `isolate_group_params`: an order-preserving partition of the parameter
    list that returns the index of the first member.
  - The splice by which `group()` puts the rebuilt group back.
  - The key selection of `configure_jimaku`.

`Values` (`values.dfy`) holds Option, Result, Python truthiness and a `Filter`
with its lemmas. `Text` (`text.dfy`) holds the few `str` operations the code
uses: `split`, `join`, ASCII `lower` and `str(int)`.

Some behaviour is modelled as written and shown by a member:

- `AniIDLinksCache.set` is called with the list the indexer held *before* the
  download (line 120), not with the records just received.
  `FetchCachesPreviousList` shows this.
- The indexer reads its ETag from the key `AniIDLinkIndexer.etag` (lines
  104-106). Nothing writes that key: `AniIDLinksCache` stores ETags under
  `AniIDLinksEtag`. So a stored ETag is never sent, as
  `StoredEtagIsNotSent` shows.
- After a conditional GET that is not answered 304, the same session sends a
  second GET (line 118). That GET still carries the `If-None-Match` header.
  `AniIdLinkIndexer.AniIdLinks` states the two requests.
- A refresh that fails raises to the caller: a reply without an `ETag`
  header, or a body that is not a list. The code never falls back to the
  stale list in that case.
- Even with the keywords of the first search corrected, a video with no TMDB
  ID and no AniList ID makes that search fail its assertion, so the
  title-only fallback is never reached (`ResolveWithoutIdsFails`). As
  written, every video raises `TypeError` before that point
  (`FirstSearchAsWrittenRaises`).
- The options table of an option group is a `defaultdict`, so only the
  title-option lookup of `isolate_group_params` can raise `KeyError`
  (`Classify`).

## Model

| member | source | states |
|---|---|---|
| AniIdLinks.AniIdLinksCache.Get | src/sublimaku/ani_id_links.py:43-44 | `get` reads `links_key` once and yields the stored list only when the TTL still covers it |
| AniIdLinks.AniIdLinksCache.Set | src/sublimaku/ani_id_links.py:47-49 | `set(d, e)` stores `d` under `links_key`, then `e` under `etag_key`, and changes nothing else |
| AniIdLinks.AniIdLinksCache.GetEtag | src/sublimaku/ani_id_links.py:52-53 | `get_etag` reads `etag_key` once and yields the stored text |
| AniIdLinks.AniIdLinksCache.SetEtag | src/sublimaku/ani_id_links.py:56-57 | `_set_etag(e)` stores `e` under `etag_key` only |
| AniIdLinks.SetThenGet | src/sublimaku/ani_id_links.py:47-58 | after `set(d, e)` a live `get_etag()` returns `e` and a live `get()` returns `d`; every other key, the indexer's ETag key included, is unchanged |
| AniIdLinks.AniIdLinkIndexer.constructor | src/sublimaku/ani_id_links.py:69-78 | the four fields take the given values |
| AniIdLinks.TmdbTable | src/sublimaku/ani_id_links.py:83-85 | every record in the table sits under its own `themoviedb_id`, so a record without one never appears |
| AniIdLinks.TmdbTableLastWins | src/sublimaku/ani_id_links.py:83-87 | looking up `k` gives the last record of the list whose `themoviedb_id` is `k`, and `None` when no record carries `k` |
| AniIdLinks.AniIdLinkIndexer.AniIdLinks | src/sublimaku/ani_id_links.py:89-125 | the four sources in order: (1) an updated, non-empty list in memory is returned with no cache read and no request; (2) otherwise a live, non-empty cached list is returned after one read and no request; (3) otherwise, with a truthy ETag and a truthy stale list, one conditional GET, and a 304 returns the stale list; (4) otherwise one full GET, or a second GET after a non-304 whose own reply is read. A full fetch writes the previous list and the new ETag. A missing ETag header or a non-list body fails. Every successful return leaves `_updated` true and `_ani_id_links` equal to the result. At most two requests are sent, and `If-None-Match` is sent only with a truthy ETag and a truthy stale list |
| AniIdLinks.AniIdLinkIndexer.Refresh | src/sublimaku/ani_id_links.py:103-125 | sources (3) and (4) on their own (`RefreshOutcome`): the reads of the stale list and the ETag, the requests each case sends, which reply each case reads (the second GET's own reply after a non-304), the region afterwards and the result |
| AniIdLinks.AniIdLinkIndexer.LookupThemoviedbId | src/sublimaku/ani_id_links.py:80-87 | a non-empty table answers with no read, no request and no field change; otherwise the table is rebuilt from the list `ani_id_links()` obtains and the answer is the last record of that list carrying the ID. The list in memory answers with no read and no request; the live cached list is read once and adopted, marked updated, with no request. Otherwise the refresh over the network runs: its success leaves the list it obtained in memory, marked updated, and its failure leaves the list, the flag and the table as they were. None of this touches the region except the refresh (`LookupOutcome`) |
| AniIdLinks.RequestsOnlyOnce | tests/test_ani_id_links.py:76-82 | two refreshes of a fresh indexer over an empty region send exactly one request and return the served records |
| AniIdLinks.CacheReadOnlyOnce | tests/test_ani_id_links.py:84-91 | with the list cached, two refreshes read the cache once and send nothing |
| AniIdLinks.FindTmdb | tests/test_ani_id_links.py:93-96 | an indexer over the test records finds the record for TMDB 66875 |
| AniIdLinks.NoFindTmdb | tests/test_ani_id_links.py:98-101 | an indexer over the test records finds nothing for TMDB 42 |
| AniIdLinks.UsesCachedList | tests/test_ani_id_links.py:118-125 | a lookup served from the cached list reads the cache once, sends nothing and finds the record |
| AniIdLinks.StoredEtagIsNotSent | src/sublimaku/ani_id_links.py:104-106 | with a stale list and an ETag both stored by `AniIDLinksCache`, the indexer reads a key nothing wrote, so the refresh is one plain GET without `If-None-Match` |
| AniIdLinks.FetchCachesPreviousList | src/sublimaku/ani_id_links.py:118-125 | a fresh indexer's download caches `None`, the list it held before, and the new ETag, while it returns the records received |
| JimakuApi.FlagsFromDict | src/sublimaku/jimaku_api.py:32-52 | `JimakuFlags(**d)` succeeds exactly when every key of `d` is one of the five flag names, and then each flag is `d`'s value or `None` when absent |
| JimakuApi.FlagsDictRoundTrip | src/sublimaku/jimaku_api.py:32-52 | building flags from the dictionary of a flags record gives back that record |
| JimakuApi.PostInit | src/sublimaku/jimaku_api.py:109-114 | a dictionary `flags` becomes a flags record, a record stays as it is, and no other field of the entry changes |
| JimakuApi.PostInitIdempotent | src/sublimaku/jimaku_api.py:109-114 | normalising a normalised entry changes nothing |
| JimakuApi.TmdbWireRoundTrip | src/sublimaku/jimaku_api.py:146-155 | the wire form `movie:<id>` / `tv:<id>` decodes back to the movie flag and the rendered ID |
| JimakuApi.SearchParams | src/sublimaku/jimaku_api.py:144-157 | the assertions fail exactly when no argument is truthy, or the TMDB ID is truthy and `tmdb_is_movie` is `None`; otherwise the keys are only `anilist_id`, `tmdb_id` and `query`, each present exactly when its argument is truthy and at most once, with its value (the TMDB ID in wire form), in that order |
| JimakuApi.FilesUrlNamesEntry | src/sublimaku/jimaku_api.py:186-187 | the files URL is `https://jimaku.cc/api/entries/`, the entry's decimal ID and `/files`, and the digits read back as the ID |
| JimakuApi.PostInitAll | src/sublimaku/jimaku_api.py:173-176 | one normalised record per element, in order; it fails exactly when some element fails normalisation |
| JimakuApi.ReadEntries | src/sublimaku/jimaku_api.py:169-176 | an error status raises before any record is built; a body that is not JSON fails; otherwise the records come back, one per element in order, exactly when every element normalises |
| JimakuApi.ReadFiles | src/sublimaku/jimaku_api.py:189-195 | the same status rule; a decodable body yields its files, in order |
| JimakuApi.JimakuClient.constructor | src/sublimaku/jimaku_api.py:121-128 | the base URL is `https://jimaku.cc`; without a session a new one is made and given the `Authorization` header, and a supplied session is used as it is |
| JimakuApi.JimakuClient.Search | src/sublimaku/jimaku_api.py:131-176 | a failed assertion sends nothing; otherwise the reply to the GET of the base URL + `/api/entries/search?` + the encoded parameters is read as entries |
| JimakuApi.JimakuClient.Files | src/sublimaku/jimaku_api.py:179-195 | the reply to the GET of the base URL + `/api/entries/<id>/files` is read as files |
| Jimaku.SupportedIffFinalSegment | src/sublimaku/jimaku.py:131-143 | a file is an archive exactly when the text after the last dot of its name (all of it when there is no dot), lower-cased, is `zip` or `7z` |
| Jimaku.FindWhisper | src/sublimaku/jimaku.py:147-150 | the search finds the leftmost bracketed `whisper` / `whisperai` tag, letters compared without case, or reports that there is none |
| Jimaku.FilterQueryAsWritten | src/sublimaku/jimaku.py:154-162 | the filter as written raises exactly when the name is empty, and keeps a result only without a whisper tag and with at least 500 bytes |
| Jimaku.FilterQueryAsWrittenRejectsAll | src/sublimaku/jimaku.py:159-160 | as written, every result with a non-empty name is rejected |
| Jimaku.FilterQueryIff | src/sublimaku/jimaku.py:147-162 | the corrected filter keeps a result exactly when its name has no bracketed whisper tag, its final dot-segment, lower-cased, is a subtitle extension, and it has at least 500 bytes |
| Jimaku.FilterQueryExcludesArchives | src/sublimaku/jimaku.py:140-162 | a file the archive check accepts never passes the filter |
| Jimaku.Unarchived | src/sublimaku/jimaku.py:249-263 | each result comes from a file of the list that is not an archive, taken as it is: its name, its size, not archived, no archive fields |
| Jimaku.UnarchivedKeeps | src/sublimaku/jimaku.py:249-263 | every file that is not an archive yields its result |
| Jimaku.UnarchivedAppend | src/sublimaku/jimaku.py:249-263 | the results keep file order: those of two runs of files are the results of each, one after the other |
| Jimaku.Reconcile | src/sublimaku/jimaku.py:249-263 | the loop returns exactly the results of the files that are not archives, in file order |
| Jimaku.StrategyFor | src/sublimaku/jimaku.py:226-228 | AniList is used exactly when its ID is known; TMDB exactly when it is not and a TMDB ID is; the fuzzy query always goes with TMDB |
| Jimaku.IntArg | src/sublimaku/jimaku.py:233-234 | a known ID is passed unchanged as an integer argument, an unknown one as `None`, and the argument is truthy exactly when the ID is |
| Jimaku.FirstSearch | src/sublimaku/jimaku.py:219-237 | the first search passes the AniList ID itself exactly when one is known, the video's TMDB ID itself exactly when there is one and no truthy AniList ID, the movie flag only for a movie searched by TMDB, and the video's title exactly when TMDB is used |
| Jimaku.UnknownKeyword | src/sublimaku/jimaku.py:232-237 | `None` exactly when `search` declares every keyword; otherwise an undeclared keyword of the call, every keyword before which is declared |
| Jimaku.FirstSearchAsWritten | src/sublimaku/jimaku.py:232-237 | the call as written succeeds exactly when every keyword it passes is declared by `search` |
| Jimaku.FirstSearchAsWrittenRaises | src/sublimaku/jimaku.py:232-237 | as written, the first search raises for every video, naming `tmdb_series_id` |
| Jimaku.FindEntries | src/sublimaku/jimaku.py:232-240 | the title search runs only when the first search returns no entries |
| Jimaku.Resolve | src/sublimaku/jimaku.py:239-263 | `None` exactly when both searches come back empty; a search error or a files error is the result; otherwise the unarchived results for the files of the first entry |
| Jimaku.ResolveWithoutIdsFails | src/sublimaku/jimaku.py:219-240 | a video with neither ID fails the first search's assertion and never reaches the fallback |
| Jimaku.ResolveUsesFirstEntry | src/sublimaku/jimaku.py:246-263 | every result belongs to the first entry found and is not archived |
| Jimaku.SearchAndReconcile | src/sublimaku/jimaku.py:232-263 | the searches and the reconciliation loop compute `Resolve` |
| Jimaku.Query | src/sublimaku/jimaku.py:216-263 | without a lone truthy TMDB ID the index, the cache and the network are not touched; with one, the AniList ID is that of the record the index holds for the TMDB ID: a non-empty table is kept, an empty one is rebuilt from the index's list with the last record carrying the ID winning, and the lookup's effects on the list in memory, its flag, the region, the cache reads and the requests are exactly those of `lookup_themoviedb_id` (`LookupOutcome`), so a warm table, the list in memory or the live cached list send nothing and write nothing; a failure of the index is reported and leaves its table as it was |
| Jimaku.CreateSubtitle | src/sublimaku/jimaku.py:269-273 | corrected: the subtitle's ID is the file name, its page link is `https://jimaku.cc/entry/` + the entry ID, and the optional fields are unset; the `video` keyword binds the call (`NewSubtitle`) but the subtitle keeps no field for it (lines 80-85) |
| Jimaku.NewSubtitle | src/sublimaku/jimaku.py:48-62 | a subtitle call succeeds exactly when it passes every required keyword-only parameter (`video`), and then builds the corrected subtitle; otherwise it raises naming a missing one |
| Jimaku.CreateAsWrittenRaises | src/sublimaku/jimaku.py:269-273 | as written, `create` raises `TypeError` for every result, naming `video` |
| Jimaku.CreateAll | src/sublimaku/jimaku.py:275 | the comprehension makes one subtitle per kept result in order, and fails exactly when some call fails, with the first result's error when that one fails |
| Jimaku.KeptResultRaises | src/sublimaku/jimaku.py:266-275 | even with the filter corrected, as written `list_subtitles` raises `TypeError` naming `video` whenever a result is kept |
| Jimaku.CreateAllWithVideo | src/sublimaku/jimaku.py:266-275 | corrected: with `video` passed the comprehension raises nothing and gives exactly `ListSubtitles` |
| Jimaku.KeepAsWritten | src/sublimaku/jimaku.py:267 | the as-written filter over the results keeps only results of the list, and raises `ValueError` exactly when some result has an empty name |
| Jimaku.ListSubtitlesAsWritten | src/sublimaku/jimaku.py:266-275 | as written, `None` from `query` is not iterable |
| Jimaku.KeepAsWrittenKeepsNothing | src/sublimaku/jimaku.py:159-160 | as written, no result with a non-empty name is kept |
| Jimaku.ListSubtitlesAsWrittenOffersNothing | src/sublimaku/jimaku.py:243-275 | as written, `list_subtitles` raises when no entry is found and offers nothing otherwise |
| Jimaku.ListSubtitles | src/sublimaku/jimaku.py:266-275 | corrected (iterable results, the final dot-segment, `video` passed): no entry gives no subtitles, and every subtitle comes from a result the filter keeps |
| Jimaku.ListSubtitlesKeeps | src/sublimaku/jimaku.py:266-275 | corrected (iterable results, the final dot-segment, `video` passed): every result the filter keeps is offered as a subtitle |
| Jimaku.ListSubtitlesAppend | src/sublimaku/jimaku.py:266-275 | the subtitles keep the order of the results |
| Jimaku.PlainSubtitleKept | src/sublimaku/jimaku.py:154-162 | a 500-byte `ep01.srt` passes the corrected filter and is rejected by the filter as written |
| Jimaku.Pad2 | src/sublimaku/jimaku.py:102 | `{n:02d}` has at least two characters, exactly two below 100, and for `n >= 0` its digits read back as `n` |
| Jimaku.Info | src/sublimaku/jimaku.py:88-102 | `info` fails exactly when the season or the episode is `None` |
| Jimaku.InfoEpisodeCode | src/sublimaku/jimaku.py:88-102 | for a season and an episode under 100, `info` is the series with its year, then ` sNNeNN` whose digits read back as the season and the episode, then the title part with no separator |
| CliHacks.Classify | src/sublimaku/cli_hacks.py:34-37 | a parameter is in the group exactly when its name is one of the group's options or it is the title option; the lookup raises exactly when the name is not an option and the title table lacks the key |
| CliHacks.FirstIndex | src/sublimaku/cli_hacks.py:43 | the index of the first matching element |
| CliHacks.IsolatedPartition | src/sublimaku/cli_hacks.py:17-45 | `IndexError` exactly when nothing raises and there is no member; otherwise every parameter lands in exactly one list, each list holds only its kind, and the index is that of the first member |
| CliHacks.IsolatedKeepsOrder | src/sublimaku/cli_hacks.py:33-41 | both lists keep the input order |
| CliHacks.IsolateGroupParams | src/sublimaku/cli_hacks.py:29-45 | the loop over a copy of the list computes the partition above, the first index or the error |
| CliHacks.Splice | src/sublimaku/cli_hacks.py:113 | `rest[s:s] = group` has length `|rest| + |group|`, keeps rest's first `s` items, then the group, then the remainder |
| CliHacks.SpliceRestoresOrder | src/sublimaku/cli_hacks.py:90-113 | when the members stand together in the list, a replacement is spliced exactly where they were, and splicing the group itself back restores the list |
| CliHacks.RegroupParams | src/sublimaku/cli_hacks.py:90-113 | `group()`'s recombination fails exactly when isolation fails; for a contiguous group the rebuilt group takes the original group's place |
| CliHacks.ChooseApiKey | src/sublimaku/cli_hacks.py:55-57 | the argument when truthy, otherwise the configured key or `None` |
| CliHacks.ChooseApiKeyIdempotent | src/sublimaku/cli_hacks.py:55-57 | choosing again over the configuration it produced gives the same key |
| CliHacks.ConfigureJimaku | src/sublimaku/cli_hacks.py:48-61 | `jimaku` is removed from the keyword arguments (a `KeyError` when missing); the chosen key is stored only when a Jimaku configuration exists |
| CliHacks.ConfigureScenario | src/sublimaku/cli_hacks.py:48-61 | a key given on the command line replaces the configured one, and an empty one keeps it |

## Left out

- AniIdLinks.AniIdLink: a `themoviedb_id` that is absent and one that is JSON `null` are both `None`. In Python the `in` test of src/sublimaku/ani_id_links.py:84 is true for a `null`, so such a record is filed under the key `None` and makes the table truthy. The model skips it, because lookups are by integer ID and that key is never asked for; only the truthiness of a table made solely of such records differs.
- The dogpile cache itself is left out: TTL arithmetic, the clock and the meaning of `expiration_time=0`. Whether each read is still live is an input.
- The `cache_on_arguments` memoisation of `search` and `files` is left out. Each call is modelled as a fresh request.
- HTTP is left out: sessions, `raise_for_status` internals beyond "raises for 400-599", and JSON decoding. Replies are inputs. `session_factory` is not part of this model.
- `urlencode` is modelled as the `k=v` pairs joined by `&`, without percent-encoding.
- `datetime.fromisoformat` on `last_modified` is left out. The timestamp is kept as text.
- `JimakuFile(**file)` key checking is left out. Files arrive as records.
- JimakuApi.PostInitAll: the `TypeError` that `JimakuEntry(**entry)` raises on an unknown or missing key is not modelled. Entries arrive as records, and the only failure left is an unknown flag.
- CliHacks.Classify: the option-group library is not part of this model. Its options table is taken to be a `defaultdict` and its title table a plain mapping. The empty entry a `defaultdict` lookup inserts is not modelled.
- The whisper pattern is matched with ASCII case-insensitivity. Python's Unicode case folding is not modelled, and neither is Unicode `str.lower()`.
- subliminal's `SUBTITLE_EXTENSIONS` is foreign code, so the extension set is a parameter `exts`. The lemmas that need its shape state it: no empty name, no dot, or `srt` being in it.
- `JimakuSubtitle.get_matches` is left out because it is guessit's matching. The base-class fields of a subtitle (language, encoding and so on) are left out too.
- `ArchiveRepo.list_zip` is not implemented in the source, so it is left out.
- `JimakuProvider.initialize`/`terminate` and the `option()` hook are dependency wiring, so they are left out.
- The click plumbing of `group()` is left out: the option-group decorator that rebuilds the group is a function parameter `decorate`, and `update_wrapper` and the wrapped callback are not modelled.
- The lookup of `ctx.obj['provider_configs']` is left out: the context holds the configurations directly. Keyword-argument values are optional strings only.
- JimakuApi.PostInit: modelled on values rather than as an in-place update, because the entry is a record just built from JSON that nothing else holds.
- AniIdLinks.AniIdLinkIndexer.AniIdLinks: the network and the cache cannot fail in the model except through the reply's missing ETag or a body that is not a list. Connection errors are not modelled.

## Findings

| source | as written | input that shows it | evidently intended | confidence | as-written member | corrected member |
|---|---|---|---|---|---|---|
| src/sublimaku/jimaku.py:160 | `'.'.split(name)[-1]` splits the text "." on the file name, so the extension it compares is "." or "" | a 500-byte result named `ep01.srt` is rejected | `name.split('.')[-1]`, the final dot-segment, as in `ArchiveRepo.supported` at line 142 | high, not executed | Jimaku.FilterQueryAsWritten, Jimaku.FilterQueryAsWrittenRejectsAll, Jimaku.PlainSubtitleKept | Jimaku.FilterQuery, Jimaku.FilterQueryIff |
| src/sublimaku/jimaku.py:232-237 | `query` calls `search` with the keywords `tmdb_series_id` and `tmdb_series_id_is_movie`, which `search` does not declare (src/sublimaku/jimaku_api.py:131-137), so the call raises `TypeError` | any video | the keywords `tmdb_id` and `tmdb_is_movie` | high, not executed | Jimaku.FirstSearchAsWritten, Jimaku.FirstSearchAsWrittenRaises | Jimaku.FirstSearch, Jimaku.Query |
| src/sublimaku/jimaku.py:273 | `create` calls `JimakuSubtitle(None, filename, page_link=page_link)`, leaving out `video`, a keyword-only parameter with no default (line 62), so the call raises `TypeError` | any result the filter keeps | pass `video=video`, the video being listed | high, not executed | Jimaku.CreateAsWrittenRaises, Jimaku.KeptResultRaises | Jimaku.CreateSubtitle, Jimaku.CreateAllWithVideo, Jimaku.ListSubtitles |
| src/sublimaku/jimaku.py:243 | `query` returns `None` when no entry is found, and `list_subtitles` passes that to `filter`, which raises `TypeError` | a video whose searches both come back empty | no entry means no subtitles | high, not executed | Jimaku.ListSubtitlesAsWritten, Jimaku.ListSubtitlesAsWrittenOffersNothing | Jimaku.ListSubtitles, Jimaku.ListSubtitlesKeeps |
