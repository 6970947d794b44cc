/** The Jimaku subtitle provider of `src/sublimaku/jimaku.py`: which files
    count as archives, which results are worth offering, how `query` picks
    its search, and how results become subtitles. */
module Jimaku {
  import opened Values
  import Text
  import opened JimakuApi
  import AniIdLinks

  /** What the provider can raise: an error of the catalog client, a failure
      to fetch the ID links, a keyword the client does not accept
      (`TypeError`), a required keyword left out of a call (`TypeError`),
      `str.split` with an empty separator (`ValueError`), iterating `None`
      (`TypeError`), or formatting `None` as a number (`TypeError`). */
  datatype ProviderError =
    | Api(error: ApiError)
    | Links(failure: AniIdLinks.FetchError)
    | UnexpectedKeyword(name: string)
    | MissingKeyword(name: string)
    | EmptySeparator
    | NotIterable
    | NoneFormat

  function Lift<T>(r: Result<T, ApiError>): Result<T, ProviderError> {
    match r
    case Ok(v) => Ok(v)
    case Err(e) => Err(Api(e))
  }

  // ---------------------------------------------------------------------
  // Archives
  // ---------------------------------------------------------------------

  const ArchiveExts: set<string> := {"zip", "7z"}

  /** `ArchiveRepo.supported`: the text after the last dot of the name,
      lower-cased, is an archive extension. */
  predicate Supported(file: JimakuFile) {
    Text.Lower(Text.Last(Text.Split(file.name, "."))) in ArchiveExts
  }

  /** A file is an archive exactly when the final dot-segment of its name
      (all of it when there is no dot) is `zip` or `7z`, in any case. */
  lemma SupportedIffFinalSegment(file: JimakuFile)
    ensures Supported(file) <==>
      exists seg :: Text.IsFinalSegment(file.name, seg, '.') && Text.Lower(seg) in ArchiveExts
  {
    var last := Text.Last(Text.Split(file.name, "."));
    Text.LastPieceIsFinalSegment(file.name, '.');
    forall seg | Text.IsFinalSegment(file.name, seg, '.')
      ensures seg == last
    {
      Text.FinalSegmentUnique(file.name, seg, last, '.');
    }
  }

  // ---------------------------------------------------------------------
  // The result filter
  // ---------------------------------------------------------------------

  /** The minimum size of a real subtitle file, in bytes. */
  const MinSize := 500

  /** The set the filter builds from subliminal's `SUBTITLE_EXTENSIONS` by
      dropping each leading dot ("srt", "ass", ...). subliminal is not part of
      this model, so the set is a parameter `exts` of the filter; this is
      what its shape guarantees: names that are neither empty nor dotted. */
  predicate PlainExtensions(exts: set<string>) {
    forall e | e in exts :: e != "" && '.' !in e
  }

  datatype QueryResult = QueryResult(
    apiEntry: JimakuEntry,
    apiFile: JimakuFile,
    realFilename: string,
    realFileSize: int,
    isArchived: bool,
    archiveName: Option<string>,
    archiveKey: Option<string>)

  predicate IsOpen(c: char) { c == '[' || c == '(' }

  predicate IsClose(c: char) { c == ']' || c == ')' }

  /** `[\[\(]word[\]\)]` matches at index `i`, letters compared without case. */
  predicate TagAt(s: string, i: int, word: string) {
    && 0 <= i
    && i + |word| + 2 <= |s|
    && IsOpen(s[i])
    && Text.Lower(s[i + 1..i + 1 + |word|]) == word
    && IsClose(s[i + 1 + |word|])
  }

  /** The whisper pattern matches at index `i`. */
  predicate WhisperAt(s: string, i: int) {
    TagAt(s, i, "whisperai") || TagAt(s, i, "whisper")
  }

  /** `whisper_expr.search(s)` started at `from`: the leftmost match. */
  function FindWhisper(s: string, from: nat): (r: Option<nat>)
    ensures r.Some? ==>
      && from <= r.value < |s|
      && WhisperAt(s, r.value)
      && forall j :: from <= j < r.value ==> !WhisperAt(s, j)
    ensures r.None? ==> forall j :: from <= j ==> !WhisperAt(s, j)
    decreases |s| - from
  {
    if from >= |s| then None
    else if WhisperAt(s, from) then Some(from)
    else FindWhisper(s, from + 1)
  }

  /** `filter_query` as written: the extension clause splits "." on the file
      name, so it looks at a piece of "." rather than of the name, and a
      name that is empty makes `split` raise. */
  function FilterQueryAsWritten(exts: set<string>, q: QueryResult): (r: Result<bool, ProviderError>)
    ensures r.Err? <==> q.realFilename == ""
    ensures r.Err? ==> r.error == EmptySeparator
    ensures r == Ok(true) ==> FindWhisper(q.realFilename, 0).None? && q.realFileSize >= MinSize
  {
    if FindWhisper(q.realFilename, 0).Some? then Ok(false)
    else if q.realFilename == "" then Err(EmptySeparator)
    else Ok(Text.Lower(Text.Last(Text.Split(".", q.realFilename))) in exts && q.realFileSize >= MinSize)
  }

  /** As written, every result with a non-empty name is rejected: the last
      piece of `'.'.split(name)` is "." or "", never a subtitle extension. */
  lemma FilterQueryAsWrittenRejectsAll(exts: set<string>, q: QueryResult)
    requires PlainExtensions(exts)
    requires q.realFilename != ""
    ensures FilterQueryAsWritten(exts, q) == Ok(false)
  {
    var name := q.realFilename;
    if FindWhisper(name, 0).None? {
      var last := Text.Last(Text.Split(".", name));
      if |name| > 1 {
        assert |"."| < |name|;
        assert Text.Split(".", name) == ["."];
      } else if name == "." {
        assert Text.Split("", name) == [""];
        assert Text.Split(".", name) == [""] + [""];
      } else {
        assert "."[..|name|] != name && "."[1..] == "";
        assert Text.Split("", name) == [""];
        assert Text.Split(".", name) == [['.'] + ""];
      }
      assert last == "." || last == "";
      assert Text.Lower(last) == last by {
        if last == "." { assert Text.LowerChar('.') == '.'; }
      }
    }
  }

  /** `filter_query` with the extension taken from the name's last dot-segment. */
  predicate FilterQuery(exts: set<string>, q: QueryResult) {
    && FindWhisper(q.realFilename, 0).None?
    && Text.Lower(Text.Last(Text.Split(q.realFilename, "."))) in exts
    && q.realFileSize >= MinSize
  }

  /** A result is kept exactly when its name carries no bracketed whisper tag,
      its final dot-segment is a subtitle extension, and it is at least
      500 bytes. */
  lemma FilterQueryIff(exts: set<string>, q: QueryResult)
    ensures FilterQuery(exts, q) <==>
      && (forall i :: !WhisperAt(q.realFilename, i))
      && (exists seg :: Text.IsFinalSegment(q.realFilename, seg, '.') && Text.Lower(seg) in exts)
      && q.realFileSize >= MinSize
  {
    var name := q.realFilename;
    var last := Text.Last(Text.Split(name, "."));
    Text.LastPieceIsFinalSegment(name, '.');
    forall seg | Text.IsFinalSegment(name, seg, '.')
      ensures seg == last
    {
      Text.FinalSegmentUnique(name, seg, last, '.');
    }
    var found := FindWhisper(name, 0);
    if found.Some? {
      assert WhisperAt(name, found.value);
    }
  }

  /** A file the archive check accepts never passes the filter. */
  lemma FilterQueryExcludesArchives(exts: set<string>, q: QueryResult)
    requires ArchiveExts !! exts
    requires Supported(q.apiFile) && q.realFilename == q.apiFile.name
    ensures !FilterQuery(exts, q)
  {
    assert Text.Lower(Text.Last(Text.Split(q.realFilename, "."))) in ArchiveExts;
  }

  /** The filter as a value `filter` can take. */
  function Keeps(exts: set<string>): QueryResult -> bool {
    q => FilterQuery(exts, q)
  }

  // ---------------------------------------------------------------------
  // Reconciliation: files to results
  // ---------------------------------------------------------------------

  /** The result for a file taken as it is, outside any archive. */
  function AsResult(entry: JimakuEntry, file: JimakuFile): QueryResult {
    QueryResult(entry, file, file.name, file.size, false, None, None)
  }

  predicate Unsupported(file: JimakuFile) {
    !Supported(file)
  }

  /** One result per file that is not an archive, in file order. */
  function Unarchived(entry: JimakuEntry, files: seq<JimakuFile>): (rs: seq<QueryResult>)
    ensures |rs| <= |files|
    ensures forall x | x in rs ::
      && x.apiFile in files
      && !Supported(x.apiFile)
      && x == AsResult(entry, x.apiFile)
  {
    var kept := Filter(Unsupported, files);
    FilterSubset(Unsupported, files);
    assert forall i | 0 <= i < |kept| :: kept[i] in kept;
    seq(|kept|, i requires 0 <= i < |kept| => AsResult(entry, kept[i]))
  }

  /** Every file that is not an archive yields its result. */
  lemma UnarchivedKeeps(entry: JimakuEntry, files: seq<JimakuFile>, file: JimakuFile)
    requires file in files && !Supported(file)
    ensures AsResult(entry, file) in Unarchived(entry, files)
  {
    FilterKeeps(Unsupported, files, file);
    var kept := Filter(Unsupported, files);
    var i :| 0 <= i < |kept| && kept[i] == file;
    assert Unarchived(entry, files)[i] == AsResult(entry, file);
  }

  /** The results of two runs of files are the results of each, in order. */
  lemma UnarchivedAppend(entry: JimakuEntry, xs: seq<JimakuFile>, ys: seq<JimakuFile>)
    ensures Unarchived(entry, xs + ys) == Unarchived(entry, xs) + Unarchived(entry, ys)
  {
    FilterAppend(Unsupported, xs, ys);
  }

  /** One more file adds its result unless it is an archive. */
  lemma UnarchivedStep(entry: JimakuEntry, files: seq<JimakuFile>, i: nat)
    requires i < |files|
    ensures Unarchived(entry, files[..i + 1]) ==
      Unarchived(entry, files[..i]) + if Supported(files[i]) then [] else [AsResult(entry, files[i])]
  {
    var file := files[i];
    UnarchivedAppend(entry, files[..i], [file]);
    assert files[..i + 1] == files[..i] + [file];
    assert Filter(Unsupported, [file]) == Filter(Unsupported, []) + if Unsupported(file) then [file] else [];
  }

  /** The loop of `query` over the files of the chosen entry. */
  method Reconcile(entry: JimakuEntry, files: seq<JimakuFile>) returns (results: seq<QueryResult>)
    ensures results == Unarchived(entry, files)
  {
    results := [];
    var i := 0;
    while i < |files|
      invariant 0 <= i <= |files|
      invariant results == Unarchived(entry, files[..i])
    {
      var file := files[i];
      UnarchivedStep(entry, files, i);
      if !Supported(file) {
        results := results + [AsResult(entry, file)];
      }
      i := i + 1;
    }
    assert files[..|files|] == files;
  }

  // ---------------------------------------------------------------------
  // Choosing the search
  // ---------------------------------------------------------------------

  /** The video being matched: a film or an episode of a series. */
  datatype Video =
    | Movie(title: string, tmdbId: Option<int>, anilistId: Option<int>)
    | Episode(series: string, tmdbId: Option<int>, anilistId: Option<int>)

  function TitleOf(video: Video): string {
    if video.Episode? then video.series else video.title
  }

  /** The TMDB ID is translated through the link index only when it is truthy
      and the AniList ID is not. */
  predicate NeedsTranslation(video: Video) {
    TruthyInt(video.tmdbId) && !TruthyInt(video.anilistId)
  }

  /** `id_links.get('anilist_id') if id_links else None`. */
  function AnilistOf(found: Option<AniIdLinks.AniIdLink>): Option<int> {
    if found.Some? then found.value.anilistId else None
  }

  datatype Strategy = Strategy(useAnilist: bool, useTmdb: bool, useFuzzy: bool)

  /** The strategy flags: AniList when an AniList ID is known, else TMDB when a
      TMDB ID is; the fuzzy title query goes with TMDB. */
  function StrategyFor(tmdbId: Option<int>, anilistId: Option<int>): (s: Strategy)
    ensures s.useAnilist <==> anilistId.Some?
    ensures s.useTmdb <==> anilistId.None? && tmdbId.Some?
    ensures s.useFuzzy == s.useTmdb
    ensures !(s.useAnilist && s.useTmdb)
  {
    var useAnilist := anilistId.Some?;
    var useTmdb := !useAnilist && tmdbId.Some?;
    Strategy(useAnilist, useTmdb, !useAnilist && useTmdb)
  }

  /** The arguments of one call to `search`, by the parameters it declares. */
  datatype SearchCall = SearchCall(
    anilistId: Option<IdArg>,
    tmdbId: Option<IdArg>,
    tmdbIsMovie: Option<bool>,
    query: Option<string>)

  /** An optional integer ID passed as an `int | str` argument. */
  function IntArg(n: Option<int>): (a: Option<IdArg>)
    ensures n.Some? ==> a == Some(IntId(n.value))
    ensures n.None? ==> a.None?
    ensures TruthyId(a) <==> TruthyInt(n)
  {
    if n.Some? then Some(IntId(n.value)) else None
  }

  /** The first search of `query`, given the AniList ID after translation,
      with its arguments bound to the parameters `search` declares. */
  function FirstSearch(video: Video, anilistId: Option<int>): (c: SearchCall)
    ensures TruthyId(c.anilistId) <==> TruthyInt(anilistId)
    ensures TruthyId(c.tmdbId) <==> TruthyInt(video.tmdbId) && !TruthyInt(anilistId)
    ensures c.tmdbIsMovie == Some(video.Movie? && anilistId.None? && video.tmdbId.Some?)
    ensures TruthyText(c.query) <==> anilistId.None? && video.tmdbId.Some? && TitleOf(video) != ""
    // the values passed: the AniList ID, the video's TMDB ID and its title, unchanged
    ensures anilistId.Some? ==> c.anilistId == Some(IntId(anilistId.value))
    ensures anilistId.None? ==> c.anilistId.None?
    ensures !TruthyInt(anilistId) && video.tmdbId.Some? ==> c.tmdbId == Some(IntId(video.tmdbId.value))
    ensures TruthyInt(anilistId) || video.tmdbId.None? ==> c.tmdbId.None?
    ensures anilistId.None? && video.tmdbId.Some? ==> c.query == Some(TitleOf(video))
    ensures anilistId.Some? || video.tmdbId.None? ==> c.query.None?
  {
    var s := StrategyFor(video.tmdbId, anilistId);
    SearchCall(
      if s.useAnilist then IntArg(anilistId) else None,
      if !TruthyInt(anilistId) then IntArg(video.tmdbId) else None,
      Some(s.useTmdb && video.Movie?),
      if s.useFuzzy then Some(TitleOf(video)) else None)
  }

  /** The title-only search `query` falls back on. */
  function FallbackSearch(video: Video): SearchCall {
    SearchCall(None, None, None, Some(TitleOf(video)))
  }

  /** The keywords `JimakuClient.search` declares. */
  const SearchKeywords: set<string> := {"anilist_id", "tmdb_id", "tmdb_is_movie", "query"}

  /** The keywords the first search of `query` passes, as written. */
  const FirstSearchKeywordsAsWritten: seq<string> :=
    ["anilist_id", "tmdb_series_id", "tmdb_series_id_is_movie", "query"]

  /** The first keyword of `given` that `search` does not declare, which
      Python reports as a `TypeError`. */
  function UnknownKeyword(given: seq<string>): (r: Option<string>)
    ensures r.None? <==> forall k | k in given :: k in SearchKeywords
    ensures r.Some? ==> r.value in given && r.value !in SearchKeywords
    ensures r.Some? ==> exists i | 0 <= i < |given| :: given[i] == r.value && forall j | 0 <= j < i :: given[j] in SearchKeywords
    decreases |given|
  {
    if given == [] then None
    else if given[0] !in SearchKeywords then Some(given[0])
    else
      var r := UnknownKeyword(given[1..]);
      if r.Some? then
        var i :| 0 <= i < |given[1..]| && given[1..][i] == r.value && forall j | 0 <= j < i :: given[1..][j] in SearchKeywords;
        assert given[i + 1] == r.value;
        assert forall j | 0 <= j < i + 1 :: given[j] in SearchKeywords by {
          forall j | 0 < j < i + 1
            ensures given[j] in SearchKeywords
          {
            assert given[j] == given[1..][j - 1];
          }
        }
        r
      else r
  }

  /** The first search as written: its keywords are bound against the
      parameters of `search` before anything is sent. */
  function FirstSearchAsWritten(video: Video, anilistId: Option<int>): (r: Result<SearchCall, ProviderError>)
    ensures r.Ok? <==> forall k | k in FirstSearchKeywordsAsWritten :: k in SearchKeywords
  {
    match UnknownKeyword(FirstSearchKeywordsAsWritten)
    case Some(k) => Err(UnexpectedKeyword(k))
    case None => Ok(FirstSearch(video, anilistId))
  }

  /** As written, the first search raises for every video, naming
      `tmdb_series_id`. */
  lemma FirstSearchAsWrittenRaises(video: Video, anilistId: Option<int>)
    ensures FirstSearchAsWritten(video, anilistId) == Err(UnexpectedKeyword("tmdb_series_id"))
  {
    assert "tmdb_series_id" !in SearchKeywords;
    assert UnknownKeyword(FirstSearchKeywordsAsWritten[1..]) == Some("tmdb_series_id");
  }

  // ---------------------------------------------------------------------
  // query
  // ---------------------------------------------------------------------

  function Run(client: JimakuClient, get: string -> HttpResponse<JimakuEntry>, c: SearchCall)
    : Result<seq<JimakuEntry>, ApiError>
  {
    client.Search(get, c.anilistId, c.tmdbId, c.tmdbIsMovie, c.query)
  }

  /** The entries `query` settles on: the first search, and the title search
      only when the first returned no entries. */
  function FindEntries(client: JimakuClient, get: string -> HttpResponse<JimakuEntry>, video: Video, anilistId: Option<int>)
    : (r: Result<seq<JimakuEntry>, ApiError>)
    ensures
      var first := Run(client, get, FirstSearch(video, anilistId));
      && (first.Err? || first.value != [] ==> r == first)
      && (first == Ok([]) ==> r == Run(client, get, FallbackSearch(video)))
  {
    var first := Run(client, get, FirstSearch(video, anilistId));
    if first.Ok? && first.value == [] then Run(client, get, FallbackSearch(video)) else first
  }

  /** What `query` returns once the AniList ID is settled: `None` when both
      searches come back empty, otherwise the results for the files of the
      first entry. */
  function Resolve(
    client: JimakuClient,
    getEntries: string -> HttpResponse<JimakuEntry>,
    getFiles: string -> HttpResponse<JimakuFile>,
    video: Video,
    anilistId: Option<int>)
    : (r: Result<Option<seq<QueryResult>>, ApiError>)
    ensures r == Ok(None) <==> FindEntries(client, getEntries, video, anilistId) == Ok([])
    ensures
      var entries := FindEntries(client, getEntries, video, anilistId);
      entries.Err? ==> r == Err(entries.error)
    ensures r.Ok? && r.value.Some? ==>
      var entries := FindEntries(client, getEntries, video, anilistId);
      && entries.Ok? && entries.value != []
      && var files := client.Files(getFiles, entries.value[0].id);
      && files.Ok?
      && r.value.value == Unarchived(entries.value[0], files.value)
    // with entries found, the files call decides: its error, or the first entry's unarchived files
    ensures
      var entries := FindEntries(client, getEntries, video, anilistId);
      entries.Ok? && entries.value != [] ==>
        var files := client.Files(getFiles, entries.value[0].id);
        && (files.Err? ==> r == Err(files.error))
        && (files.Ok? ==> r == Ok(Some(Unarchived(entries.value[0], files.value))))
  {
    var entries :- FindEntries(client, getEntries, video, anilistId);
    if entries == [] then Ok(None)
    else
      var files :- client.Files(getFiles, entries[0].id);
      Ok(Some(Unarchived(entries[0], files)))
  }

  /** A video with neither ID never reaches the title search: the first
      search has no truthy argument and fails its assertion. */
  lemma ResolveWithoutIdsFails(
    client: JimakuClient,
    getEntries: string -> HttpResponse<JimakuEntry>,
    getFiles: string -> HttpResponse<JimakuFile>,
    video: Video)
    requires video.tmdbId.None?
    ensures Resolve(client, getEntries, getFiles, video, None) == Err(AssertionFailed)
  {
    var c := FirstSearch(video, None);
    assert SearchParams(c.anilistId, c.tmdbId, c.tmdbIsMovie, c.query).Err?;
  }

  /** Every result of `query` belongs to the same entry, the first one found. */
  lemma ResolveUsesFirstEntry(
    client: JimakuClient,
    getEntries: string -> HttpResponse<JimakuEntry>,
    getFiles: string -> HttpResponse<JimakuFile>,
    video: Video,
    anilistId: Option<int>)
    requires Resolve(client, getEntries, getFiles, video, anilistId).Ok?
    requires Resolve(client, getEntries, getFiles, video, anilistId).value.Some?
    ensures forall x | x in Resolve(client, getEntries, getFiles, video, anilistId).value.value ::
      x.apiEntry == FindEntries(client, getEntries, video, anilistId).value[0] && !x.isArchived
  {
  }

  /** `query` once the AniList ID is settled: the searches, then the
      reconciliation loop over the files of the first entry. */
  method SearchAndReconcile(
    client: JimakuClient,
    getEntries: string -> HttpResponse<JimakuEntry>,
    getFiles: string -> HttpResponse<JimakuFile>,
    video: Video,
    anilistId: Option<int>)
    returns (r: Result<Option<seq<QueryResult>>, ApiError>)
    ensures r == Resolve(client, getEntries, getFiles, video, anilistId)
  {
    var entries := FindEntries(client, getEntries, video, anilistId);
    if entries.Err? {
      return Err(entries.error);
    }
    if entries.value == [] {
      return Ok(None);
    }
    var apiEntry := entries.value[0];
    var files := client.Files(getFiles, apiEntry.id);
    if files.Err? {
      return Err(files.error);
    }
    var results := Reconcile(apiEntry, files.value);
    return Ok(Some(results));
  }

  /** `JimakuProvider.query`: translate a lone TMDB ID through the link index,
      then search and reconcile. */
  method Query(
    video: Video,
    indexer: AniIdLinks.AniIdLinkIndexer,
    cache: AniIdLinks.AniIdLinksCache,
    net: AniIdLinks.Network,
    live: AniIdLinks.Freshness,
    client: JimakuClient,
    getEntries: string -> HttpResponse<JimakuEntry>,
    getFiles: string -> HttpResponse<JimakuFile>)
    returns (r: Result<Option<seq<QueryResult>>, ProviderError>)
    modifies indexer`aniIdLinks, indexer`updated, indexer`themoviedbTable, cache.region, net`sent
    // without a translation the index is not touched
    ensures !NeedsTranslation(video) ==>
      && r == Lift(Resolve(client, getEntries, getFiles, video, video.anilistId))
      && indexer.themoviedbTable == old(indexer.themoviedbTable)
      && indexer.aniIdLinks == old(indexer.aniIdLinks)
      && indexer.updated == old(indexer.updated)
      && net.sent == old(net.sent)
      && cache.region.readLog == old(cache.region.readLog)
      && cache.region.entries == old(cache.region.entries)
    // with one, the AniList ID is that of the record the index holds for the TMDB ID
    ensures NeedsTranslation(video) && !(r.Err? && r.error.Links?) ==>
      && indexer.themoviedbTable.Some?
      && var found := AniIdLinks.TableGet(indexer.themoviedbTable.value, video.tmdbId.value);
      && r == Lift(Resolve(client, getEntries, getFiles, video, AnilistOf(found)))
      // a non-empty table is kept; an empty one is rebuilt from the list, last record winning
      && (AniIdLinks.TruthyTable(old(indexer.themoviedbTable)) ==>
            indexer.themoviedbTable == old(indexer.themoviedbTable))
      && (!AniIdLinks.TruthyTable(old(indexer.themoviedbTable)) ==>
            && indexer.aniIdLinks.Some?
            && indexer.themoviedbTable == Some(AniIdLinks.TmdbTable(indexer.aniIdLinks.value))
            && AniIdLinks.LastWins(indexer.aniIdLinks.value, video.tmdbId.value, found))
    // the lookup's effects on the list in memory, its flag, the region and both logs
    ensures NeedsTranslation(video) ==>
      AniIdLinks.LookupOutcome(net.answer, live, old(indexer.themoviedbTable),
        old(indexer.aniIdLinks), old(indexer.updated), indexer.aniIdLinks, indexer.updated,
        old(cache.region.entries), cache.region.entries, old(cache.region.readLog), cache.region.readLog,
        old(net.sent), net.sent, if r.Err? && r.error.Links? then Some(r.error.failure) else None)
    ensures r.Err? && r.error.Links? ==>
      NeedsTranslation(video) && indexer.themoviedbTable == old(indexer.themoviedbTable)
  {
    var anilistId := video.anilistId;
    if NeedsTranslation(video) {
      var found := indexer.LookupThemoviedbId(video.tmdbId.value, cache, net, live);
      if found.Err? {
        return Err(Links(found.error));
      }
      anilistId := AnilistOf(found.value);
    }
    var resolved := SearchAndReconcile(client, getEntries, getFiles, video, anilistId);
    r := Lift(resolved);
  }

  // ---------------------------------------------------------------------
  // Subtitles
  // ---------------------------------------------------------------------

  const EntryPageBase := "https://jimaku.cc/entry/"

  /** A subtitle as the provider builds it; the base-class fields other than
      the ID and the page link are not modelled. The constructor demands a
      `video` keyword but keeps no field for it. */
  datatype JimakuSubtitle = JimakuSubtitle(
    subtitleId: string,
    pageLink: Option<string>,
    series: Option<string>,
    season: Option<int>,
    episode: Option<int>,
    title: Option<string>,
    year: Option<int>,
    releaseGroup: Option<string>)

  /** The subtitle `create` of `list_subtitles` builds once its call binds:
      the file name is the subtitle ID, the entry's page is the link, and the
      optional fields are left unset. */
  function CreateSubtitle(q: QueryResult): (s: JimakuSubtitle)
    ensures s.subtitleId == q.realFilename
    ensures s.pageLink == Some(EntryPageBase + Text.IntToDecimal(q.apiEntry.id))
    ensures s.series.None? && s.season.None? && s.episode.None? && s.title.None? && s.year.None? && s.releaseGroup.None?
  {
    JimakuSubtitle(q.realFilename, Some(EntryPageBase + Text.IntToDecimal(q.apiEntry.id)), None, None, None, None, None, None)
  }

  /** The keyword-only parameters of `JimakuSubtitle` that have no default. */
  const SubtitleRequiredKeywords: set<string> := {"video"}

  /** The keywords `create` passes, as written. */
  const CreateKeywordsAsWritten: set<string> := {"page_link"}

  /** The keywords `create` evidently means to pass. */
  const CreateKeywords: set<string> := {"page_link", "video"}

  /** `JimakuSubtitle(None, filename, ...)` called with the keywords `given`:
      the call is bound against the parameters before the subtitle is built,
      and a required keyword left out raises. */
  function NewSubtitle(given: set<string>, q: QueryResult): (r: Result<JimakuSubtitle, ProviderError>)
    ensures r.Ok? <==> SubtitleRequiredKeywords <= given
    ensures r.Ok? ==> r.value == CreateSubtitle(q)
    ensures r.Err? ==> r.error.MissingKeyword? && r.error.name in SubtitleRequiredKeywords - given
  {
    if "video" in given then Ok(CreateSubtitle(q))
    else Err(MissingKeyword("video"))
  }

  /** As written, `create` raises for every result, naming `video`. */
  lemma CreateAsWrittenRaises(q: QueryResult)
    ensures NewSubtitle(CreateKeywordsAsWritten, q) == Err(MissingKeyword("video"))
  {
    assert "video" !in CreateKeywordsAsWritten;
  }

  /** The list comprehension of `list_subtitles`, each subtitle made with the
      keywords `given`: the first result whose call raises stops it. */
  function CreateAll(given: set<string>, kept: seq<QueryResult>): (r: Result<seq<JimakuSubtitle>, ProviderError>)
    ensures r.Ok? ==> |r.value| == |kept| && forall i | 0 <= i < |kept| :: NewSubtitle(given, kept[i]) == Ok(r.value[i])
    ensures r.Ok? <==> forall i | 0 <= i < |kept| :: NewSubtitle(given, kept[i]).Ok?
    ensures kept != [] && NewSubtitle(given, kept[0]).Err? ==> r == Err(NewSubtitle(given, kept[0]).error)
    decreases |kept|
  {
    if kept == [] then Ok([])
    else
      var s :- NewSubtitle(given, kept[0]);
      match CreateAll(given, kept[1..])
      case Ok(rest) => Ok([s] + rest)
      case Err(e) => Err(e)
  }

  /** Even with the filter corrected, `create` as written turns any run of
      results with a kept one into a `TypeError` naming `video`. */
  lemma KeptResultRaises(exts: set<string>, rs: seq<QueryResult>, x: QueryResult)
    requires x in rs && FilterQuery(exts, x)
    ensures CreateAll(CreateKeywordsAsWritten, Filter(Keeps(exts), rs)) == Err(MissingKeyword("video"))
  {
    FilterKeeps(Keeps(exts), rs, x);
    var kept := Filter(Keeps(exts), rs);
    CreateAsWrittenRaises(kept[0]);
  }

  /** The results `filter(filter_query, results)` keeps as written, consumed
      in order: the first name that makes the filter raise stops it. */
  function KeepAsWritten(exts: set<string>, rs: seq<QueryResult>): (r: Result<seq<QueryResult>, ProviderError>)
    ensures r.Ok? ==> |r.value| <= |rs| && forall x | x in r.value :: x in rs
    ensures r.Err? <==> exists x | x in rs :: x.realFilename == ""
    ensures r.Err? ==> r.error == EmptySeparator
    decreases |rs|
  {
    if rs == [] then Ok([])
    else
      var keep :- FilterQueryAsWritten(exts, rs[0]);
      var rest := KeepAsWritten(exts, rs[1..]);
      assert forall x | x in rs :: x == rs[0] || x in rs[1..];
      if rest.Err? then Err(rest.error)
      else Ok((if keep then [rs[0]] else []) + rest.value)
  }

  /** `list_subtitles` as written: `None` from `query` is not iterable, the
      filter is the one with the reversed split, and `create` leaves out
      `video`. */
  function ListSubtitlesAsWritten(exts: set<string>, q: Option<seq<QueryResult>>): (r: Result<seq<JimakuSubtitle>, ProviderError>)
    ensures q.None? <==> r == Err(NotIterable)
  {
    match q
    case None => Err(NotIterable)
    case Some(rs) =>
      var kept :- KeepAsWritten(exts, rs);
      CreateAll(CreateKeywordsAsWritten, kept)
  }

  /** As written, no result with a non-empty name ever becomes a subtitle. */
  lemma {:induction false} KeepAsWrittenKeepsNothing(exts: set<string>, rs: seq<QueryResult>)
    requires PlainExtensions(exts)
    requires forall x | x in rs :: x.realFilename != ""
    ensures KeepAsWritten(exts, rs) == Ok([])
    decreases |rs|
  {
    if rs != [] {
      FilterQueryAsWrittenRejectsAll(exts, rs[0]);
      assert forall x | x in rs[1..] :: x in rs;
      KeepAsWrittenKeepsNothing(exts, rs[1..]);
    }
  }

  /** As written, `list_subtitles` raises when `query` found no entry and
      returns nothing when it found results with non-empty names. */
  lemma ListSubtitlesAsWrittenOffersNothing(exts: set<string>, rs: seq<QueryResult>)
    requires PlainExtensions(exts)
    requires forall x | x in rs :: x.realFilename != ""
    ensures ListSubtitlesAsWritten(exts, None) == Err(NotIterable)
    ensures ListSubtitlesAsWritten(exts, Some(rs)) == Ok([])
  {
    KeepAsWrittenKeepsNothing(exts, rs);
  }

  /** `list_subtitles` with no entry found read as no results, and the
      extension taken from the name's last dot-segment. */
  function ListSubtitles(exts: set<string>, q: Option<seq<QueryResult>>): (subs: seq<JimakuSubtitle>)
    ensures q.None? ==> subs == []
    ensures q.Some? ==> |subs| <= |q.value|
    ensures q.Some? ==> forall s | s in subs :: exists x | x in q.value :: FilterQuery(exts, x) && s == CreateSubtitle(x)
  {
    var rs := if q.Some? then q.value else [];
    var kept := Filter(Keeps(exts), rs);
    FilterSubset(Keeps(exts), rs);
    assert forall i | 0 <= i < |kept| :: kept[i] in kept;
    seq(|kept|, i requires 0 <= i < |kept| => CreateSubtitle(kept[i]))
  }

  /** Every result the filter keeps is offered as a subtitle. */
  lemma ListSubtitlesKeeps(exts: set<string>, rs: seq<QueryResult>, x: QueryResult)
    requires x in rs && FilterQuery(exts, x)
    ensures CreateSubtitle(x) in ListSubtitles(exts, Some(rs))
  {
    FilterKeeps(Keeps(exts), rs, x);
    var kept := Filter(Keeps(exts), rs);
    var i :| 0 <= i < |kept| && kept[i] == x;
    assert ListSubtitles(exts, Some(rs))[i] == CreateSubtitle(x);
  }

  /** The subtitles of two runs of results are those of each, in order. */
  lemma ListSubtitlesAppend(exts: set<string>, xs: seq<QueryResult>, ys: seq<QueryResult>)
    ensures ListSubtitles(exts, Some(xs + ys)) == ListSubtitles(exts, Some(xs)) + ListSubtitles(exts, Some(ys))
  {
    FilterAppend(Keeps(exts), xs, ys);
  }

  /** With `video` passed, the comprehension raises nothing and makes the
      subtitles of `ListSubtitles`. */
  lemma {:induction false} CreateAllWithVideo(exts: set<string>, rs: seq<QueryResult>)
    ensures CreateAll(CreateKeywords, Filter(Keeps(exts), rs)) == Ok(ListSubtitles(exts, Some(rs)))
  {
    var kept := Filter(Keeps(exts), rs);
    var r := CreateAll(CreateKeywords, kept);
    assert forall i | 0 <= i < |kept| :: NewSubtitle(CreateKeywords, kept[i]).Ok? by {
      assert "video" in CreateKeywords;
    }
    assert r.value == ListSubtitles(exts, Some(rs));
  }

  /** A plain subtitle file of 500 bytes is kept by the intended filter. */
  lemma PlainSubtitleKept(exts: set<string>, entry: JimakuEntry, file: JimakuFile)
    requires PlainExtensions(exts) && "srt" in exts
    requires file.name == "ep01.srt" && file.size == 500
    ensures FilterQuery(exts, AsResult(entry, file))
    ensures FilterQueryAsWritten(exts, AsResult(entry, file)) == Ok(false)
  {
    var name := file.name;
    assert Text.IsFinalSegment(name, "srt", '.') by {
      assert name[|name| - 3..] == "srt";
      assert name[|name| - 4] == '.';
    }
    assert forall i :: !WhisperAt(name, i) by {
      forall i | 0 <= i < |name|
        ensures !IsOpen(name[i])
      {
      }
    }
    assert Text.Lower("srt") == "srt";
    FilterQueryIff(exts, AsResult(entry, file));
    FilterQueryAsWrittenRejectsAll(exts, AsResult(entry, file));
  }

  // ---------------------------------------------------------------------
  // info
  // ---------------------------------------------------------------------

  /** `f'{n:02d}'`: at least two characters, a leading zero for one digit. */
  function Pad2(n: int): (s: string)
    ensures |s| >= 2
    ensures 0 <= n < 100 ==> |s| == 2
    ensures n >= 0 ==> Text.AllDigits(s) && Text.DecimalValue(s) == n
  {
    if 0 <= n < 10 then
      var s := "0" + Text.NatToDecimal(n);
      assert Text.NatToDecimal(n) == [Text.DigitChar(n)];
      assert s[..|s| - 1] == "0";
      assert Text.DecimalValue("0") == 0 by { assert "0"[..0] == ""; }
      s
    else
      Text.DecimalRoundTrip(if n < 0 then -n else n);
      Text.IntToDecimal(n)
  }

  /** `f'{x}'` of an optional string. */
  function PyStr(s: Option<string>): string {
    if s.Some? then s.value else "None"
  }

  /** The series, with ` (year)` when the year is known. */
  function SeriesYear(series: Option<string>, year: Option<int>): string {
    PyStr(series) + if year.Some? then " (" + Text.IntToDecimal(year.value) + ")" else ""
  }

  /** The present title and release group, joined by ` - `. */
  function TitlePart(title: Option<string>, releaseGroup: Option<string>): string {
    var parts := (if TruthyText(title) then [title.value] else []) +
                 (if TruthyText(releaseGroup) then [releaseGroup.value] else []);
    Text.Join(parts, " - ")
  }

  /** `JimakuSubtitle.info`; a missing season or episode cannot be formatted
      as a number. */
  function Info(sub: JimakuSubtitle): (r: Result<string, ProviderError>)
    ensures r.Err? <==> sub.season.None? || sub.episode.None?
  {
    if sub.season.None? || sub.episode.None? then Err(NoneFormat)
    else
      Ok(SeriesYear(sub.series, sub.year) + " s" + Pad2(sub.season.value) + "e" + Pad2(sub.episode.value)
         + TitlePart(sub.title, sub.releaseGroup))
  }

  /** Where the pieces of `head + " s" + s + "e" + e + tail` stand, for
      two-character `s` and `e`. */
  lemma CodeLayout(head: string, s: string, e: string, tail: string)
    requires |s| == 2 && |e| == 2
    ensures
      var r := head + " s" + s + "e" + e + tail;
      var k := |head|;
      && |r| == k + 7 + |tail|
      && r[..k] == head && r[k..k + 2] == " s" && r[k + 2..k + 4] == s
      && r[k + 4] == 'e' && r[k + 5..k + 7] == e && r[k + 7..] == tail
  {
  }

  /** For seasons and episodes under 100, `info` is the series and year, the
      code ` sNNeNN` whose digits read back as the season and the episode, and
      the title part with no separator before it. */
  lemma InfoEpisodeCode(sub: JimakuSubtitle)
    requires sub.season.Some? && 0 <= sub.season.value < 100
    requires sub.episode.Some? && 0 <= sub.episode.value < 100
    ensures Info(sub).Ok?
    ensures
      var r := Info(sub).value;
      var k := |SeriesYear(sub.series, sub.year)|;
      && |r| == k + 7 + |TitlePart(sub.title, sub.releaseGroup)|
      && r[..k] == SeriesYear(sub.series, sub.year)
      && r[k..k + 2] == " s"
      && Text.AllDigits(r[k + 2..k + 4]) && Text.DecimalValue(r[k + 2..k + 4]) == sub.season.value
      && r[k + 4] == 'e'
      && Text.AllDigits(r[k + 5..k + 7]) && Text.DecimalValue(r[k + 5..k + 7]) == sub.episode.value
      && r[k + 7..] == TitlePart(sub.title, sub.releaseGroup)
  {
    CodeLayout(SeriesYear(sub.series, sub.year), Pad2(sub.season.value), Pad2(sub.episode.value),
               TitlePart(sub.title, sub.releaseGroup));
  }
}
