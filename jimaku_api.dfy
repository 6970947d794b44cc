/** The Jimaku catalog client of `src/sublimaku/jimaku_api.py`: the records
    the API returns, the `flags` normalisation of `JimakuEntry.__post_init__`,
    and how `JimakuClient.search` and `JimakuClient.files` build their request
    and read the reply. */
module JimakuApi {
  import opened Values
  import Text

  const UrlBase := "https://jimaku.cc"

  /** A file of an entry; `last_modified` stays as the API's RFC 3339 text. */
  datatype JimakuFile = JimakuFile(lastModified: string, name: string, size: int, url: string)

  /** The five optional flags of an entry; an absent flag is `None`. */
  datatype JimakuFlags = JimakuFlags(
    adult: Option<bool>,
    anime: Option<bool>,
    external: Option<bool>,
    movie: Option<bool>,
    unverified: Option<bool>)

  const FlagNames: set<string> := {"adult", "anime", "external", "movie", "unverified"}

  /** The `flags` field as the JSON gives it (a dictionary whose values may be
      `null`) or as `__post_init__` leaves it (a `JimakuFlags`). */
  datatype FlagsField = FlagsDict(fields: map<string, Option<bool>>) | FlagsRecord(flags: JimakuFlags)

  datatype JimakuEntry = JimakuEntry(
    flags: FlagsField,
    id: int,
    name: string,
    lastModified: string,
    anilistId: Option<int>,
    creatorId: Option<int>,
    englishName: Option<string>,
    japaneseName: Option<string>,
    notes: Option<string>,
    tmdbId: Option<string>)

  /** What a call can raise: the `assert`s of `search` (`AssertionError`), an
      error status (`HTTPError`), an unknown flag keyword (`TypeError`), or a
      body that is not a JSON list. */
  datatype ApiError = AssertionFailed | HttpError(status: int) | UnexpectedFlag | BodyNotJson

  // ---------------------------------------------------------------------
  // Records
  // ---------------------------------------------------------------------

  /** The flag a keyword names. */
  function FlagValue(f: JimakuFlags, name: string): Option<bool>
    requires name in FlagNames
  {
    match name
    case "adult" => f.adult
    case "anime" => f.anime
    case "external" => f.external
    case "movie" => f.movie
    case "unverified" => f.unverified
  }

  /** `JimakuFlags(**d)`: each flag is read from its key, `None` when the key is
      absent; a key that names no flag is a `TypeError`. */
  function FlagsFromDict(d: map<string, Option<bool>>): (r: Result<JimakuFlags, ApiError>)
    ensures r.Ok? <==> d.Keys <= FlagNames
    ensures r.Ok? ==> forall name | name in FlagNames :: FlagValue(r.value, name) == GetOrNone(d, name)
  {
    if d.Keys <= FlagNames then
      Ok(JimakuFlags(
        GetOrNone(d, "adult"), GetOrNone(d, "anime"), GetOrNone(d, "external"),
        GetOrNone(d, "movie"), GetOrNone(d, "unverified")))
    else Err(UnexpectedFlag)
  }

  /** The dictionary the API would send for `f`. */
  function FlagsToDict(f: JimakuFlags): map<string, Option<bool>> {
    map["adult" := f.adult, "anime" := f.anime, "external" := f.external,
        "movie" := f.movie, "unverified" := f.unverified]
  }

  /** Reading back the dictionary of a set of flags gives those flags. */
  lemma FlagsDictRoundTrip(f: JimakuFlags)
    ensures FlagsFromDict(FlagsToDict(f)) == Ok(f)
  {
    var d := FlagsToDict(f);
    assert d.Keys == FlagNames;
  }

  /** `JimakuEntry.__post_init__`: a dictionary `flags` becomes a `JimakuFlags`;
      nothing else of the entry changes. */
  function PostInit(e: JimakuEntry): (r: Result<JimakuEntry, ApiError>)
    ensures r.Ok? ==> r.value.flags.FlagsRecord? && r.value.(flags := e.flags) == e
    ensures e.flags.FlagsRecord? ==> r == Ok(e)
    ensures e.flags.FlagsDict? ==>
      (r.Ok? <==> FlagsFromDict(e.flags.fields).Ok?) &&
      (r.Ok? ==> r.value.flags.flags == FlagsFromDict(e.flags.fields).value)
  {
    match e.flags
    case FlagsRecord(_) => Ok(e)
    case FlagsDict(d) =>
      var f := FlagsFromDict(d);
      if f.Ok? then Ok(e.(flags := FlagsRecord(f.value))) else Err(f.error)
  }

  /** Normalising twice is normalising once. */
  lemma PostInitIdempotent(e: JimakuEntry)
    requires PostInit(e).Ok?
    ensures PostInit(PostInit(e).value) == PostInit(e)
  {
  }

  // ---------------------------------------------------------------------
  // Search parameters
  // ---------------------------------------------------------------------

  /** An ID argument of `search`, typed `int | str`. */
  datatype IdArg = IntId(n: int) | TextId(s: string)

  predicate TruthyId(a: Option<IdArg>) {
    match a
    case None => false
    case Some(IntId(n)) => n != 0
    case Some(TextId(s)) => s != ""
  }

  /** `str(a)`. */
  function RenderId(a: IdArg): string {
    match a
    case IntId(n) => Text.IntToDecimal(n)
    case TextId(s) => s
  }

  /** The wire form of a TMDB ID: `movie:<id>` or `tv:<id>`. */
  function TmdbWire(isMovie: bool, id: IdArg): string {
    (if isMovie then "movie" else "tv") + ":" + RenderId(id)
  }

  /** Reads the kind and the ID back from a wire form. */
  function DecodeTmdbWire(w: string): Option<(bool, string)> {
    if |w| >= 6 && w[..6] == "movie:" then Some((true, w[6..]))
    else if |w| >= 3 && w[..3] == "tv:" then Some((false, w[3..]))
    else None
  }

  /** The wire form keeps the movie/series kind and the ID text. */
  lemma TmdbWireRoundTrip(isMovie: bool, id: IdArg)
    ensures DecodeTmdbWire(TmdbWire(isMovie, id)) == Some((isMovie, RenderId(id)))
  {
    var w := TmdbWire(isMovie, id);
    if isMovie {
      assert w[..6] == "movie:";
    } else {
      assert w[..3] == "tv:";
      assert w[0] == 't';
      if |w| >= 6 {
        assert w[..6][0] != "movie:"[0];
      }
    }
  }

  /** Where a parameter stands in the order `anilist_id`, `tmdb_id`, `query`. */
  function Rank(key: string): nat {
    if key == "anilist_id" then 0 else if key == "tmdb_id" then 1 else 2
  }

  ghost predicate HasParam(ps: seq<(string, string)>, key: string, value: string) {
    exists i :: 0 <= i < |ps| && ps[i] == (key, value)
  }

  ghost predicate HasKey(ps: seq<(string, string)>, key: string) {
    exists i :: 0 <= i < |ps| && ps[i].0 == key
  }

  /** The `assert`s of `search` and the parameter dictionary it builds:
      one parameter per truthy argument, in the order `anilist_id`, `tmdb_id`,
      `query`, the TMDB ID in its wire form. */
  function SearchParams(anilistId: Option<IdArg>, tmdbId: Option<IdArg>, tmdbIsMovie: Option<bool>, query: Option<string>)
    : (r: Result<seq<(string, string)>, ApiError>)
    ensures r.Err? <==>
      !(TruthyId(anilistId) || TruthyId(tmdbId) || TruthyText(query)) || (TruthyId(tmdbId) && tmdbIsMovie.None?)
    ensures r.Ok? ==>
      && |r.value| >= 1
      && (HasKey(r.value, "anilist_id") <==> TruthyId(anilistId))
      && (HasKey(r.value, "tmdb_id") <==> TruthyId(tmdbId))
      && (HasKey(r.value, "query") <==> TruthyText(query))
      && (TruthyId(anilistId) ==> HasParam(r.value, "anilist_id", RenderId(anilistId.value)))
      && (TruthyId(tmdbId) ==> HasParam(r.value, "tmdb_id", TmdbWire(tmdbIsMovie.value, tmdbId.value)))
      && (TruthyText(query) ==> HasParam(r.value, "query", query.value))
      && (forall i | 0 <= i < |r.value| :: r.value[i].0 == "anilist_id" || r.value[i].0 == "tmdb_id" || r.value[i].0 == "query")
      && (forall i, j :: 0 <= i < j < |r.value| ==> Rank(r.value[i].0) < Rank(r.value[j].0))
  {
    if !(TruthyId(anilistId) || TruthyId(tmdbId) || TruthyText(query)) then Err(AssertionFailed)
    else if TruthyId(tmdbId) && tmdbIsMovie.None? then Err(AssertionFailed)
    else
      var a := if TruthyId(anilistId) then [("anilist_id", RenderId(anilistId.value))] else [];
      var t := if TruthyId(tmdbId) then [("tmdb_id", TmdbWire(tmdbIsMovie.value, tmdbId.value))] else [];
      var q := if TruthyText(query) then [("query", query.value)] else [];
      var ps := a + t + q;
      assert TruthyId(anilistId) ==> ps[0] == a[0];
      assert TruthyId(tmdbId) ==> ps[|a|] == t[0];
      assert TruthyText(query) ==> ps[|a| + |t|] == q[0];
      Ok(ps)
  }

  /** `urlencode(params)` without percent-encoding: `k=v` pairs joined by `&`. */
  function Encode(ps: seq<(string, string)>): string {
    Text.Join(seq(|ps|, i requires 0 <= i < |ps| => ps[i].0 + "=" + ps[i].1), "&")
  }

  function SearchEndpoint(ps: seq<(string, string)>): string {
    "/api/entries/search?" + Encode(ps)
  }

  function FilesEndpoint(jimakuId: int): string {
    "/api/entries/" + Text.IntToDecimal(jimakuId) + "/files"
  }

  /** The files URL of an entry names that entry: between the fixed prefix
      and suffix stand the decimal digits of its ID, which read back as it. */
  lemma FilesUrlNamesEntry(jimakuId: nat)
    ensures
      var url := UrlBase + FilesEndpoint(jimakuId);
      var prefix := "https://jimaku.cc/api/entries/";
      && |url| > |prefix| + 6
      && url[..|prefix|] == prefix
      && url[|url| - 6..] == "/files"
      && Text.AllDigits(url[|prefix|..|url| - 6])
      && Text.DecimalValue(url[|prefix|..|url| - 6]) == jimakuId
  {
    var prefix := "https://jimaku.cc/api/entries/";
    var digits := Text.NatToDecimal(jimakuId);
    var url := UrlBase + FilesEndpoint(jimakuId);
    assert url == prefix + digits + "/files";
    assert url[|prefix|..|url| - 6] == digits;
    Text.DecimalRoundTrip(jimakuId);
  }

  // ---------------------------------------------------------------------
  // Replies
  // ---------------------------------------------------------------------

  /** A reply: its status and its body when that decodes as a JSON list. */
  datatype HttpResponse<T> = HttpResponse(status: int, json: Option<seq<T>>)

  /** `raise_for_status()` raises for a client or server error status. */
  predicate RaisesForStatus(status: int) {
    400 <= status < 600
  }

  /** `tuple(JimakuEntry(**e) for e in raw)`: the first entry that fails
      normalisation raises; otherwise one record per element, in order. */
  function PostInitAll(raw: seq<JimakuEntry>): (r: Result<seq<JimakuEntry>, ApiError>)
    ensures r.Ok? ==> |r.value| == |raw| && forall i :: 0 <= i < |raw| ==> PostInit(raw[i]) == Ok(r.value[i])
    ensures r.Ok? <==> forall i | 0 <= i < |raw| :: PostInit(raw[i]).Ok?
    decreases |raw|
  {
    if raw == [] then Ok([])
    else
      var head := PostInit(raw[0]);
      if head.Err? then Err(head.error)
      else
        var tail := PostInitAll(raw[1..]);
        if tail.Err? then
          assert exists i | 0 <= i < |raw| :: !PostInit(raw[i]).Ok? by {
            var j :| 0 <= j < |raw[1..]| && !PostInit(raw[1..][j]).Ok?;
            assert raw[j + 1] == raw[1..][j];
          }
          Err(tail.error)
        else Ok([head.value] + tail.value)
  }

  /** Lines 169-176: an error status raises before any record is built; a 200
      reply yields one normalised record per element of the body, in order. */
  function ReadEntries(resp: HttpResponse<JimakuEntry>): (r: Result<seq<JimakuEntry>, ApiError>)
    ensures resp.status != 200 && RaisesForStatus(resp.status) ==> r == Err(HttpError(resp.status))
    ensures r.Ok? ==>
      && resp.json.Some?
      && |r.value| == |resp.json.value|
      && forall i :: 0 <= i < |r.value| ==> PostInit(resp.json.value[i]) == Ok(r.value[i])
    ensures !(resp.status != 200 && RaisesForStatus(resp.status)) && resp.json.None? ==> r == Err(BodyNotJson)
    ensures !(resp.status != 200 && RaisesForStatus(resp.status)) && resp.json.Some? ==>
      (r.Ok? <==> forall i | 0 <= i < |resp.json.value| :: PostInit(resp.json.value[i]).Ok?)
  {
    if resp.status != 200 && RaisesForStatus(resp.status) then Err(HttpError(resp.status))
    else if resp.json.None? then Err(BodyNotJson)
    else PostInitAll(resp.json.value)
  }

  /** Lines 189-195: the same status rule; files are taken as they come. */
  function ReadFiles(resp: HttpResponse<JimakuFile>): (r: Result<seq<JimakuFile>, ApiError>)
    ensures resp.status != 200 && RaisesForStatus(resp.status) ==> r == Err(HttpError(resp.status))
    ensures r.Ok? ==> resp.json == Some(r.value)
    ensures !(resp.status != 200 && RaisesForStatus(resp.status)) && resp.json.Some? ==> r.Ok?
  {
    if resp.status != 200 && RaisesForStatus(resp.status) then Err(HttpError(resp.status))
    else if resp.json.None? then Err(BodyNotJson)
    else Ok(resp.json.value)
  }

  // ---------------------------------------------------------------------
  // The client
  // ---------------------------------------------------------------------

  /** An HTTP session: the headers it sends with every request. */
  class Session {
    var headers: map<string, string>

    constructor ()
      ensures headers == map[]
    {
      headers := map[];
    }
  }

  class JimakuClient {
    const urlBase: string
    var session: Session

    /** A client over `session`, or over a new session authorised with `apikey`;
        a supplied session is used as it is and `apikey` is then ignored. */
    constructor (apikey: string, session: Session?)
      ensures urlBase == UrlBase
      ensures session != null ==> this.session == session
      ensures session == null ==> fresh(this.session) && this.session.headers == map["Authorization" := apikey]
    {
      urlBase := UrlBase;
      if session == null {
        var s := new Session();
        s.headers := s.headers["Authorization" := apikey];
        this.session := s;
      } else {
        this.session := session;
      }
    }

    /** `search(...)`: a failed `assert` sends nothing; otherwise the reply to
        the GET of the search URL is read into entries. `get` stands for the
        session's GET. */
    function Search(
      get: string -> HttpResponse<JimakuEntry>,
      anilistId: Option<IdArg>, tmdbId: Option<IdArg>, tmdbIsMovie: Option<bool>, query: Option<string>)
      : (r: Result<seq<JimakuEntry>, ApiError>)
      ensures SearchParams(anilistId, tmdbId, tmdbIsMovie, query).Err? ==> r == Err(AssertionFailed)
      ensures
        var ps := SearchParams(anilistId, tmdbId, tmdbIsMovie, query);
        ps.Ok? ==> r == ReadEntries(get(urlBase + SearchEndpoint(ps.value)))
    {
      var ps := SearchParams(anilistId, tmdbId, tmdbIsMovie, query);
      if ps.Err? then Err(ps.error)
      else ReadEntries(get(urlBase + SearchEndpoint(ps.value)))
    }

    /** `files(jimaku_id)`: the reply to the GET of the entry's files URL. */
    function Files(get: string -> HttpResponse<JimakuFile>, jimakuId: int): (r: Result<seq<JimakuFile>, ApiError>)
      ensures r == ReadFiles(get(urlBase + FilesEndpoint(jimakuId)))
    {
      ReadFiles(get(urlBase + FilesEndpoint(jimakuId)))
    }
  }
}
