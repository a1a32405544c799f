/**
 * Downloading each competition's iCal feed from Hockey Victoria
 * (src/tasks/calendar-downloader.js): the team id is cut out of a fixture URL,
 * the feed URL is built from it, and the HTTP answer is checked before it is
 * saved under a file name derived from the competition name.
 */
module CalendarDownloader {
  import opened Wrappers
  import opened Strings
  import opened Competitions

  const ICAL_BASE_URL := "https://www.hockeyvictoria.org.au/games/team/export/ical/"
  const MISSING_ID_ERROR := "Missing fixture URL or competition team ID"

  // ------------------------------------------------------------ team id and URL

  /** `parts.indexOf(x)`: the first position holding `x`. */
  function IndexOfItem(parts: seq<string>, x: string): (r: Option<nat>)
    ensures r.Some? ==> r.value < |parts| && parts[r.value] == x && x !in parts[..r.value]
    ensures r.None? ==> x !in parts
    decreases |parts|
  {
    if parts == [] then None
    else if parts[0] == x then Some(0)
    else
      match IndexOfItem(parts[1..], x)
      case None => None
      case Some(k) =>
        assert parts[1..][..k] == parts[1..k + 1];
        Some(k + 1)
  }

  /**
   * The team id used in the feed URL: for a fixture URL (one containing
   * `/games/team/`) the two path segments after the first `team` segment joined
   * by `/`; any other input is used as it is.
   */
  function ExtractTeamId(competitionTeamId: string): (teamId: string)
    ensures !Contains(competitionTeamId, "/games/team/") ==> teamId == competitionTeamId
  {
    if !Contains(competitionTeamId, "/games/team/") then competitionTeamId
    else
      var urlParts := Split(competitionTeamId, '/');
      match IndexOfItem(urlParts, "team")
      case Some(t) =>
        if |urlParts| > t + 2 then urlParts[t + 1] + "/" + urlParts[t + 2] else competitionTeamId
      case None => competitionTeamId
  }

  function DownloadUrl(competitionTeamId: string): string {
    ICAL_BASE_URL + ExtractTeamId(competitionTeamId)
  }

  /**
   * A fixture URL `FIXTURE_BASE_URL + a + "/" + b`, possibly followed by more
   * path, gives the team id `a/b`, and so the feed URL `ICAL_BASE_URL + a/b`.
   */
  lemma TeamIdOfFixtureUrl(a: string, b: string, rest: string)
    requires '/' !in a && '/' !in b
    requires rest == [] || rest[0] == '/'
    ensures ExtractTeamId(FIXTURE_BASE_URL + a + "/" + b + rest) == a + "/" + b
    ensures DownloadUrl(FIXTURE_BASE_URL + a + "/" + b + rest) == ICAL_BASE_URL + a + "/" + b
  {
    var t := a + "/" + b + rest;
    var url := FIXTURE_BASE_URL + a + "/" + b + rest;
    assert url == FIXTURE_BASE_URL + t;
    FixtureUrlMarked(t);
    FixtureUrlParts(a, b, rest);
    var parts := Split(url, '/');
    TeamAtFour(parts, a, b);
    TeamIdFromParts(url, parts);
  }

  lemma TeamIdFromParts(url: string, parts: seq<string>)
    requires Contains(url, "/games/team/") && parts == Split(url, '/')
    requires IndexOfItem(parts, "team") == Some(4) && |parts| >= 7
    ensures ExtractTeamId(url) == parts[5] + "/" + parts[6]
  {
  }

  lemma TeamAtFour(parts: seq<string>, a: string, b: string)
    requires |parts| >= 7 && parts[..7] == ["https:", "", HOST, "games", "team", a, b]
    ensures IndexOfItem(parts, "team") == Some(4) && parts[5] == a && parts[6] == b
  {
    assert parts[..7][4] == "team";
    assert parts[4] == "team";
    var r := IndexOfItem(parts, "team");
    assert r.Some?;
  }

  lemma FixtureUrlMarked(t: string)
    ensures Contains(FIXTURE_BASE_URL + t, "/games/team/")
  {
    var url := FIXTURE_BASE_URL + t;
    assert url[33..45] == FIXTURE_BASE_URL[33..45];
    ContainsAt(url, "/games/team/", 33);
  }

  lemma FixtureUrlParts(a: string, b: string, rest: string)
    requires '/' !in a && '/' !in b
    requires rest == [] || rest[0] == '/'
    ensures var parts := Split(FIXTURE_BASE_URL + (a + "/" + b + rest), '/');
      |parts| >= 7 && parts[..7] == ["https:", "", HOST, "games", "team", a, b]
  {
    var t := a + "/" + b + rest;
    SplitFixtureBase(t);
    TwoSegments(a, b, rest);
    var p := Split(t, '/');
    assert Split(FIXTURE_BASE_URL + t, '/')[..7] == ["https:", "", HOST, "games", "team"] + p[..2];
  }

  /** `a/b` followed by nothing or by more path splits into `a`, `b`, .... */
  lemma TwoSegments(a: string, b: string, rest: string)
    requires '/' !in a && '/' !in b
    requires rest == [] || rest[0] == '/'
    ensures var p := Split(a + "/" + b + rest, '/');
      |p| >= 2 && p[0] == a && p[1] == b
  {
    assert a + "/" + b + rest == a + ['/'] + (b + rest);
    SplitStep(a, b + rest, '/');
    OneSegment(b, rest);
  }

  lemma OneSegment(b: string, rest: string)
    requires '/' !in b
    requires rest == [] || rest[0] == '/'
    ensures Split(b + rest, '/')[0] == b
  {
    if rest == [] {
      assert b + rest == b;
      SplitWhole(b, '/');
    } else {
      assert b + rest == b + ['/'] + rest[1..];
      SplitStep(b, rest[1..], '/');
    }
  }

  /** The segments of a fixture URL's prefix: scheme, empty, host, `games`, `team`. */
  lemma SplitFixtureBase(t: string)
    ensures Split(FIXTURE_BASE_URL + t, '/') == ["https:", "", HOST, "games", "team"] + Split(t, '/')
  {
    assert FIXTURE_BASE_URL == "https:" + "/" + "/" + HOST + "/games/team/";
    assert '/' !in HOST;
    SplitHostPath(HOST, t);
  }

  lemma SplitHostPath(host: string, t: string)
    requires '/' !in host
    ensures Split("https:" + "/" + "/" + host + "/games/team/" + t, '/') == ["https:", "", host, "games", "team"] + Split(t, '/')
  {
    var ws := ["https:", "", host, "games", "team"];
    assert Prefixed(ws[4..], '/') == "team/";
    assert Prefixed(ws[3..], '/') == "games/" + "team/";
    assert Prefixed(ws[2..], '/') == host + "/" + "games/team/";
    assert Prefixed(ws[1..], '/') == "/" + host + "/games/team/";
    assert Prefixed(ws, '/') == "https:" + "/" + "/" + host + "/games/team/";
    SplitPrefixed(ws, t, '/');
  }

  // ------------------------------------------------------------ response checks

  /** The parts of a `fetch` answer the downloader looks at. */
  datatype Response = Response(
    status: int,
    statusText: string,
    wafAction: Option<string>,
    contentLength: Option<string>,
    body: string)

  /** What `fetch` gives back: an answer, or a thrown network error. */
  datatype Fetched = Answered(response: Response) | NetworkError(message: string)

  predicate IsHexDigit(c: char) {
    IsDigit(c) || 'a' <= c <= 'f' || 'A' <= c <= 'F'
  }

  /**
   * `parseInt(s) === 0`: after leading white space and an optional sign, a `0x`
   * prefix selects hexadecimal; the longest run of digits must exist and
   * consist of zeros only.
   */
  predicate ParsesToZero(s: string) {
    var t := DropSpaces(s);
    var u := if t != [] && (t[0] == '+' || t[0] == '-') then t[1..] else t;
    if |u| >= 2 && u[0] == '0' && (u[1] == 'x' || u[1] == 'X') then
      var n := Run(u[2..], IsHexDigit);
      n > 0 && forall i :: 2 <= i < 2 + n ==> u[i] == '0'
    else
      var n := Run(u, IsDigit);
      n > 0 && forall i :: 0 <= i < n ==> u[i] == '0'
  }

  /** `data.length`: JavaScript strings count UTF-16 code units. */
  function Utf16Length(s: string): (n: nat)
    ensures |s| <= n <= 2 * |s|
  {
    if s == [] then 0 else (if s[0] as int > 0xFFFF then 2 else 1) + Utf16Length(s[1..])
  }

  const WAF_BLOCKED := "Download blocked by WAF (Web Application Firewall). The server is challenging the request. Status: "
  const ACCEPTED_EMPTY := "Server returned 202 Accepted with no content. This may indicate the calendar is being generated or the request was blocked. Status: "

  /** The guard checks of `downloadCalendar`, in order: `None` accepts the answer. */
  function CheckResponse(r: Response): (failure: Option<string>)
    ensures failure.None? <==>
      r.status != 202 && 200 <= r.status <= 299
      && !(Truthy(r.contentLength) && ParsesToZero(r.contentLength.value))
      && Contains(r.body, "BEGIN:VCALENDAR")
  {
    if r.status == 202 then
      if r.wafAction == Some("challenge") then
        Some(WAF_BLOCKED + IntToString(r.status))
      else
        Some(ACCEPTED_EMPTY + IntToString(r.status))
    else if !(200 <= r.status <= 299) then
      Some("HTTP error! status: " + IntToString(r.status) + " " + r.statusText)
    else if Truthy(r.contentLength) && ParsesToZero(r.contentLength.value) then
      Some("Server returned empty response (Content-Length: 0). The calendar may not exist or the request was blocked.")
    else if Trim(r.body) == [] then
      BlankHasNoCalendar(r.body);
      Some("Downloaded file is empty. The server may have returned no data or the calendar may not exist.")
    else if !Contains(r.body, "BEGIN:VCALENDAR") then
      Some("Downloaded content is not a valid ICS file. Received " + NatToString(Utf16Length(r.body)) + " bytes but no VCALENDAR found. The server may have returned an error page.")
    else None
  }

  /** A body that is all white space cannot hold the calendar marker. */
  lemma BlankHasNoCalendar(body: string)
    requires Trim(body) == []
    ensures !Contains(body, "BEGIN:VCALENDAR")
  {
  }

  /** A 202 answer fails, with the firewall message exactly when the firewall challenged. */
  lemma Accepted202Fails(r: Response)
    requires r.status == 202
    ensures CheckResponse(r) ==
      Some((if r.wafAction == Some("challenge") then WAF_BLOCKED else ACCEPTED_EMPTY) + "202")
  {
    assert IntToString(r.status) == "202";
  }

  /** One `downloadCalendar` call: the URL fetched and the error, if any. */
  datatype Download = Download(url: string, error: Option<string>)

  function DownloadCalendar(competitionTeamId: string, fetch: string -> Fetched): (d: Download)
    ensures d.url == ICAL_BASE_URL + ExtractTeamId(competitionTeamId)
    ensures d.error.None? <==> fetch(d.url).Answered? && CheckResponse(fetch(d.url).response).None?
    ensures fetch(d.url).NetworkError? ==> d.error == Some(fetch(d.url).message)
  {
    var url := DownloadUrl(competitionTeamId);
    match fetch(url)
    case NetworkError(m) => Download(url, Some(m))
    case Answered(r) => Download(url, CheckResponse(r))
  }

  // ------------------------------------------------------------ all calendars

  /**
   * What `/[^a-z0-9]/gi` leaves of one character: an ASCII letter or digit
   * stays, anything else becomes one `_` per UTF-16 code unit, so a
   * character outside the Basic Multilingual Plane becomes two.
   */
  function SafeChar(c: char): string {
    if IsAsciiAlnum(c) then [c] else if c as int > 0xFFFF then "__" else "_"
  }

  /** `name.replace(/[^a-z0-9]/gi, '_')`. */
  function SafeName(name: string): (r: string)
    ensures |r| == Utf16Length(name)
    ensures forall i :: 0 <= i < |r| ==> IsAsciiAlnum(r[i]) || r[i] == '_'
    decreases |name|
  {
    if name == [] then [] else SafeChar(name[0]) + SafeName(name[1..])
  }

  /** The replacement works character by character, so it distributes over `+`. */
  lemma {:induction false} SafeNameAppend(a: string, b: string)
    ensures SafeName(a + b) == SafeName(a) + SafeName(b)
    decreases |a|
  {
    if a != [] {
      assert (a + b)[1..] == a[1..] + b;
      SafeNameAppend(a[1..], b);
    } else {
      assert a + b == b;
    }
  }

  /**
   * Within the Basic Multilingual Plane every character is one code unit:
   * the safe name has the name's length, keeps each ASCII letter and digit
   * in place and puts `_` in place of everything else.
   */
  lemma {:induction false} SafeNameInPlane(name: string)
    requires forall i :: 0 <= i < |name| ==> name[i] as int <= 0xFFFF
    ensures |SafeName(name)| == |name|
    ensures forall i :: 0 <= i < |name| ==>
      SafeName(name)[i] == if IsAsciiAlnum(name[i]) then name[i] else '_'
    decreases |name|
  {
    if name != [] {
      SafeNameInPlane(name[1..]);
      assert SafeName(name) == SafeChar(name[0]) + SafeName(name[1..]);
      assert |SafeChar(name[0])| == 1;
      forall i | 1 <= i < |name|
        ensures SafeName(name)[i] == if IsAsciiAlnum(name[i]) then name[i] else '_'
      {
        assert name[1..][i - 1] == name[i];
      }
    }
  }

  /** `path.join(dir, file)` for a plain file name. */
  function JoinPath(dir: string, file: string): string {
    if dir == [] then file
    else if dir[|dir| - 1] == '/' then dir + file
    else dir + "/" + file
  }

  function FileName(c: Competition): string {
    SafeName(c.name) + ".ics"
  }

  /** `competition.fixtureUrl || competition.competitionTeamId`, when truthy. */
  function Identifier(c: Competition): (id: Option<string>)
    ensures id.Some? ==> id.value != []
    ensures Truthy(c.fixtureUrl) ==> id == c.fixtureUrl
  {
    if Truthy(c.fixtureUrl) then c.fixtureUrl
    else if Truthy(c.competitionTeamId) then c.competitionTeamId
    else None
  }

  datatype DownloadResult = DownloadResult(
    success: bool,
    path: Option<string>,
    competition: Competition,
    error: Option<string>)

  /** The result recorded for one competition. */
  function EntryResult(c: Competition, outputDir: string, fetch: string -> Fetched): DownloadResult {
    match Identifier(c)
    case None => DownloadResult(false, None, c, Some(MISSING_ID_ERROR))
    case Some(id) =>
      var d := DownloadCalendar(id, fetch);
      var ok := d.error.None?;
      DownloadResult(ok, if ok then Some(JoinPath(outputDir, FileName(c))) else None, c, d.error)
  }

  /** The results object after the loop: later competitions overwrite earlier ones of the same name. */
  function DownloadResults(cs: seq<Competition>, outputDir: string, fetch: string -> Fetched): map<string, DownloadResult>
    decreases |cs|
  {
    if cs == [] then map[]
    else
      var last := cs[|cs| - 1];
      DownloadResults(cs[..|cs| - 1], outputDir, fetch)[last.name := EntryResult(last, outputDir, fetch)]
  }

  /** The feed URLs fetched, in order. */
  function Requests(cs: seq<Competition>, fetch: string -> Fetched): seq<string>
    decreases |cs|
  {
    if cs == [] then []
    else
      var last := cs[|cs| - 1];
      match Identifier(last)
      case None => Requests(cs[..|cs| - 1], fetch)
      case Some(id) => Requests(cs[..|cs| - 1], fetch) + [DownloadUrl(id)]
  }

  method DownloadAllCalendars(competitions: seq<Competition>, outputDir: string, fetch: string -> Fetched)
    returns (results: map<string, DownloadResult>, requested: seq<string>)
    ensures results == DownloadResults(competitions, outputDir, fetch)
    ensures requested == Requests(competitions, fetch)
  {
    results := map[];
    requested := [];
    var i := 0;
    while i < |competitions|
      invariant 0 <= i <= |competitions|
      invariant results == DownloadResults(competitions[..i], outputDir, fetch)
      invariant requested == Requests(competitions[..i], fetch)
    {
      var competition := competitions[i];
      assert competitions[..i + 1][..i] == competitions[..i];
      var teamIdOrUrl := Identifier(competition);
      if teamIdOrUrl.None? {
        results := results[competition.name := DownloadResult(false, None, competition, Some(MISSING_ID_ERROR))];
        i := i + 1;
        continue;
      }
      var outputPath := JoinPath(outputDir, FileName(competition));
      var result := DownloadCalendar(teamIdOrUrl.value, fetch);
      requested := requested + [result.url];
      results := results[competition.name := DownloadResult(result.error.None?, if result.error.None? then Some(outputPath) else None, competition, result.error)];
      i := i + 1;
    }
    assert competitions[..i] == competitions;
  }

  /** Every recorded result has a path exactly when it succeeded, and then it is the sanitised file name. */
  lemma {:induction false} PathIffSuccess(cs: seq<Competition>, outputDir: string, fetch: string -> Fetched, name: string)
    requires name in DownloadResults(cs, outputDir, fetch)
    ensures var r := DownloadResults(cs, outputDir, fetch)[name];
      (r.path.None? <==> !r.success)
      && (r.success ==> r.path == Some(JoinPath(outputDir, FileName(r.competition))) && r.error.None?)
      && (Identifier(r.competition).None? ==> !r.success && r.error == Some(MISSING_ID_ERROR))
    decreases |cs|
  {
    if cs[|cs| - 1].name != name {
      PathIffSuccess(cs[..|cs| - 1], outputDir, fetch, name);
    }
  }

  /** The result under a name is that of the last competition with that name. */
  lemma {:induction false} LastOfNameWins(cs: seq<Competition>, outputDir: string, fetch: string -> Fetched, i: nat)
    requires i < |cs|
    requires forall j :: i < j < |cs| ==> cs[j].name != cs[i].name
    ensures cs[i].name in DownloadResults(cs, outputDir, fetch)
    ensures DownloadResults(cs, outputDir, fetch)[cs[i].name] == EntryResult(cs[i], outputDir, fetch)
    decreases |cs|
  {
    if i < |cs| - 1 {
      LastOfNameWins(cs[..|cs| - 1], outputDir, fetch, i);
    }
  }

  /** Each fetched URL is a feed URL, and there is at most one per competition. */
  lemma {:induction false} RequestsAreFeeds(cs: seq<Competition>, fetch: string -> Fetched)
    ensures |Requests(cs, fetch)| <= |cs|
    ensures forall k :: 0 <= k < |Requests(cs, fetch)| ==>
      |ICAL_BASE_URL| <= |Requests(cs, fetch)[k]| && Requests(cs, fetch)[k][..|ICAL_BASE_URL|] == ICAL_BASE_URL
    ensures (forall i :: 0 <= i < |cs| ==> Identifier(cs[i]).None?) ==> Requests(cs, fetch) == []
    decreases |cs|
  {
    if cs != [] {
      RequestsAreFeeds(cs[..|cs| - 1], fetch);
      assert forall i :: 0 <= i < |cs| - 1 ==> cs[..|cs| - 1][i] == cs[i];
    }
  }
}
