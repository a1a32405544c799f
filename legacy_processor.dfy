/**
 * The earlier revision of the transcoder, src/calendar-processor.js. Its
 * summary rewrites are the same three passes as the current processor's;
 * it differs in that every VEVENT is written (nothing is skipped), a summary
 * without a round token is taken to be round "1", the description has a
 * second, legacy layout built from team and competition ids, and times are
 * written in UTC with a trailing `Z` and no time zone block.
 */
module LegacyProcessor {
  import opened Wrappers
  import opened Strings
  import opened Competitions
  import opened ICal
  import opened CalendarProcessor
  import opened CalendarDownloader
  import opened CalendarOutput

  // =============================================================== round number

  const DEFAULT_ROUND := "1"

  /**
   * `extractRoundFromSummary` of the earlier revision: the digits after the
   * leftmost round token, as written, or "1" when there is none.
   */
  function LegacyRound(summary: string): (round: string)
    ensures round != [] && IsDigits(round)
  {
    match FirstMatch(summary, RoundAt, 0)
    case Some((_, digits)) => digits
    case None => DEFAULT_ROUND
  }

  /**
   * The two revisions read the same token: where the current one finds a
   * number, the earlier one has its digits; where it finds none, the
   * earlier one says round 1.
   */
  lemma LegacyRoundAgrees(summary: string)
    ensures ExtractRoundFromSummary(summary).Some? ==> ExtractRoundFromSummary(summary).value == ParseDigits(LegacyRound(summary))
    ensures ExtractRoundFromSummary(summary).None? <==> (forall j :: 0 <= j < |summary| ==> RoundAt(summary, j).None?)
    ensures ExtractRoundFromSummary(summary).None? ==> LegacyRound(summary) == DEFAULT_ROUND
  {
    ExtractRoundIsLeftmost(summary);
  }

  /** A summary with no round token, a final among them, is taken to be round 1. */
  lemma GrandFinalIsRoundOne()
    ensures LegacyRound("Grand Final") == DEFAULT_ROUND
  {
    GrandFinalHasNoRound();
    LegacyRoundAgrees("Grand Final");
  }

  // ================================================================ description

  const LINE_END := "\n"

  /** The `Current Round` line of the new layout: any round, when the ladder URL names a competition. */
  function LegacyRoundLine(competition: Competition, roundNumber: string): string {
    if Truthy(competition.ladderUrl) then
      match LadderCompetitionId(competition.ladderUrl.value)
      case Some(competitionId) => ROUND_LABEL + (ROUND_BASE_URL + competitionId + "/round/" + roundNumber) + LINE_END
      case None => ""
    else ""
  }

  function LegacyLadderLine(competition: Competition): string {
    if Truthy(competition.ladderUrl) then LADDER_LABEL + competition.ladderUrl.value + LINE_END else ""
  }

  /** The description lines of the new layout, used whenever there is a fixture URL. */
  function UrlLayout(competition: Competition, roundNumber: string): string
    requires Truthy(competition.fixtureUrl)
  {
    FIXTURE_LABEL + competition.fixtureUrl.value + LINE_END + LegacyLadderLine(competition) + LegacyRoundLine(competition, roundNumber)
  }

  /** The legacy page addresses, built from the team id, the competition id and the round. */
  function LegacyFixtureUrl(competition: Competition): string
    requires Truthy(competition.competitionTeamId)
  {
    FIXTURE_BASE_URL + competition.competitionTeamId.value
  }

  function LegacyLadderUrl(competition: Competition): string
    requires Truthy(competition.competitionId)
  {
    LADDER_BASE_URL + competition.competitionId.value
  }

  function LegacyRoundUrl(competition: Competition, roundNumber: string): string
    requires Truthy(competition.competitionId)
  {
    ROUND_BASE_URL + competition.competitionId.value + "/" + roundNumber
  }

  /** The description lines of the legacy layout. */
  function IdLayout(competition: Competition, roundNumber: string): string
    requires Truthy(competition.competitionTeamId) && Truthy(competition.competitionId)
  {
    (FIXTURE_LABEL + LegacyFixtureUrl(competition) + BLANK_LINE)
    + (ROUND_LABEL + LegacyRoundUrl(competition, roundNumber) + BLANK_LINE)
    + (LADDER_LABEL + LegacyLadderUrl(competition) + BLANK_LINE)
  }

  /** The lines before the time of writing: new layout, legacy layout or none. */
  function Links(competition: Competition, roundNumber: string): string {
    if Truthy(competition.fixtureUrl) then UrlLayout(competition, roundNumber)
    else if Truthy(competition.competitionTeamId) && Truthy(competition.competitionId) then IdLayout(competition, roundNumber)
    else ""
  }

  function LegacyDescription(competition: Competition, roundNumber: string, now: string): string {
    Links(competition, roundNumber) + UpdatedLine(now)
  }

  /** `generateDescription` of the earlier revision, with the clock's ISO text passed in. */
  method GenerateLegacyDescription(competition: Competition, roundNumber: string, now: string)
    returns (description: string)
    ensures description == LegacyDescription(competition, roundNumber, now)
  {
    description := "";
    if Truthy(competition.fixtureUrl) {
      description := description + (FIXTURE_LABEL + competition.fixtureUrl.value + LINE_END);
      if Truthy(competition.ladderUrl) {
        description := description + (LADDER_LABEL + competition.ladderUrl.value + LINE_END);
      }
      assert description == FIXTURE_LABEL + competition.fixtureUrl.value + LINE_END + LegacyLadderLine(competition);
      ghost var withLadder := description;
      if Truthy(competition.ladderUrl) {
        var ladderMatch := FirstMatch(competition.ladderUrl.value, PointscoreAt, 0);
        if ladderMatch.Some? {
          var competitionId := ladderMatch.value.1;
          var roundUrl := ROUND_BASE_URL + competitionId + "/round/" + roundNumber;
          description := description + (ROUND_LABEL + roundUrl + LINE_END);
        }
      }
      assert description == withLadder + LegacyRoundLine(competition, roundNumber);
      assert description == UrlLayout(competition, roundNumber);
    } else if Truthy(competition.competitionTeamId) && Truthy(competition.competitionId) {
      var fixtureUrl := FIXTURE_BASE_URL + competition.competitionTeamId.value;
      var ladderUrl := LADDER_BASE_URL + competition.competitionId.value;
      var roundUrl := ROUND_BASE_URL + competition.competitionId.value + "/" + roundNumber;
      description := description + (FIXTURE_LABEL + fixtureUrl + BLANK_LINE);
      assert description == FIXTURE_LABEL + fixtureUrl + BLANK_LINE;
      description := description + (ROUND_LABEL + roundUrl + BLANK_LINE);
      description := description + (LADDER_LABEL + ladderUrl + BLANK_LINE);
      assert description == IdLayout(competition, roundNumber);
    }
    assert description == Links(competition, roundNumber);
    description := description + (UPDATED_LABEL + now);
  }

  /**
   * The new layout wins whenever there is a fixture URL, legacy ids or not:
   * the description opens with that URL, and it has a round line exactly
   * when the ladder URL names a competition, with no exception for finals.
   */
  lemma UrlLayoutWins(competition: Competition, roundNumber: string, now: string)
    requires Truthy(competition.fixtureUrl)
    ensures var d := LegacyDescription(competition, roundNumber, now);
      var fixture := FIXTURE_LABEL + competition.fixtureUrl.value + LINE_END;
      StartsWith(d, fixture)
      && (StartsWith(d, fixture + LADDER_LABEL) <==> Truthy(competition.ladderUrl))
      && (StartsWith(d, fixture + LegacyLadderLine(competition) + ROUND_LABEL) <==>
            Truthy(competition.ladderUrl) && LadderCompetitionId(competition.ladderUrl.value).Some?)
      && EndsWith(d, UPDATED_LABEL + now)
  {
    var fixture := FIXTURE_LABEL + competition.fixtureUrl.value + LINE_END;
    var ladder := LegacyLadderLine(competition);
    var round := LegacyRoundLine(competition, roundNumber);
    assert LegacyDescription(competition, roundNumber, now) == fixture + ladder + round + UpdatedLine(now);
    assert ladder != [] <==> Truthy(competition.ladderUrl);
    assert round != [] <==> Truthy(competition.ladderUrl) && LadderCompetitionId(competition.ladderUrl.value).Some?;
    var ladderUrl := if Truthy(competition.ladderUrl) then competition.ladderUrl.value else "";
    var url := if round != [] then ROUND_BASE_URL + LadderCompetitionId(competition.ladderUrl.value).value + "/round/" + roundNumber else "";
    UrlParts(fixture, ladder, ladderUrl, round, url, now);
  }

  /** The layout argument on the parts of a new-layout description, whatever they hold. */
  lemma UrlParts(fixture: string, ladder: string, ladderUrl: string, round: string, url: string, now: string)
    requires ladder == [] || ladder == LADDER_LABEL + ladderUrl + LINE_END
    requires round == [] || round == ROUND_LABEL + url + LINE_END
    ensures var d := fixture + ladder + round + UpdatedLine(now);
      StartsWith(d, fixture)
      && (StartsWith(d, fixture + LADDER_LABEL) <==> ladder != [])
      && (StartsWith(d, fixture + ladder + ROUND_LABEL) <==> round != [])
      && EndsWith(d, UPDATED_LABEL + now)
  {
    var updated := UPDATED_LABEL + now;
    assert updated[0] == '\n';
    if ladder != [] {
      StartsWithJoin(LADDER_LABEL, ladderUrl, LINE_END);
      assert StartsWith(ladder, LADDER_LABEL);
    }
    if round != [] {
      StartsWithJoin(ROUND_LABEL, url, LINE_END);
      assert StartsWith(round, ROUND_LABEL);
    }
    var d := fixture + ladder + round + updated;
    var rest := round + updated;
    assert rest != [] && rest[0] != LADDER_LABEL[0] by {
      if round == [] { assert rest == updated; } else { assert rest[0] == round[0]; }
    }
    assert d == fixture + ladder + rest;
    OptionalSection(fixture, ladder, rest, LADDER_LABEL);
    OptionalSection(fixture + ladder, round, updated, ROUND_LABEL);
    StartsWithJoin(fixture, ladder + rest, []);
    EndsWithJoin(fixture + ladder + round, updated);
  }

  /**
   * A text made of a head, a section that is empty or opens with `mark`,
   * and a rest that does not open like `mark`: the mark follows the head
   * exactly when the section is there.
   */
  lemma OptionalSection(head: string, section: string, rest: string, mark: string)
    requires mark != []
    requires section == [] || StartsWith(section, mark)
    requires rest != [] && rest[0] != mark[0]
    ensures StartsWith(head + section + rest, head + mark) <==> section != []
  {
    if section == [] {
      assert head + section + rest == head + rest;
      StartsWithDiffers(head, rest, mark);
    } else {
      assert (head + section + rest)[..|head + mark|] == head + section[..|mark|];
    }
  }

  /**
   * Without a fixture URL but with both ids, the description links the
   * fixture, round and ladder pages built from the ids; with neither
   * layout it holds only the time of writing.
   */
  lemma IdLayoutLinks(competition: Competition, roundNumber: string, now: string)
    ensures !Truthy(competition.fixtureUrl) && Truthy(competition.competitionTeamId) && Truthy(competition.competitionId) ==>
      var d := LegacyDescription(competition, roundNumber, now);
      StartsWith(d, (FIXTURE_LABEL + LegacyFixtureUrl(competition) + BLANK_LINE) + (ROUND_LABEL + LegacyRoundUrl(competition, roundNumber)
        + BLANK_LINE) + (LADDER_LABEL + LegacyLadderUrl(competition) + BLANK_LINE))
      && EndsWith(d, UPDATED_LABEL + now)
    ensures !Truthy(competition.fixtureUrl) && !(Truthy(competition.competitionTeamId) && Truthy(competition.competitionId)) ==>
      LegacyDescription(competition, roundNumber, now) == UPDATED_LABEL + now
  {
    if !Truthy(competition.fixtureUrl) && Truthy(competition.competitionTeamId) && Truthy(competition.competitionId) {
      var links := IdLayout(competition, roundNumber);
      StartsWithJoin(links, UpdatedLine(now), []);
      EndsWithJoin(links, UpdatedLine(now));
    }
  }

  // ===================================================================== events

  const UTC_START_LABEL := "DTSTART:"
  const UTC_END_LABEL := "DTEND:"
  const UTC_DESIGNATOR := "Z"

  /** What `formatDateTime` prints for an invalid date: every UTC getter gives NaN. */
  const NAN_STAMP := "NaNNaNNaNTNaNNaNNaNZ"

  /**
   * `formatDateTime` of the earlier revision: UTC fields (`utc` gives the
   * UTC calendar fields of an instant) followed by `Z`.
   */
  function UtcDateTime(stamp: Stamp, utc: int -> CivilTime): string {
    match stamp
    case InvalidDate => NAN_STAMP
    case Instant(ms) => FormatDateTime(utc(ms)) + UTC_DESIGNATOR
  }

  /** A valid UTC reading in a four-digit year prints as sixteen characters ending in `Z`. */
  lemma UtcDateTimeShape(ms: int, utc: int -> CivilTime)
    requires utc(ms).Valid() && 1000 <= utc(ms).year <= 9999
    ensures var r := UtcDateTime(Instant(ms), utc);
      |r| == 16 && r[15] == 'Z' && r[8] == 'T' && r[..15] == FormatDateTime(utc(ms))
  {
    FormatDateTimeFields(utc(ms));
  }

  /** `new Date(event.start)`: a missing start is an invalid date. */
  function StartStamp(c: Component): Stamp {
    if c.start.Some? then c.start.value else InvalidDate
  }

  /** The end: the game duration after the start; NaN stays NaN. */
  function EndStamp(start: Stamp, competition: Competition): (end: Stamp)
    ensures start.InvalidDate? <==> end.InvalidDate?
    ensures start.Instant? ==> end.ms - start.ms == GameDuration(competition) * MS_PER_MINUTE
  {
    match start
    case InvalidDate => InvalidDate
    case Instant(ms) => Instant(EndMs(ms, competition))
  }

  /** The event block of the earlier revision: written for every VEVENT. */
  function LegacyEvent(c: Component, competition: Competition, rules: Rules, now: string, currentYear: int, utc: int -> CivilTime): string {
    var original := c.summary.GetOr("");
    var start := StartStamp(c);
    var description := LegacyDescription(competition, LegacyRound(original), now);
    BEGIN_EVENT
    + (UID_LABEL + Shown(c.uid) + NEWLINE)
    + (UTC_START_LABEL + UtcDateTime(start, utc) + NEWLINE)
    + (UTC_END_LABEL + UtcDateTime(EndStamp(start, competition), utc) + NEWLINE)
    + SummaryLine(RewriteSummary(original, rules, currentYear))
    + DescriptionLine(description)
    + LocationLine(c.location)
    + END_EVENT
  }

  function LegacyTranscoder(competition: Competition, rules: Rules, now: string, currentYear: int, utc: int -> CivilTime): Component -> Option<string> {
    (c: Component) => if c.isEvent then Some(LegacyEvent(c, competition, rules, now, currentYear, utc)) else None
  }

  const LEGACY_HEADER := "BEGIN:VCALENDAR\nVERSION:2.0\nPRODID:-//Hockey Victoria Calendar Scraper//EN\nCALSCALE:GREGORIAN\nMETHOD:PUBLISH\n"

  /** The document the earlier revision writes. */
  function LegacyProcessed(cal: seq<Component>, competition: Competition, rules: Rules, now: string, currentYear: int, utc: int -> CivilTime): string {
    Written(LEGACY_HEADER, cal, LegacyTranscoder(competition, rules, now, currentYear, utc)) + END_CALENDAR
  }

  /** The VEVENTs of a parsed calendar, in order. */
  function Events(cal: seq<Component>): (events: seq<Component>)
    ensures forall k :: 0 <= k < |events| ==> events[k].isEvent
    decreases |cal|
  {
    if cal == [] then []
    else
      var last := cal[|cal| - 1];
      Events(cal[..|cal| - 1]) + (if last.isEvent then [last] else [])
  }

  /**
   * Nothing is filtered: one event block per VEVENT of the input, the k-th
   * block rendering the k-th VEVENT.
   */
  lemma {:induction false} LegacyWritesEveryEvent(cal: seq<Component>, competition: Competition, rules: Rules, now: string, currentYear: int, utc: int -> CivilTime)
    ensures var emitted := Emitted(cal, LegacyTranscoder(competition, rules, now, currentYear, utc));
      |emitted| == |Events(cal)|
      && forall k :: 0 <= k < |emitted| ==> emitted[k] == LegacyEvent(Events(cal)[k], competition, rules, now, currentYear, utc)
    decreases |cal|
  {
    if cal != [] {
      LegacyWritesEveryEvent(cal[..|cal| - 1], competition, rules, now, currentYear, utc);
    }
  }

  /** The document is the header, every event block in order and the closing line. */
  lemma LegacyProcessedLayout(cal: seq<Component>, competition: Competition, rules: Rules, now: string, currentYear: int, utc: int -> CivilTime)
    ensures LegacyProcessed(cal, competition, rules, now, currentYear, utc)
      == LEGACY_HEADER + Concat(Emitted(cal, LegacyTranscoder(competition, rules, now, currentYear, utc))) + END_CALENDAR
    ensures |Emitted(cal, LegacyTranscoder(competition, rules, now, currentYear, utc))| == |Events(cal)|
  {
    WrittenIsConcat(LEGACY_HEADER, cal, LegacyTranscoder(competition, rules, now, currentYear, utc));
    LegacyWritesEveryEvent(cal, competition, rules, now, currentYear, utc);
  }

  /** One VEVENT of the loop of the earlier revision. */
  method WriteLegacyEvent(event: Component, competition: Competition, gameDuration: int, rules: Rules, now: string, currentYear: int, utc: int -> CivilTime)
    returns (text: string)
    requires event.isEvent && gameDuration == GameDuration(competition)
    ensures text == LegacyEvent(event, competition, rules, now, currentYear, utc)
  {
    var originalSummary := event.summary.GetOr("");
    var roundNumber := LegacyRound(originalSummary);
    var summary := ReplaceClubNames(originalSummary, rules.clubMappings);
    summary := ReplaceCompetitionNames(summary, rules.competitionReplacements, currentYear);
    summary := ReplaceRoundNames(summary, rules.roundPatterns);
    var description := GenerateLegacyDescription(competition, roundNumber, now);
    var startDate := StartStamp(event);
    var endDate := if startDate.Instant? then Instant(startDate.ms + gameDuration * 60 * 1000) else InvalidDate;
    assert endDate == EndStamp(startDate, competition);
    text := BEGIN_EVENT;
    text := text + (UID_LABEL + Shown(event.uid) + NEWLINE);
    text := text + (UTC_START_LABEL + UtcDateTime(startDate, utc) + NEWLINE);
    text := text + (UTC_END_LABEL + UtcDateTime(endDate, utc) + NEWLINE);
    text := text + SummaryLine(summary);
    text := text + DescriptionLine(description);
    ghost var described := text;
    if Truthy(event.location) {
      text := text + (LOCATION_LABEL + event.location.value + NEWLINE);
    }
    assert text == described + LocationLine(event.location);
    text := text + END_EVENT;
  }

  /** `processCalendar` of the earlier revision on a parsed calendar. */
  method LegacyProcessCalendar(parsedCal: seq<Component>, competition: Competition, rules: Rules, now: string, currentYear: int, utc: int -> CivilTime)
    returns (processedCal: string)
    ensures processedCal == LegacyProcessed(parsedCal, competition, rules, now, currentYear, utc)
  {
    var gameDuration := GameDuration(competition);
    processedCal := LEGACY_HEADER;
    ghost var transcoder := LegacyTranscoder(competition, rules, now, currentYear, utc);
    for i := 0 to |parsedCal|
      invariant processedCal == Written(LEGACY_HEADER, parsedCal[..i], transcoder)
    {
      var event := parsedCal[i];
      WrittenStep(LEGACY_HEADER, parsedCal, i, transcoder);
      if event.isEvent {
        var text := WriteLegacyEvent(event, competition, gameDuration, rules, now, currentYear, utc);
        processedCal := processedCal + text;
      }
    }
    assert parsedCal[..|parsedCal|] == parsedCal;
    processedCal := processedCal + END_CALENDAR;
  }

  // ============================================================== all calendars

  /** The transcoding of the earlier revision under the given clock. */
  function LegacyTranscode(now: string, currentYear: int, utc: int -> CivilTime): Transcode {
    (cal: seq<Component>, competition: Competition, rules: Rules) => LegacyProcessed(cal, competition, rules, now, currentYear, utc)
  }

  /** `processCalendar` of the earlier revision with its I/O. */
  method LegacyProcessCalendarFile(inputPath: string, competition: Competition, config: Result<Rules, string>,
                                   load: string -> Result<seq<Component>, string>, now: string, currentYear: int, utc: int -> CivilTime)
    returns (outcome: Result<string, string>)
    ensures outcome == ProcessedFile(inputPath, competition, config, load, LegacyTranscode(now, currentYear, utc))
  {
    if config.Failure? {
      return Failure(config.error);
    }
    var parsed := load(inputPath);
    if parsed.Failure? {
      return Failure(parsed.error);
    }
    var processedCal := LegacyProcessCalendar(parsed.value, competition, config.value, now, currentYear, utc);
    return Success(processedCal);
  }

  /**
   * `processAllCalendars` of the earlier revision: the same loop as the
   * current one around the earlier transcoder.
   */
  method LegacyProcessAllCalendars(downloadResults: seq<(string, DownloadResult)>, outputDir: string, config: Result<Rules, string>,
                                   load: string -> Result<seq<Component>, string>, now: string, currentYear: int, utc: int -> CivilTime)
    returns (results: map<string, ProcessResult>, files: map<string, string>)
    ensures results == ProcessResults(downloadResults, outputDir, config, load, LegacyTranscode(now, currentYear, utc))
    ensures files == OutputFiles(downloadResults, outputDir, config, load, LegacyTranscode(now, currentYear, utc))
  {
    results := map[];
    files := map[];
    ghost var transcode := LegacyTranscode(now, currentYear, utc);
    for i := 0 to |downloadResults|
      invariant results == ProcessResults(downloadResults[..i], outputDir, config, load, transcode)
      invariant files == OutputFiles(downloadResults[..i], outputDir, config, load, transcode)
    {
      var (name, result) := downloadResults[i];
      assert downloadResults[..i + 1][..i] == downloadResults[..i];
      if result.success && Truthy(result.path) {
        var outputPath := ProcessedPath(outputDir, name);
        var processed := LegacyProcessCalendarFile(result.path.value, result.competition, config, load, now, currentYear, utc);
        if processed.Success? {
          files := files[outputPath := processed.value];
          results := results[name := ProcessResult(true, Some(outputPath), None, result.competition)];
        } else {
          results := results[name := ProcessResult(false, None, Some(processed.error), result.competition)];
        }
      } else {
        results := results[name := ProcessResult(false, None, Some(DOWNLOAD_FAILED), result.competition)];
      }
    }
    assert downloadResults[..|downloadResults|] == downloadResults;
  }
}
