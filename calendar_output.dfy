/**
 * The output half of the calendar processor: clock fields to iCalendar local
 * date-times, the VEVENT written for each parsed component, the whole
 * transcoded calendar, and the pass over every downloaded calendar.
 */
module CalendarOutput {
  import opened Wrappers
  import opened Strings
  import opened Competitions
  import opened CalendarDownloader
  import opened ICal
  import opened CalendarProcessor

  // ======================================================================= dates

  /**
   * `formatDateTime`: `YYYYMMDDTHHMMSS` from the clock fields, month, day and
   * time padded to two digits, the year printed as it is.
   */
  function FormatDateTime(t: CivilTime): string {
    IntToString(t.year) + (Pad2(t.month) + (Pad2(t.day) + ("T" + (Pad2(t.hour) + (Pad2(t.minute) + Pad2(t.second))))))
  }

  /** Where the fields sit in a text of one four-character and five two-character parts. */
  lemma FieldPositions(y: string, mo: string, d: string, h: string, mi: string, s: string)
    requires |y| == 4 && |mo| == 2 && |d| == 2 && |h| == 2 && |mi| == 2 && |s| == 2
    ensures var r := y + (mo + (d + ("T" + (h + (mi + s)))));
      |r| == 15 && r[..4] == y && r[4..6] == mo && r[6..8] == d && r[8] == 'T'
      && r[9..11] == h && r[11..13] == mi && r[13..] == s
  {
    var r9 := h + (mi + s);
    DatePositions(y, mo, d, r9);
    TimePositions(h, mi, s);
    var r := y + (mo + (d + ("T" + r9)));
    SuffixFacts(r, 9, r9, 2, 2);
    SuffixFacts(r, 9, r9, 4, 0);
  }

  lemma DatePositions(y: string, mo: string, d: string, time: string)
    requires |y| == 4 && |mo| == 2 && |d| == 2 && time != []
    ensures var r := y + (mo + (d + ("T" + time)));
      |r| == 9 + |time| && r[..4] == y && r[4..6] == mo && r[6..8] == d && r[8] == 'T' && r[9..] == time
  {
    var r8 := "T" + time;
    var r6 := d + r8;
    var r4 := mo + r6;
    var r := y + r4;
    ConcatAt(y, r4);
    ConcatAt(mo, r6);
    SuffixFacts(r, 4, r4, 2, 2);
    ConcatAt(d, r8);
    SuffixFacts(r, 6, r6, 2, 2);
    ConcatAt("T", time);
    SuffixFacts(r, 8, r8, 0, 0);
    SuffixFacts(r, 8, r8, 1, 0);
  }

  lemma TimePositions(h: string, mi: string, s: string)
    requires |h| == 2 && |mi| == 2 && |s| == 2
    ensures var r := h + (mi + s);
      |r| == 6 && r[..2] == h && r[2..4] == mi && r[4..] == s
  {
    var r := h + (mi + s);
    ConcatAt(h, mi + s);
    ConcatAt(mi, s);
    SuffixFacts(r, 2, mi + s, 2, 2);
  }

  /**
   * For a valid clock reading in a four-digit year the local date-time is
   * fifteen characters, `T` in the ninth place and digits elsewhere, and each
   * field reads back from its place: the text determines the reading.
   */
  lemma FormatDateTimeFields(t: CivilTime)
    requires t.Valid() && 1000 <= t.year <= 9999
    ensures var r := FormatDateTime(t);
      |r| == 15 && r[8] == 'T'
      && IsDigits(r[..4]) && IsDigits(r[4..6]) && IsDigits(r[6..8])
      && IsDigits(r[9..11]) && IsDigits(r[11..13]) && IsDigits(r[13..])
      && ParseDigits(r[..4]) == t.year && ParseDigits(r[4..6]) == t.month && ParseDigits(r[6..8]) == t.day
      && ParseDigits(r[9..11]) == t.hour && ParseDigits(r[11..13]) == t.minute && ParseDigits(r[13..]) == t.second
  {
    var y := IntToString(t.year);
    NatToStringFour(t.year);
    NatToStringFacts(t.year);
    FieldPositions(y, Pad2(t.month), Pad2(t.day), Pad2(t.hour), Pad2(t.minute), Pad2(t.second));
  }

  /** Two valid readings in four-digit years print alike only when they are the same reading. */
  lemma FormatDateTimeInjective(t: CivilTime, u: CivilTime)
    requires t.Valid() && 1000 <= t.year <= 9999 && u.Valid() && 1000 <= u.year <= 9999
    requires FormatDateTime(t) == FormatDateTime(u)
    ensures t == u
  {
    FormatDateTimeFields(t);
    FormatDateTimeFields(u);
  }

  // ==================================================================== events

  /** The minutes each game lasts: `competition.gameDuration || 90`. */
  function GameDuration(competition: Competition): int {
    if competition.gameDuration.Some? && competition.gameDuration.value != 0 then competition.gameDuration.value
    else DEFAULT_GAME_DURATION
  }

  const DEFAULT_GAME_DURATION := 90

  /**
   * What a run of the processor reads besides the calendar: the year the
   * competition templates use, the homepage setting (absent when the settings
   * cannot be read), the time of writing as ISO 8601 text, and the Melbourne
   * wall clock as a function of the instant.
   */
  datatype Env = Env(
    currentYear: int,
    calendarsHomepage: Option<string>,
    now: string,
    melbourne: int -> CivilTime)

  const BEGIN_EVENT := "BEGIN:VEVENT\n"
  const END_EVENT := "END:VEVENT\n"
  const UID_LABEL := "UID:"
  const DTSTART_LABEL := "DTSTART;TZID=Australia/Melbourne:"
  const DTEND_LABEL := "DTEND;TZID=Australia/Melbourne:"
  const SUMMARY_LABEL := "SUMMARY:"
  const DESCRIPTION_LABEL := "DESCRIPTION:"
  const LOCATION_LABEL := "LOCATION:"
  const NEWLINE := "\n"

  /** `description.replace(/\n/g, '\\n')`: line breaks written as the two characters `\n`. */
  function Escaped(description: string): string {
    ReplaceAll(description, NEWLINE, "\\n")
  }

  function UidLine(uid: string): string {
    UID_LABEL + uid + NEWLINE
  }

  function StartLine(dtstart: string): string {
    DTSTART_LABEL + dtstart + NEWLINE
  }

  function EndLine(dtend: string): string {
    DTEND_LABEL + dtend + NEWLINE
  }

  function SummaryLine(summary: string): string {
    SUMMARY_LABEL + summary + NEWLINE
  }

  function DescriptionLine(description: string): string {
    DESCRIPTION_LABEL + Escaped(description) + NEWLINE
  }

  function LocationLine(location: Option<string>): string {
    if Truthy(location) then LOCATION_LABEL + location.value + NEWLINE else ""
  }

  /** The VEVENT block written for one event. */
  function VEvent(uid: string, dtstart: string, dtend: string, summary: string, description: string, location: Option<string>): string {
    BEGIN_EVENT + UidLine(uid) + StartLine(dtstart) + EndLine(dtend) + SummaryLine(summary)
    + DescriptionLine(description) + LocationLine(location) + END_EVENT
  }

  /** The end of a game starting at `startMs`: `startDate.getTime() + gameDuration * 60 * 1000`. */
  function EndMs(startMs: int, competition: Competition): int {
    startMs + GameDuration(competition) * MS_PER_MINUTE
  }

  /**
   * The checks of the event loop: a component is kept when it is an event
   * with a start and a uid, the start is a date and the end falls after it.
   */
  predicate Kept(c: Component, competition: Competition) {
    c.isEvent && c.start.Some? && Truthy(c.uid) && c.start.value.Instant?
    && !(EndMs(c.start.value.ms, competition) <= c.start.value.ms)
  }

  /** The VEVENT of a kept component; the round link is read from the summary before it is rewritten. */
  function RenderEvent(c: Component, competition: Competition, rules: Rules, env: Env): string
    requires Kept(c, competition)
  {
    var startMs := c.start.value.ms;
    var originalSummary := c.summary.GetOr("");
    VEvent(
      c.uid.value,
      FormatDateTime(env.melbourne(startMs)),
      FormatDateTime(env.melbourne(EndMs(startMs, competition))),
      RewriteSummary(originalSummary, rules, env.currentYear),
      Description(competition, ExtractRoundFromSummary(originalSummary), env.calendarsHomepage, env.now),
      c.location)
  }

  /** The VEVENT written for a parsed component, or nothing when the component is skipped. */
  function EventText(c: Component, competition: Competition, rules: Rules, env: Env): Option<string> {
    if Kept(c, competition) then Some(RenderEvent(c, competition, rules, env)) else None
  }

  /**
   * A component is written exactly when it is an event with a uid and a
   * valid start and the competition's games last a positive number of
   * minutes; a missing or zero duration means 90 minutes.
   */
  lemma EventWrittenIff(c: Component, competition: Competition)
    ensures Kept(c, competition) <==>
      c.isEvent && Truthy(c.uid) && c.start.Some? && c.start.value.Instant? && GameDuration(competition) > 0
    ensures (competition.gameDuration.None? || competition.gameDuration == Some(0)) ==> GameDuration(competition) == 90
  {
  }

  /**
   * The block of a written event opens with its uid and closes the event; its
   * description stays on one line, and the location line is there exactly
   * when the event has a location.
   */
  lemma VEventLayout(uid: string, dtstart: string, dtend: string, summary: string, description: string, location: Option<string>)
    ensures var v := VEvent(uid, dtstart, dtend, summary, description, location);
      StartsWith(v, BEGIN_EVENT + UidLine(uid))
      && EndsWith(v, END_EVENT)
      && '\n' !in Escaped(description)
      && (Truthy(location) ==> EndsWith(v, LOCATION_LABEL + location.value + NEWLINE + END_EVENT))
      && (!Truthy(location) ==> EndsWith(v, DescriptionLine(description) + END_EVENT))
  {
    ReplaceNewlines(description);
    BlockLayout(BEGIN_EVENT, UidLine(uid), StartLine(dtstart), EndLine(dtend), SummaryLine(summary),
      DescriptionLine(description), LocationLine(location), END_EVENT);
  }

  /** An eight-part text starts with its first two parts and ends with its last one or two, and with its sixth and eighth when the seventh is empty. */
  lemma BlockLayout(a: string, b: string, c: string, d: string, e: string, f: string, g: string, h: string)
    ensures var v := a + b + c + d + e + f + g + h;
      StartsWith(v, a + b) && EndsWith(v, h) && EndsWith(v, g + h) && (g == [] ==> EndsWith(v, f + h))
  {
    StartsWithJoin(a, b, c);
    StartsWithLonger(a + b + c, a + b, d);
    StartsWithLonger(a + b + c + d, a + b, e);
    StartsWithLonger(a + b + c + d + e, a + b, f);
    StartsWithLonger(a + b + c + d + e + f, a + b, g);
    StartsWithLonger(a + b + c + d + e + f + g, a + b, h);
    EndsWithJoin(a + b + c + d + e + f + g, h);
    EndsWithTail(a + b + c + d + e + f, g, h);
    if g == [] {
      assert a + b + c + d + e + f + g == a + b + c + d + e + f;
      EndsWithTail(a + b + c + d + e, f, h);
    }
  }
  // ================================================================== calendar

  /** The calendar properties and the Australia/Melbourne time zone written before the events. */
  const CALENDAR_HEADER :=
    "BEGIN:VCALENDAR\n" + "VERSION:2.0\n" + "PRODID:-//Hockey Victoria Calendar Scraper//EN\n"
    + "CALSCALE:GREGORIAN\n" + "METHOD:PUBLISH\n"
    + "BEGIN:VTIMEZONE\n" + "TZID:Australia/Melbourne\n"
    + "BEGIN:STANDARD\n" + "DTSTART:20070401T030000\n" + "RRULE:FREQ=YEARLY;BYMONTH=4;BYDAY=1SU\n"
    + "TZNAME:AEST\n" + "TZOFFSETFROM:+1100\n" + "TZOFFSETTO:+1000\n" + "END:STANDARD\n"
    + "BEGIN:DAYLIGHT\n" + "DTSTART:20071007T020000\n" + "RRULE:FREQ=YEARLY;BYMONTH=10;BYDAY=1SU\n"
    + "TZNAME:AEDT\n" + "TZOFFSETFROM:+1000\n" + "TZOFFSETTO:+1100\n" + "END:DAYLIGHT\n"
    + "END:VTIMEZONE\n"

  const END_CALENDAR := "END:VCALENDAR\n"

  /** `init` followed by the blocks `text` writes for the components, in the order the parser lists them. */
  function Written(init: string, cal: seq<Component>, text: Component -> Option<string>): string {
    if cal == [] then init
    else Written(init, cal[..|cal| - 1], text) + text(cal[|cal| - 1]).GetOr("")
  }

  /** A calendar document: header, the components' blocks, and the closing line. */
  function Document(cal: seq<Component>, text: Component -> Option<string>): string {
    Written(CALENDAR_HEADER, cal, text) + END_CALENDAR
  }

  /** The transcoder of one competition's events. */
  function Transcoder(competition: Competition, rules: Rules, env: Env): Component -> Option<string> {
    c => EventText(c, competition, rules, env)
  }

  /** The transcoded calendar of a competition. */
  function Processed(cal: seq<Component>, competition: Competition, rules: Rules, env: Env): string {
    Document(cal, Transcoder(competition, rules, env))
  }

  /**
   * Each component is written on its own: writing two runs of components is
   * writing the first and then the second after it, and a single component
   * adds its own block or nothing.
   */
  lemma {:induction false} WrittenConcat(init: string, a: seq<Component>, b: seq<Component>, text: Component -> Option<string>)
    ensures Written(init, a + b, text) == Written(Written(init, a, text), b, text)
    ensures forall c :: Written(init, [c], text) == init + text(c).GetOr("")
    decreases |b|
  {
    forall c ensures Written(init, [c], text) == init + text(c).GetOr("") {
      assert [c][..0] == [];
    }
    if b == [] {
      assert a + b == a;
    } else {
      var n := |b| - 1;
      WrittenConcat(init, a, b[..n], text);
      assert (a + b)[..|a + b| - 1] == a + b[..n];
    }
  }

  /** What was written before stays in front, and nothing is added when no component is written. */
  lemma {:induction false} WrittenKeepsInit(init: string, cal: seq<Component>, text: Component -> Option<string>)
    ensures StartsWith(Written(init, cal, text), init)
    ensures (forall k :: 0 <= k < |cal| ==> text(cal[k]).None?) ==> Written(init, cal, text) == init
    decreases |cal|
  {
    if cal == [] {
      StartsWithJoin(init, [], []);
    } else {
      var n := |cal| - 1;
      WrittenKeepsInit(init, cal[..n], text);
      assert forall k :: 0 <= k < n ==> cal[..n][k] == cal[k];
      StartsWithLonger(Written(init, cal[..n], text), init, text(cal[n]).GetOr(""));
    }
  }

  /** The transcoder writes a component exactly when the event loop keeps it. */
  lemma TranscoderWrites(c: Component, competition: Competition, rules: Rules, env: Env)
    ensures Transcoder(competition, rules, env)(c) == EventText(c, competition, rules, env)
    ensures Transcoder(competition, rules, env)(c).Some? <==> Kept(c, competition)
  {
  }

  /** The document opens with the header and closes the calendar; with nothing kept it is just those two. */
  lemma DocumentLayout(cal: seq<Component>, text: Component -> Option<string>)
    ensures StartsWith(Document(cal, text), CALENDAR_HEADER)
    ensures EndsWith(Document(cal, text), END_CALENDAR)
    ensures (forall k :: 0 <= k < |cal| ==> text(cal[k]).None?) ==> Document(cal, text) == CALENDAR_HEADER + END_CALENDAR
  {
    var w := Written(CALENDAR_HEADER, cal, text);
    WrittenKeepsInit(CALENDAR_HEADER, cal, text);
    StartsWithLonger(w, CALENDAR_HEADER, END_CALENDAR);
    EndsWithJoin(w, END_CALENDAR);
  }

  lemma WrittenStep(init: string, cal: seq<Component>, i: nat, text: Component -> Option<string>)
    requires i < |cal|
    ensures Written(init, cal[..i + 1], text) == Written(init, cal[..i], text) + text(cal[i]).GetOr("")
  {
    assert cal[..i + 1][..i] == cal[..i];
  }

  /** The kept component's block, written piece by piece, is its VEVENT. */
  lemma RenderEventIs(c: Component, competition: Competition, rules: Rules, env: Env, summary: string, description: string)
    requires Kept(c, competition)
    requires summary == RewriteSummary(c.summary.GetOr(""), rules, env.currentYear)
    requires description == Description(competition, ExtractRoundFromSummary(c.summary.GetOr("")), env.calendarsHomepage, env.now)
    ensures RenderEvent(c, competition, rules, env) == VEvent(c.uid.value,
      FormatDateTime(env.melbourne(c.start.value.ms)),
      FormatDateTime(env.melbourne(EndMs(c.start.value.ms, competition))),
      summary, description, c.location)
  {
  }

  /**
   * The body of the event loop of `processCalendar` for one component: the
   * text it appends to the calendar, or nothing where the loop goes on to the
   * next component.
   */
  method WriteEvent(event: Component, competition: Competition, gameDuration: int, rules: Rules, env: Env)
    returns (written: Option<string>)
    requires gameDuration == GameDuration(competition)
    ensures written == EventText(event, competition, rules, env)
  {
    if !event.isEvent {
      return None;
    }
    if event.start.None? || !Truthy(event.uid) {
      return None;
    }
    var originalSummary := event.summary.GetOr("");
    var roundNumber := ExtractRoundFromSummary(originalSummary);
    var summary := originalSummary;
    summary := ReplaceClubNames(summary, rules.clubMappings);
    summary := ReplaceCompetitionNames(summary, rules.competitionReplacements, env.currentYear);
    summary := ReplaceRoundNames(summary, rules.roundPatterns);
    var description := GenerateDescription(competition, roundNumber, env.calendarsHomepage, env.now);
    if event.start.value.InvalidDate? {
      return None;
    }
    var startDate := event.start.value.ms;
    var endDate := startDate + gameDuration * MS_PER_MINUTE;
    assert endDate == EndMs(startDate, competition);
    var melbourneStart := env.melbourne(startDate);
    var melbourneEnd := env.melbourne(endDate);
    if endDate <= startDate {
      return None;
    }
    var text := BEGIN_EVENT;
    text := text + (UID_LABEL + event.uid.value + NEWLINE);
    text := text + (DTSTART_LABEL + FormatDateTime(melbourneStart) + NEWLINE);
    text := text + (DTEND_LABEL + FormatDateTime(melbourneEnd) + NEWLINE);
    text := text + (SUMMARY_LABEL + summary + NEWLINE);
    text := text + (DESCRIPTION_LABEL + ReplaceAll(description, NEWLINE, "\\n") + NEWLINE);
    ghost var described := text;
    if Truthy(event.location) {
      text := text + (LOCATION_LABEL + event.location.value + NEWLINE);
    }
    assert text == described + LocationLine(event.location);
    text := text + END_EVENT;
    assert text == VEvent(event.uid.value, FormatDateTime(melbourneStart), FormatDateTime(melbourneEnd), summary, description, event.location);
    assert Kept(event, competition);
    RenderEventIs(event, competition, rules, env, summary, description);
    return Some(text);
  }

  /**
   * `processCalendar` on a parsed calendar: the mapping files, settings and
   * clock come in as `rules` and `env`; the text written to the output file
   * is returned.
   */
  method ProcessCalendar(parsedCal: seq<Component>, competition: Competition, rules: Rules, env: Env)
    returns (processedCal: string)
    ensures processedCal == Processed(parsedCal, competition, rules, env)
  {
    var gameDuration := GameDuration(competition);
    processedCal := CALENDAR_HEADER;
    // the first pass of the source; the event loop does not use its result
    var maxRegularRound := FindMaxRegularRound(parsedCal);
    ghost var transcoder := Transcoder(competition, rules, env);
    for i := 0 to |parsedCal|
      invariant processedCal == Written(CALENDAR_HEADER, parsedCal[..i], transcoder)
    {
      var event := parsedCal[i];
      var written := WriteEvent(event, competition, gameDuration, rules, env);
      WrittenStep(CALENDAR_HEADER, parsedCal, i, transcoder);
      TranscoderWrites(event, competition, rules, env);
      if written.Some? {
        processedCal := processedCal + written.value;
      }
    }
    assert parsedCal[..|parsedCal|] == parsedCal;
    processedCal := processedCal + END_CALENDAR;
  }

  // ====================================================== events in the output

  /** The texts `text` emits for the components of `cal`, in order. */
  function Emitted(cal: seq<Component>, text: Component -> Option<string>): seq<string>
    decreases |cal|
  {
    if cal == [] then []
    else
      var last := cal[|cal| - 1];
      Emitted(cal[..|cal| - 1], text) + (if text(last).Some? then [text(last).value] else [])
  }

  /** The concatenation of a list of texts. */
  function Concat(parts: seq<string>): string
    decreases |parts|
  {
    if parts == [] then [] else Concat(parts[..|parts| - 1]) + parts[|parts| - 1]
  }

  /** The components the transcoder keeps, in input order. */
  function KeptEvents(cal: seq<Component>, competition: Competition): (kept: seq<Component>)
    ensures forall k :: 0 <= k < |kept| ==> Kept(kept[k], competition)
    decreases |cal|
  {
    if cal == [] then []
    else
      var last := cal[|cal| - 1];
      KeptEvents(cal[..|cal| - 1], competition) + (if Kept(last, competition) then [last] else [])
  }

  /** The fold writes the initial text followed by every emitted text. */
  lemma {:induction false} WrittenIsConcat(init: string, cal: seq<Component>, text: Component -> Option<string>)
    ensures Written(init, cal, text) == init + Concat(Emitted(cal, text))
    decreases |cal|
  {
    if cal != [] {
      var last := cal[|cal| - 1];
      WrittenIsConcat(init, cal[..|cal| - 1], text);
      var before := Emitted(cal[..|cal| - 1], text);
      if text(last).Some? {
        assert (before + [text(last).value])[..|before|] == before;
      } else {
        assert before + [] == before;
      }
    }
  }

  /**
   * The transcoder emits one event block per kept component and nothing for
   * the others: the k-th block is the rendering of the k-th kept component.
   */
  lemma {:induction false} EmittedAreKept(cal: seq<Component>, competition: Competition, rules: Rules, env: Env)
    ensures |Emitted(cal, Transcoder(competition, rules, env))| == |KeptEvents(cal, competition)|
    ensures forall k :: 0 <= k < |KeptEvents(cal, competition)| ==>
      Emitted(cal, Transcoder(competition, rules, env))[k] == RenderEvent(KeptEvents(cal, competition)[k], competition, rules, env)
    decreases |cal|
  {
    if cal != [] {
      var last := cal[|cal| - 1];
      EmittedAreKept(cal[..|cal| - 1], competition, rules, env);
      TranscoderWrites(last, competition, rules, env);
    }
  }

  /** Kept components are kept in their input order, each one of `cal`, and all of them when all are kept. */
  lemma {:induction false} KeptEventsFilter(cal: seq<Component>, competition: Competition)
    ensures forall k :: 0 <= k < |KeptEvents(cal, competition)| ==> KeptEvents(cal, competition)[k] in cal
    ensures (forall i :: 0 <= i < |cal| ==> Kept(cal[i], competition)) ==> KeptEvents(cal, competition) == cal
    ensures (forall i :: 0 <= i < |cal| ==> !Kept(cal[i], competition)) ==> KeptEvents(cal, competition) == []
    decreases |cal|
  {
    if cal != [] {
      var front := cal[..|cal| - 1];
      KeptEventsFilter(front, competition);
      assert forall i :: 0 <= i < |front| ==> front[i] == cal[i];
      assert cal == front + [cal[|cal| - 1]];
    }
  }

  /**
   * The processed document is the fixed header, the rendering of each kept
   * component in input order, and the closing line.
   */
  lemma ProcessedLayout(cal: seq<Component>, competition: Competition, rules: Rules, env: Env)
    ensures Processed(cal, competition, rules, env)
      == CALENDAR_HEADER + Concat(Emitted(cal, Transcoder(competition, rules, env))) + END_CALENDAR
    ensures |Emitted(cal, Transcoder(competition, rules, env))| == |KeptEvents(cal, competition)|
  {
    WrittenIsConcat(CALENDAR_HEADER, cal, Transcoder(competition, rules, env));
    EmittedAreKept(cal, competition, rules, env);
  }

  // ============================================================ all calendars

  /** What `processAllCalendars` records for one downloaded calendar. */
  datatype ProcessResult = ProcessResult(
    success: bool,
    processedPath: Option<string>,
    error: Option<string>,
    competition: Competition)

  const DOWNLOAD_FAILED := "Download failed"
  const PROCESSED_SUFFIX := "_processed.ics"

  /** The output path of the processed calendar of the entry `name`. */
  function ProcessedPath(outputDir: string, name: string): string {
    JoinPath(outputDir, SafeName(name) + PROCESSED_SUFFIX)
  }

  /** How a processor turns a parsed calendar into the text it writes. */
  type Transcode = (seq<Component>, Competition, Rules) -> string

  /** The transcoding of src/tasks/calendar-processor.js under the given settings and clock. */
  function CurrentTranscode(env: Env): Transcode {
    (cal: seq<Component>, competition: Competition, rules: Rules) => Processed(cal, competition, rules, env)
  }

  /**
   * One call of `processCalendar` with its I/O: `config` is the outcome of
   * loading the mapping files, `load` that of reading and parsing a
   * downloaded file; either failure is the error message thrown.  The
   * success value is the text written to the output file.
   */
  function ProcessedFile(inputPath: string, competition: Competition, config: Result<Rules, string>,
                         load: string -> Result<seq<Component>, string>, transcode: Transcode): Result<string, string>
  {
    if config.Failure? then Failure(config.error)
    else if load(inputPath).Failure? then Failure(load(inputPath).error)
    else Success(transcode(load(inputPath).value, competition, config.value))
  }

  /** The result recorded for one entry of the download results. */
  function EntryOutcome(name: string, result: DownloadResult, outputDir: string, config: Result<Rules, string>,
                        load: string -> Result<seq<Component>, string>, transcode: Transcode): ProcessResult
  {
    if result.success && Truthy(result.path) then
      match ProcessedFile(result.path.value, result.competition, config, load, transcode)
      case Success(_) => ProcessResult(true, Some(ProcessedPath(outputDir, name)), None, result.competition)
      case Failure(e) => ProcessResult(false, None, Some(e), result.competition)
    else ProcessResult(false, None, Some(DOWNLOAD_FAILED), result.competition)
  }

  /** The results object after the loop over the entries of the download results. */
  function ProcessResults(entries: seq<(string, DownloadResult)>, outputDir: string, config: Result<Rules, string>,
                          load: string -> Result<seq<Component>, string>, transcode: Transcode): map<string, ProcessResult>
    decreases |entries|
  {
    if entries == [] then map[]
    else
      var last := entries[|entries| - 1];
      ProcessResults(entries[..|entries| - 1], outputDir, config, load, transcode)[last.0 := EntryOutcome(last.0, last.1, outputDir, config, load, transcode)]
  }

  /** The output files after the loop: path to text, later writes replacing earlier ones. */
  function OutputFiles(entries: seq<(string, DownloadResult)>, outputDir: string, config: Result<Rules, string>,
                       load: string -> Result<seq<Component>, string>, transcode: Transcode): map<string, string>
    decreases |entries|
  {
    if entries == [] then map[]
    else
      var before := OutputFiles(entries[..|entries| - 1], outputDir, config, load, transcode);
      var (name, result) := entries[|entries| - 1];
      if result.success && Truthy(result.path) then
        match ProcessedFile(result.path.value, result.competition, config, load, transcode)
        case Success(text) => before[ProcessedPath(outputDir, name) := text]
        case Failure(_) => before
      else before
  }

  /**
   * `processCalendar` with its I/O: loads the configuration, reads and parses
   * the input file and transcodes it.
   */
  method ProcessCalendarFile(inputPath: string, competition: Competition, config: Result<Rules, string>,
                             load: string -> Result<seq<Component>, string>, env: Env)
    returns (outcome: Result<string, string>)
    ensures outcome == ProcessedFile(inputPath, competition, config, load, CurrentTranscode(env))
  {
    if config.Failure? {
      return Failure(config.error);
    }
    var parsed := load(inputPath);
    if parsed.Failure? {
      return Failure(parsed.error);
    }
    var processedCal := ProcessCalendar(parsed.value, competition, config.value, env);
    return Success(processedCal);
  }

  /**
   * `processAllCalendars`: `downloadResults` lists the entries of the
   * download results object in their enumeration order.
   */
  method ProcessAllCalendars(downloadResults: seq<(string, DownloadResult)>, outputDir: string, config: Result<Rules, string>,
                             load: string -> Result<seq<Component>, string>, env: Env)
    returns (results: map<string, ProcessResult>, files: map<string, string>)
    ensures results == ProcessResults(downloadResults, outputDir, config, load, CurrentTranscode(env))
    ensures files == OutputFiles(downloadResults, outputDir, config, load, CurrentTranscode(env))
  {
    results := map[];
    files := map[];
    for i := 0 to |downloadResults|
      invariant results == ProcessResults(downloadResults[..i], outputDir, config, load, CurrentTranscode(env))
      invariant files == OutputFiles(downloadResults[..i], outputDir, config, load, CurrentTranscode(env))
    {
      var (name, result) := downloadResults[i];
      assert downloadResults[..i + 1][..i] == downloadResults[..i];
      if result.success && Truthy(result.path) {
        var outputPath := ProcessedPath(outputDir, name);
        var processed := ProcessCalendarFile(result.path.value, result.competition, config, load, env);
        if processed.Success? {
          files := files[outputPath := processed.value];
          results := results[name := ProcessResult(true, Some(outputPath), None, result.competition)];
        } else {
          results := results[name := ProcessResult(false, None, Some(processed.error), result.competition)];
        }
      } else {
        results := results[name := ProcessResult(false, None, Some(DOWNLOAD_FAILED), result.competition)];
      }
    }
    assert downloadResults[..|downloadResults|] == downloadResults;
  }

  /**
   * Every recorded result has a path exactly when it succeeded, the path is
   * the sanitised output name and holds a file; a failed download is
   * reported as such, and a failed processing step carries its message.
   */
  lemma {:induction false} ProcessResultShape(entries: seq<(string, DownloadResult)>, outputDir: string, config: Result<Rules, string>,
                                              load: string -> Result<seq<Component>, string>, transcode: Transcode, name: string)
    requires name in ProcessResults(entries, outputDir, config, load, transcode)
    ensures var r := ProcessResults(entries, outputDir, config, load, transcode)[name];
      (r.success <==> r.processedPath.Some?)
      && (r.success <==> r.error.None?)
      && (r.success ==> r.processedPath == Some(ProcessedPath(outputDir, name))
                        && ProcessedPath(outputDir, name) in OutputFiles(entries, outputDir, config, load, transcode))
      && (config.Failure? && r.error != Some(DOWNLOAD_FAILED) ==> r.error == Some(config.error))
    decreases |entries|
  {
    var front := entries[..|entries| - 1];
    var (lastName, lastResult) := entries[|entries| - 1];
    if lastName != name {
      ProcessResultShape(front, outputDir, config, load, transcode, name);
      OutputFilesGrow(entries, outputDir, config, load, transcode);
    }
  }

  /** Output files are never removed by a later entry. */
  lemma OutputFilesGrow(entries: seq<(string, DownloadResult)>, outputDir: string, config: Result<Rules, string>,
                        load: string -> Result<seq<Component>, string>, transcode: Transcode)
    requires entries != []
    ensures OutputFiles(entries[..|entries| - 1], outputDir, config, load, transcode).Keys
      <= OutputFiles(entries, outputDir, config, load, transcode).Keys
  {
  }

  /**
   * The result under a name is that of the last entry with that name: a
   * successful download is processed, anything else is "Download failed".
   */
  lemma {:induction false} LastEntryWins(entries: seq<(string, DownloadResult)>, outputDir: string, config: Result<Rules, string>,
                                         load: string -> Result<seq<Component>, string>, transcode: Transcode, i: nat)
    requires i < |entries|
    requires forall j :: i < j < |entries| ==> entries[j].0 != entries[i].0
    ensures entries[i].0 in ProcessResults(entries, outputDir, config, load, transcode)
    ensures var r := ProcessResults(entries, outputDir, config, load, transcode)[entries[i].0];
      r.competition == entries[i].1.competition
      && (r.success <==> entries[i].1.success && Truthy(entries[i].1.path)
                         && ProcessedFile(entries[i].1.path.value, entries[i].1.competition, config, load, transcode).Success?)
      && (!(entries[i].1.success && Truthy(entries[i].1.path)) ==> r.error == Some(DOWNLOAD_FAILED))
    decreases |entries|
  {
    if i < |entries| - 1 {
      LastEntryWins(entries[..|entries| - 1], outputDir, config, load, transcode, i);
    }
  }

  /** The configuration loads and the file parses exactly when a downloaded calendar is processed. */
  lemma ProcessedFileSucceeds(inputPath: string, competition: Competition, config: Result<Rules, string>,
                              load: string -> Result<seq<Component>, string>, transcode: Transcode)
    ensures ProcessedFile(inputPath, competition, config, load, transcode).Success?
      <==> config.Success? && load(inputPath).Success?
    ensures config.Success? && load(inputPath).Success? ==>
      ProcessedFile(inputPath, competition, config, load, transcode).value
        == transcode(load(inputPath).value, competition, config.value)
  {
  }
}
