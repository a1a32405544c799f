/**
 * The documentation pages of src/setup/generate-docs.js: an index page with
 * a combined Google Calendar view of every categorised competition, links to
 * and tables of the four categories, and one page per category. The
 * `encodeURIComponent` escaping of calendar ids is a parameter, and so is
 * the locale text of the last-updated date.
 */
module GenerateDocs {
  import opened Wrappers
  import opened Strings
  import opened Lists
  import opened Competitions
  import opened CompetitionUtils

  // ===================================================================== tables

  const HEADER_TEXT := "| Competition | Web View | iCal Subscribe |"
  const DIVIDER_TEXT := "|-------------|----------|----------------|"
  const TABLE_HEADER := HEADER_TEXT + "\n"
  const TABLE_DIVIDER := DIVIDER_TEXT + "\n"
  const NOT_CONFIGURED := "*Not configured*"
  const NOT_AVAILABLE := "*Not available*"
  // The link texts hold the characters the program's own text has there: the
  // calendar and phone emoji stored as their UTF-8 bytes read as Windows-1252.
  const VIEW_LINK := "[\U{00F0}\U{0178}\U{201C}\U{2026} View]("
  const SUBSCRIBE_LINK := "[\U{00F0}\U{0178}\U{201C}\U{00B2} Subscribe]("

  function WebViewCol(c: Competition): string {
    if c.googleCalendar.None? then NOT_CONFIGURED
    else if Truthy(c.googleCalendar.value.publicUrl) then VIEW_LINK + c.googleCalendar.value.publicUrl.value + ")"
    else NOT_AVAILABLE
  }

  function IcalCol(c: Competition): string {
    if c.googleCalendar.None? then NOT_CONFIGURED
    else if Truthy(c.googleCalendar.value.icalUrl) then SUBSCRIBE_LINK + c.googleCalendar.value.icalUrl.value + ")"
    else NOT_AVAILABLE
  }

  /** One table row: the name, the web view link and the subscribe link. */
  function Row(c: Competition): string {
    "| " + c.name + " | " + WebViewCol(c) + " | " + IcalCol(c) + " |\n"
  }

  /** `init` followed by the row of each competition, in order. */
  function RowsAfter(init: string, cs: seq<Competition>, row: Competition -> string): string
    decreases |cs|
  {
    if cs == [] then init else RowsAfter(init, cs[..|cs| - 1], row) + row(cs[|cs| - 1])
  }

  lemma {:induction false} RowsAfterStartsWith(init: string, cs: seq<Competition>, row: Competition -> string)
    ensures StartsWith(RowsAfter(init, cs, row), init)
    decreases |cs|
  {
    if cs != [] {
      RowsAfterStartsWith(init, cs[..|cs| - 1], row);
      var prev := RowsAfter(init, cs[..|cs| - 1], row);
      assert (prev + row(cs[|cs| - 1]))[..|init|] == prev[..|init|];
    }
  }

  /** `formatCompetitionTable`'s text. */
  function CompetitionTable(cs: seq<Competition>): string {
    RowsAfter(TABLE_HEADER + TABLE_DIVIDER, cs, Row) + "\n"
  }

  method FormatCompetitionTable(competitions: seq<Competition>) returns (table: string)
    ensures table == CompetitionTable(competitions)
  {
    table := TABLE_HEADER;
    table := table + TABLE_DIVIDER;
    table := AppendRows(table, competitions);
    table := table + "\n";
  }

  /** The row loop shared by the index tables and the category pages. */
  method AppendRows(init: string, competitions: seq<Competition>) returns (text: string)
    ensures text == RowsAfter(init, competitions, Row)
  {
    text := init;
    for i := 0 to |competitions|
      invariant text == RowsAfter(init, competitions[..i], Row)
    {
      assert competitions[..i + 1][..i] == competitions[..i];
      var row := FormatRow(competitions[i]);
      text := text + row;
    }
    assert competitions[..|competitions|] == competitions;
  }

  /** The body of the row loop: the columns for one competition. */
  method FormatRow(competition: Competition) returns (row: string)
    ensures row == Row(competition)
  {
    var name := competition.name;
    var webViewCol;
    var icalCol;
    if competition.googleCalendar.Some? {
      if Truthy(competition.googleCalendar.value.publicUrl) {
        webViewCol := VIEW_LINK + competition.googleCalendar.value.publicUrl.value + ")";
      } else {
        webViewCol := NOT_AVAILABLE;
      }
      if Truthy(competition.googleCalendar.value.icalUrl) {
        icalCol := SUBSCRIBE_LINK + competition.googleCalendar.value.icalUrl.value + ")";
      } else {
        icalCol := NOT_AVAILABLE;
      }
    } else {
      webViewCol := NOT_CONFIGURED;
      icalCol := NOT_CONFIGURED;
    }
    row := "| " + name + " | " + webViewCol + " | " + icalCol + " |\n";
  }

  /** The texts of a competition that end up in a table row hold no line break. */
  predicate OneLine(c: Competition) {
    '\n' !in c.name
    && (c.googleCalendar.Some? ==>
      (Truthy(c.googleCalendar.value.publicUrl) ==> '\n' !in c.googleCalendar.value.publicUrl.value)
      && (Truthy(c.googleCalendar.value.icalUrl) ==> '\n' !in c.googleCalendar.value.icalUrl.value))
  }

  lemma {:induction false} CountAbsent(s: string, ch: char)
    requires ch !in s
    ensures Count(s, ch) == 0
    decreases |s|
  {
    if s != [] {
      assert s[0] != ch;
      assert forall k :: 0 <= k < |s[1..]| ==> s[1..][k] == s[k + 1];
      CountAbsent(s[1..], ch);
    }
  }

  /** A text with its only line break at the end is one line. */
  lemma OneLineCount(body: string)
    requires '\n' !in body
    ensures Count(body + "\n", '\n') == 1
  {
    CountAppend(body, "\n", '\n');
    CountAbsent(body, '\n');
  }

  lemma RowIsOneLine(c: Competition)
    requires OneLine(c)
    ensures Count(Row(c), '\n') == 1
  {
    var body := "| " + c.name + " | " + WebViewCol(c) + " | " + IcalCol(c) + " |";
    assert Row(c) == body + "\n";
    OneLineCount(body);
  }

  lemma {:induction false} RowsAfterCount(init: string, cs: seq<Competition>, row: Competition -> string)
    requires forall k :: 0 <= k < |cs| ==> Count(row(cs[k]), '\n') == 1
    ensures Count(RowsAfter(init, cs, row), '\n') == Count(init, '\n') + |cs|
    decreases |cs|
  {
    if cs != [] {
      RowsAfterCount(init, cs[..|cs| - 1], row);
      CountAppend(RowsAfter(init, cs[..|cs| - 1], row), row(cs[|cs| - 1]), '\n');
    }
  }

  /**
   * A table is two header lines, one line per competition and a closing
   * blank line, as long as the names and links hold no line break.
   */
  lemma TableLines(cs: seq<Competition>)
    requires forall k :: 0 <= k < |cs| ==> OneLine(cs[k])
    ensures Count(CompetitionTable(cs), '\n') == 2 + |cs| + 1
  {
    forall k | 0 <= k < |cs| ensures Count(Row(cs[k]), '\n') == 1 {
      RowIsOneLine(cs[k]);
    }
    var head := TABLE_HEADER + TABLE_DIVIDER;
    HeadLines();
    var rows := RowsAfter(head, cs, Row);
    RowsAfterCount(head, cs, Row);
    CountAppend(rows, "\n", '\n');
    OneLineCount([]);
    assert [] + "\n" == "\n";
    assert CompetitionTable(cs) == rows + "\n";
  }

  lemma HeadLines()
    ensures Count(TABLE_HEADER + TABLE_DIVIDER, '\n') == 2
  {
    HeaderIsOneLine();
    DividerIsOneLine();
    TwoLines(HEADER_TEXT, DIVIDER_TEXT);
  }

  lemma HeaderIsOneLine()
    ensures '\n' !in HEADER_TEXT
  {
  }

  lemma DividerIsOneLine()
    ensures '\n' !in DIVIDER_TEXT
  {
  }

  lemma TwoLines(a: string, b: string)
    requires '\n' !in a && '\n' !in b
    ensures Count((a + "\n") + (b + "\n"), '\n') == 2
  {
    OneLineCount(a);
    OneLineCount(b);
    CountAppend(a + "\n", b + "\n", '\n');
  }

  /**
   * The columns of a row: both say "not configured" exactly when there is no
   * Google calendar; otherwise each is a link exactly when its URL is set.
   */
  lemma RowColumns(c: Competition)
    ensures WebViewCol(c) == NOT_CONFIGURED <==> c.googleCalendar.None?
    ensures IcalCol(c) == NOT_CONFIGURED <==> c.googleCalendar.None?
    ensures c.googleCalendar.Some? ==>
      (WebViewCol(c) == NOT_AVAILABLE <==> !Truthy(c.googleCalendar.value.publicUrl))
      && (IcalCol(c) == NOT_AVAILABLE <==> !Truthy(c.googleCalendar.value.icalUrl))
  {
    if c.googleCalendar.Some? {
      var g := c.googleCalendar.value;
      if Truthy(g.publicUrl) {
        assert WebViewCol(c)[0] == '[';
      }
      if Truthy(g.icalUrl) {
        assert IcalCol(c)[0] == '[';
      }
    }
  }

  // =========================================================== calendar sources

  const SOURCE_PARAMETER := "&src="
  const EMBED_URL := "https://calendar.google.com/calendar/embed?height=600&wkst=2&ctz=Australia%2FMelbourne&showPrint=0&showTz=0"

  /** One `&src=` segment per calendar id, in order. */
  function Segments(ids: seq<string>, encode: string -> string): string
    decreases |ids|
  {
    if ids == [] then [] else Segments(ids[..|ids| - 1], encode) + (SOURCE_PARAMETER + encode(ids[|ids| - 1]))
  }

  /** The calendar sources of a list: its calendar ids, encoded, each as a `&src=` segment. */
  function CalendarSources(cs: seq<Competition>, encode: string -> string): string {
    Segments(ExtractCalendarIds(cs), encode)
  }

  /** The embedded calendar frame for an embed URL. */
  function Iframe(iframeUrl: string): string {
    "<iframe src=\"" + iframeUrl
    + "\" style=\"border:solid 1px #777\" width=\"800\" height=\"600\" frameborder=\"0\" scrolling=\"no\"></iframe>\n\n"
  }

  lemma {:induction false} SegmentsAppend(a: seq<string>, b: seq<string>, encode: string -> string)
    ensures Segments(a + b, encode) == Segments(a, encode) + Segments(b, encode)
    decreases |b|
  {
    if b == [] {
      assert a + b == a;
    } else {
      var n := |b| - 1;
      var ab := a + b;
      SegmentsAppend(a, b[..n], encode);
      assert ab[..|ab| - 1] == a + b[..n];
      assert ab[|ab| - 1] == b[n];
      var last := SOURCE_PARAMETER + encode(b[n]);
      assert Segments(ab, encode) == Segments(a, encode) + Segments(b[..n], encode) + last;
      assert Segments(b, encode) == Segments(b[..n], encode) + last;
      Associative(Segments(a, encode), Segments(b[..n], encode), last);
    }
  }

  lemma {:induction false} CalendarIdsAppend(a: seq<Competition>, b: seq<Competition>)
    ensures ExtractCalendarIds(a + b) == ExtractCalendarIds(a) + ExtractCalendarIds(b)
    decreases |b|
  {
    if b == [] {
      assert a + b == a;
    } else {
      var n := |b| - 1;
      var ab := a + b;
      CalendarIdsAppend(a, b[..n]);
      assert ab[..|ab| - 1] == a + b[..n];
      assert ab[|ab| - 1] == b[n];
      var last := b[n];
      var part := if HasCalendar(last) then [last.googleCalendar.value.calendarId.value] else [];
      assert ExtractCalendarIds(ab) == ExtractCalendarIds(a) + ExtractCalendarIds(b[..n]) + part;
      assert ExtractCalendarIds(b) == ExtractCalendarIds(b[..n]) + part;
      Associative(ExtractCalendarIds(a), ExtractCalendarIds(b[..n]), part);
    }
  }

  lemma CalendarSourcesAppend(a: seq<Competition>, b: seq<Competition>, encode: string -> string)
    ensures CalendarSources(a + b, encode) == CalendarSources(a, encode) + CalendarSources(b, encode)
  {
    CalendarIdsAppend(a, b);
    SegmentsAppend(ExtractCalendarIds(a), ExtractCalendarIds(b), encode);
  }

  // ================================================================= index page

  /** The categories in the order the pages list them. */
  function AllCategorised(categories: Categories): seq<Competition> {
    categories.mens + categories.womens + categories.midweek + categories.juniors
  }

  function Heading(category: Category): string {
    match category
    case Mens => "Men's Competitions"
    case Womens => "Women's Competitions"
    case Midweek => "Midweek Competitions"
    case Juniors => "Junior Competitions"
  }

  function PageFile(category: Category): string {
    match category
    case Mens => "mens-calendars.md"
    case Womens => "womens-calendars.md"
    case Midweek => "midweek-calendars.md"
    case Juniors => "juniors-calendars.md"
  }

  function Blurb(category: Category): string {
    match category
    case Mens => "men's"
    case Womens => "women's"
    case Midweek => "midweek"
    case Juniors => "junior"
  }

  const RULE := "---\n\n"
  const COMBINED_HEADING := "## All Competitions - Combined Calendar View\n\n"
  const CATEGORIES_HEADING := "## Calendar Categories\n\n"
  const FOOTER := "*This documentation is automatically generated from competitions.json*  \n"
    + "*To update calendars, run: `npm run process-fixture`*\n"

  /** The title block; `lastUpdated` is the locale text of the data's date. */
  function Intro(clubName: string, totalCompetitions: string, lastUpdated: string): string {
    ("# " + clubName + " - Competition Calendars\n\n")
    + ("**Total Competitions:** " + totalCompetitions + "  \n")
    + ("**Last Updated:** " + lastUpdated + "  \n\n")
    + RULE
  }

  /** `init`, then the combined view of every categorised competition with a calendar, if there is one. */
  function Combined(init: string, categories: Categories, encode: string -> string): string {
    var all := AllCategorised(categories);
    if |WithCalendars(all)| > 0 then init + COMBINED_HEADING + Iframe(EMBED_URL + CalendarSources(all, encode)) + RULE
    else init
  }

  function LinkLine(category: Category, cs: seq<Competition>): string {
    "### [" + Heading(category) + "](" + PageFile(category) + ") (" + NatToString(|cs|) + ")\n"
  }

  function BlurbLine(category: Category): string {
    "Combined calendar view of all " + Blurb(category) + " competitions.\n\n"
  }

  /** `init`, then the link to a category page if the category is not empty. */
  function LinkIf(init: string, category: Category, cs: seq<Competition>): string {
    if |cs| > 0 then init + LinkLine(category, cs) + BlurbLine(category) else init
  }

  function SectionTitle(category: Category): string {
    "## " + Heading(category) + "\n\n"
  }

  /** `init`, then the table section of a category if it is not empty. */
  function SectionIf(init: string, category: Category, cs: seq<Competition>): string {
    if |cs| > 0 then init + SectionTitle(category) + CompetitionTable(cs) + "\n" else init
  }

  /** `init`, then the links of the four categories in order. */
  function Links(init: string, categories: Categories): string {
    var mens := LinkIf(init, Mens, categories.mens);
    var womens := LinkIf(mens, Womens, categories.womens);
    var midweek := LinkIf(womens, Midweek, categories.midweek);
    LinkIf(midweek, Juniors, categories.juniors)
  }

  /** `init`, then the table sections of the four categories in order. */
  function Sections(init: string, categories: Categories): string {
    var mens := SectionIf(init, Mens, categories.mens);
    var womens := SectionIf(mens, Womens, categories.womens);
    var midweek := SectionIf(womens, Midweek, categories.midweek);
    SectionIf(midweek, Juniors, categories.juniors)
  }

  /** `generateIndexMarkdown`'s text. */
  function IndexMarkdown(clubName: string, totalCompetitions: string, lastUpdated: string,
                         categories: Categories, encode: string -> string): string {
    var top := Combined(Intro(clubName, totalCompetitions, lastUpdated), categories, encode) + CATEGORIES_HEADING;
    Sections(Links(top, categories) + RULE, categories) + RULE + FOOTER
  }

  method GenerateIndexMarkdown(clubName: string, totalCompetitions: string, lastUpdated: string,
                               categories: Categories, encode: string -> string)
    returns (markdown: string)
    ensures markdown == IndexMarkdown(clubName, totalCompetitions, lastUpdated, categories, encode)
  {
    markdown := "# " + clubName + " - Competition Calendars\n\n";
    markdown := markdown + ("**Total Competitions:** " + totalCompetitions + "  \n");
    markdown := markdown + ("**Last Updated:** " + lastUpdated + "  \n\n");
    markdown := markdown + RULE;
    assert markdown == Intro(clubName, totalCompetitions, lastUpdated);
    markdown := AppendCombined(markdown, categories, encode);
    markdown := markdown + CATEGORIES_HEADING;
    markdown := AppendLink(markdown, Mens, categories.mens);
    markdown := AppendLink(markdown, Womens, categories.womens);
    markdown := AppendLink(markdown, Midweek, categories.midweek);
    markdown := AppendLink(markdown, Juniors, categories.juniors);
    markdown := markdown + RULE;
    markdown := AppendSection(markdown, Mens, categories.mens);
    markdown := AppendSection(markdown, Womens, categories.womens);
    markdown := AppendSection(markdown, Midweek, categories.midweek);
    markdown := AppendSection(markdown, Juniors, categories.juniors);
    markdown := markdown + RULE;
    markdown := markdown + FOOTER;
  }

  /** The combined calendar view of the index page. */
  method AppendCombined(markdown: string, categories: Categories, encode: string -> string) returns (result: string)
    ensures result == Combined(markdown, categories, encode)
  {
    result := markdown;
    var allCompetitions := categories.mens + categories.womens + categories.midweek + categories.juniors;
    var competitionsWithCalendars := Filter(allCompetitions, HasCalendar);
    if |competitionsWithCalendars| > 0 {
      result := result + COMBINED_HEADING;
      var calendarSources := CalendarSources(allCompetitions, encode);
      var iframeUrl := EMBED_URL + calendarSources;
      result := result + Iframe(iframeUrl);
      result := result + RULE;
    }
  }

  /** One `if (categories.x.length > 0)` block of the category links. */
  method AppendLink(markdown: string, category: Category, cs: seq<Competition>) returns (result: string)
    ensures result == LinkIf(markdown, category, cs)
  {
    result := markdown;
    if |cs| > 0 {
      result := result + LinkLine(category, cs);
      result := result + BlurbLine(category);
    }
  }

  /** One `if (categories.x.length > 0)` block of the category tables. */
  method AppendSection(markdown: string, category: Category, cs: seq<Competition>) returns (result: string)
    ensures result == SectionIf(markdown, category, cs)
  {
    result := markdown;
    if |cs| > 0 {
      result := result + SectionTitle(category);
      var table := FormatCompetitionTable(cs);
      result := result + table;
      result := result + "\n";
    }
  }

  /**
   * The combined view lists the calendars of the men's, women's, midweek and
   * junior competitions in that order, one `&src=` segment each.
   */
  lemma CombinedInCategoryOrder(categories: Categories, encode: string -> string)
    ensures CalendarSources(AllCategorised(categories), encode)
      == CalendarSources(categories.mens, encode) + CalendarSources(categories.womens, encode)
         + CalendarSources(categories.midweek, encode) + CalendarSources(categories.juniors, encode)
    ensures |ExtractCalendarIds(AllCategorised(categories))|
      == |ExtractCalendarIds(categories.mens)| + |ExtractCalendarIds(categories.womens)|
         + |ExtractCalendarIds(categories.midweek)| + |ExtractCalendarIds(categories.juniors)|
  {
    var m := categories.mens;
    var w := categories.womens;
    var d := categories.midweek;
    var j := categories.juniors;
    CalendarSourcesAppend(m, w, encode);
    CalendarSourcesAppend(m + w, d, encode);
    CalendarSourcesAppend(m + w + d, j, encode);
    CalendarIdsAppend(m, w);
    CalendarIdsAppend(m + w, d);
    CalendarIdsAppend(m + w + d, j);
  }

  /** The combined view is there exactly when some categorised competition has a calendar. */
  lemma CombinedIffSomeCalendar(init: string, categories: Categories, encode: string -> string)
    ensures Combined(init, categories, encode) != init <==> exists c :: c in AllCategorised(categories) && HasCalendar(c)
  {
    var all := AllCategorised(categories);
    if |WithCalendars(all)| > 0 {
      var c := WithCalendars(all)[0];
      FilterMembers(all, HasCalendar, c);
      assert |Combined(init, categories, encode)| > |init|;
    } else if exists c :: c in all && HasCalendar(c) {
      var c :| c in all && HasCalendar(c);
      FilterMembers(all, HasCalendar, c);
      assert false;
    }
  }

  /** A category gets a link and a table section exactly when it is not empty. */
  lemma CategoryShownIffNonEmpty(init: string, category: Category, cs: seq<Competition>)
    ensures LinkIf(init, category, cs) != init <==> |cs| > 0
    ensures SectionIf(init, category, cs) != init <==> |cs| > 0
    ensures |cs| > 0 ==> StartsWith(SectionIf(init, category, cs), init + SectionTitle(category))
  {
    if |cs| > 0 {
      StartsWithJoin(init + SectionTitle(category), CompetitionTable(cs), "\n");
    }
  }

  // ============================================================= category pages

  /** `charAt(0).toUpperCase() + slice(1)`. */
  function CategoryTitle(categoryName: string): (title: string)
    ensures |title| == |categoryName|
    ensures categoryName != [] ==> title[0] == Upper(categoryName[0]) && title[1..] == categoryName[1..]
  {
    if categoryName == [] then [] else [Upper(categoryName[0])] + categoryName[1..]
  }

  /** The back link, with the left arrow stored the same way as the link texts. */
  const BACK_LINK := "[\U{00E2}\U{2020} Back to All Calendars](competitions.md)\n\n"
  const COMBINED_VIEW := "## Combined Calendar View\n\n"
  const INDIVIDUAL_HEADING := "## Individual Competitions\n\n"
  const PAGE_FOOTER := "\n---\n\n*This page is automatically generated from competitions.json*\n"

  function PageHead(title: string, cs: seq<Competition>, clubName: string): string {
    ("# " + clubName + " - " + title + " Calendars\n\n")
    + BACK_LINK
    + ("**" + title + " Competitions:** " + NatToString(|cs|) + "\n\n")
    + RULE
  }

  function NoCalendarsLine(title: string): string {
    "No calendars available for " + ToLower(title) + " competitions.\n"
  }

  /** The page text before the rows: heading, counts, combined view and table head. */
  function PageTop(title: string, cs: seq<Competition>, clubName: string, encode: string -> string): string {
    PageHead(title, cs, clubName) + COMBINED_VIEW + Iframe(EMBED_URL + CalendarSources(cs, encode))
    + INDIVIDUAL_HEADING + TABLE_HEADER + TABLE_DIVIDER
  }

  /** `generateCategoryMarkdown`'s text. */
  function CategoryMarkdown(categoryName: string, cs: seq<Competition>, clubName: string, encode: string -> string): string {
    var title := CategoryTitle(categoryName);
    if WithCalendars(cs) == [] then PageHead(title, cs, clubName) + NoCalendarsLine(title)
    else RowsAfter(PageTop(title, cs, clubName, encode), cs, Row) + PAGE_FOOTER
  }

  method GenerateCategoryMarkdown(categoryName: string, competitions: seq<Competition>, clubName: string, encode: string -> string)
    returns (markdown: string)
    ensures markdown == CategoryMarkdown(categoryName, competitions, clubName, encode)
  {
    var categoryTitle := CategoryTitle(categoryName);
    markdown := "# " + clubName + " - " + categoryTitle + " Calendars\n\n";
    markdown := markdown + BACK_LINK;
    markdown := markdown + ("**" + categoryTitle + " Competitions:** " + NatToString(|competitions|) + "\n\n");
    markdown := markdown + RULE;
    assert markdown == PageHead(categoryTitle, competitions, clubName);
    var competitionsWithCalendars := Filter(competitions, HasCalendar);
    if |competitionsWithCalendars| == 0 {
      markdown := markdown + NoCalendarsLine(categoryTitle);
      return;
    }
    markdown := markdown + COMBINED_VIEW;
    var calendarSources := CalendarSources(competitions, encode);
    var iframeUrl := EMBED_URL + calendarSources;
    markdown := markdown + Iframe(iframeUrl);
    markdown := markdown + INDIVIDUAL_HEADING;
    markdown := markdown + TABLE_HEADER;
    markdown := markdown + TABLE_DIVIDER;
    assert markdown == PageTop(categoryTitle, competitions, clubName, encode);
    markdown := AppendRows(markdown, competitions);
    markdown := markdown + PAGE_FOOTER;
  }

  /**
   * A category page without any calendar stops after the counts with the
   * "no calendars" line; otherwise it shows the combined view of the
   * category's calendars and the table head, then the rows, then the footer.
   */
  lemma CategoryPageShape(categoryName: string, cs: seq<Competition>, clubName: string, encode: string -> string)
    ensures var title := CategoryTitle(categoryName);
      var md := CategoryMarkdown(categoryName, cs, clubName, encode);
      (WithCalendars(cs) == [] ==> md == PageHead(title, cs, clubName) + NoCalendarsLine(title))
      && (WithCalendars(cs) != [] ==> StartsWith(md, PageTop(title, cs, clubName, encode)) && EndsWith(md, PAGE_FOOTER))
  {
    var title := CategoryTitle(categoryName);
    if WithCalendars(cs) != [] {
      var top := PageTop(title, cs, clubName, encode);
      var rows := RowsAfter(top, cs, Row);
      RowsAfterStartsWith(top, cs, Row);
      StartsWithLonger(rows, top, PAGE_FOOTER);
      EndsWithJoin(rows, PAGE_FOOTER);
    }
  }
}
