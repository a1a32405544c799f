/**
 * The older documentation generator of setup/generate-docs.js: its own
 * hard-coded category chain, a two-column table and a single page with one
 * section per non-empty category.
 */
module LegacyDocs {
  import opened Wrappers
  import opened Strings
  import opened Lists
  import opened Competitions
  import opened CompetitionUtils
  import opened GenerateDocs

  // ================================================================ categories

  /**
   * The category of a name under the hard-coded chain: midweek, then the
   * under-age markers, then women, then men, and finally "mixed" as a junior
   * competition; any other name is dropped.
   */
  function LegacyCategoryOf(name: string): Option<Category> {
    var lower := ToLower(name);
    if Contains(lower, "midweek") then Some(Midweek)
    else if Contains(lower, "u12") || Contains(lower, "u14") || Contains(lower, "u16") || Contains(lower, "u18") then Some(Juniors)
    else if Contains(lower, "women's") || Contains(lower, "women ") then Some(Womens)
    else if Contains(lower, "men's") || Contains(lower, "men ") then Some(Mens)
    else if Contains(lower, "mixed") then Some(Juniors)
    else None
  }

  method CategorizeCompetitions(competitions: seq<Competition>) returns (categories: Categories)
    ensures categories == CategorizedBy(competitions, LegacyCategoryOf)
  {
    categories := Categories([], [], [], []);
    for i := 0 to |competitions|
      invariant categories == CategorizedBy(competitions[..i], LegacyCategoryOf)
    {
      var competition := competitions[i];
      assert competitions[..i + 1][..i] == competitions[..i];
      var name := ToLower(competition.name);
      ghost var before := categories;
      if Contains(name, "midweek") {
        categories := categories.(midweek := categories.midweek + [competition]);
      } else if Contains(name, "u12") || Contains(name, "u14") || Contains(name, "u16") || Contains(name, "u18") {
        categories := categories.(juniors := categories.juniors + [competition]);
      } else if Contains(name, "women's") || Contains(name, "women ") {
        categories := categories.(womens := categories.womens + [competition]);
      } else if Contains(name, "men's") || Contains(name, "men ") {
        categories := categories.(mens := categories.mens + [competition]);
      } else {
        if Contains(name, "mixed") {
          categories := categories.(juniors := categories.juniors + [competition]);
        }
      }
      assert categories == if LegacyCategoryOf(competition.name).Some? then before.Push(LegacyCategoryOf(competition.name).value, competition) else before;
    }
    assert competitions[..|competitions|] == competitions;
  }

  /**
   * Unlike the keyword tables, the chain looks for "mixed" only after the
   * men's and women's markers: a mixed competition with "men's" in its name
   * is a men's competition.
   */
  lemma MixedAfterMens(name: string)
    requires var lower := ToLower(name);
      Contains(lower, "men's") && !Contains(lower, "midweek")
      && !Contains(lower, "u12") && !Contains(lower, "u14") && !Contains(lower, "u16") && !Contains(lower, "u18")
      && !Contains(lower, "women's") && !Contains(lower, "women ")
    ensures LegacyCategoryOf(name) == Some(Mens)
  {
  }

  /** A name with none of the markers and no "mixed" is in no category. */
  lemma UnmarkedIsDropped(name: string)
    requires var lower := ToLower(name);
      !Contains(lower, "midweek") && !Contains(lower, "u12") && !Contains(lower, "u14")
      && !Contains(lower, "u16") && !Contains(lower, "u18") && !Contains(lower, "women's")
      && !Contains(lower, "women ") && !Contains(lower, "men's") && !Contains(lower, "men ")
      && !Contains(lower, "mixed")
    ensures LegacyCategoryOf(name).None?
  {
  }

  // ===================================================================== tables

  const LEGACY_HEADER_TEXT := "| Competition | Google Calendar |"
  const LEGACY_DIVIDER_TEXT := "|-------------|----------------|"
  // The calendar emoji as the program's text holds it: its UTF-8 bytes read as Mac Roman.
  const LEGACY_SUBSCRIBE_LINK := "[\U{F8FF}\U{00FC}\U{00EC}\U{00D6} Subscribe]("

  /** The single calendar column: a subscribe link when the public URL is set. */
  function CalendarCol(c: Competition): string {
    if c.googleCalendar.Some? && Truthy(c.googleCalendar.value.publicUrl) then
      LEGACY_SUBSCRIBE_LINK + c.googleCalendar.value.publicUrl.value + ")"
    else NOT_CONFIGURED
  }

  function LegacyRow(c: Competition): string {
    "| " + c.name + " | " + CalendarCol(c) + " |\n"
  }

  /** `formatCompetitionTable`'s text. */
  function LegacyTable(cs: seq<Competition>): string {
    RowsAfter((LEGACY_HEADER_TEXT + "\n") + (LEGACY_DIVIDER_TEXT + "\n"), cs, LegacyRow) + "\n"
  }

  method FormatCompetitionTable(competitions: seq<Competition>) returns (table: string)
    ensures table == LegacyTable(competitions)
  {
    table := LEGACY_HEADER_TEXT + "\n";
    table := table + (LEGACY_DIVIDER_TEXT + "\n");
    ghost var head := table;
    for i := 0 to |competitions|
      invariant table == RowsAfter(head, competitions[..i], LegacyRow)
    {
      assert competitions[..i + 1][..i] == competitions[..i];
      var row := FormatRow(competitions[i]);
      table := table + row;
    }
    assert competitions[..|competitions|] == competitions;
    table := table + "\n";
  }

  /** The body of the row loop. */
  method FormatRow(competition: Competition) returns (row: string)
    ensures row == LegacyRow(competition)
  {
    var name := competition.name;
    var calendarCol;
    if competition.googleCalendar.Some? && Truthy(competition.googleCalendar.value.publicUrl) {
      calendarCol := LEGACY_SUBSCRIBE_LINK + competition.googleCalendar.value.publicUrl.value + ")";
    } else {
      calendarCol := NOT_CONFIGURED;
    }
    row := "| " + name + " | " + calendarCol + " |\n";
  }

  /** The calendar column is a link exactly when the public URL is set. */
  lemma CalendarColIsLink(c: Competition)
    ensures CalendarCol(c) != NOT_CONFIGURED <==> c.googleCalendar.Some? && Truthy(c.googleCalendar.value.publicUrl)
    ensures CalendarCol(c) != NOT_CONFIGURED ==> StartsWith(CalendarCol(c), LEGACY_SUBSCRIBE_LINK)
  {
    if c.googleCalendar.Some? && Truthy(c.googleCalendar.value.publicUrl) {
      var url := c.googleCalendar.value.publicUrl.value;
      assert CalendarCol(c)[0] == '[';
      StartsWithJoin(LEGACY_SUBSCRIBE_LINK, url, ")");
    }
  }

  /** The texts of a competition that end up in a row hold no line break. */
  predicate LegacyOneLine(c: Competition) {
    '\n' !in c.name
    && (c.googleCalendar.Some? && Truthy(c.googleCalendar.value.publicUrl) ==> '\n' !in c.googleCalendar.value.publicUrl.value)
  }

  lemma LegacyRowIsOneLine(c: Competition)
    requires LegacyOneLine(c)
    ensures Count(LegacyRow(c), '\n') == 1
  {
    var body := "| " + c.name + " | " + CalendarCol(c) + " |";
    assert LegacyRow(c) == body + "\n";
    OneLineCount(body);
  }

  lemma LegacyHeadLines()
    ensures '\n' !in LEGACY_HEADER_TEXT && '\n' !in LEGACY_DIVIDER_TEXT
  {
  }

  /** A table is a header pair, one line per competition and a closing blank line. */
  lemma LegacyTableLines(cs: seq<Competition>)
    requires forall k :: 0 <= k < |cs| ==> LegacyOneLine(cs[k])
    ensures Count(LegacyTable(cs), '\n') == 2 + |cs| + 1
  {
    forall k | 0 <= k < |cs| ensures Count(LegacyRow(cs[k]), '\n') == 1 {
      LegacyRowIsOneLine(cs[k]);
    }
    var head := (LEGACY_HEADER_TEXT + "\n") + (LEGACY_DIVIDER_TEXT + "\n");
    LegacyHeadLines();
    TwoLines(LEGACY_HEADER_TEXT, LEGACY_DIVIDER_TEXT);
    var rows := RowsAfter(head, cs, LegacyRow);
    RowsAfterCount(head, cs, LegacyRow);
    CountAppend(rows, "\n", '\n');
    OneLineCount([]);
    assert [] + "\n" == "\n";
  }

  // ====================================================================== page

  /** `init`, then the section of a category if it is not empty. */
  function LegacySectionIf(init: string, category: Category, cs: seq<Competition>): string {
    if |cs| > 0 then init + SectionTitle(category) + LegacyTable(cs) + "\n" else init
  }

  /** `generateMarkdown`'s text. */
  function LegacyMarkdown(clubName: string, totalCompetitions: string, lastUpdated: string, categories: Categories): string {
    var intro := Intro(clubName, totalCompetitions, lastUpdated);
    var mens := LegacySectionIf(intro, Mens, categories.mens);
    var womens := LegacySectionIf(mens, Womens, categories.womens);
    var midweek := LegacySectionIf(womens, Midweek, categories.midweek);
    LegacySectionIf(midweek, Juniors, categories.juniors) + RULE + FOOTER
  }

  method GenerateMarkdown(clubName: string, totalCompetitions: string, lastUpdated: string, categories: Categories)
    returns (markdown: string)
    ensures markdown == LegacyMarkdown(clubName, totalCompetitions, lastUpdated, categories)
  {
    markdown := "# " + clubName + " - Competition Calendars\n\n";
    markdown := markdown + ("**Total Competitions:** " + totalCompetitions + "  \n");
    markdown := markdown + ("**Last Updated:** " + lastUpdated + "  \n\n");
    markdown := markdown + RULE;
    markdown := AppendSection(markdown, Mens, categories.mens);
    markdown := AppendSection(markdown, Womens, categories.womens);
    markdown := AppendSection(markdown, Midweek, categories.midweek);
    markdown := AppendSection(markdown, Juniors, categories.juniors);
    markdown := markdown + RULE;
    markdown := markdown + FOOTER;
  }

  /** One `if (categories.x.length > 0)` block. */
  method AppendSection(markdown: string, category: Category, cs: seq<Competition>) returns (result: string)
    ensures result == LegacySectionIf(markdown, category, cs)
  {
    result := markdown;
    if |cs| > 0 {
      result := result + SectionTitle(category);
      var table := FormatCompetitionTable(cs);
      result := result + table;
      result := result + "\n";
    }
  }

  /** The text a category contributes: its section when it is not empty, nothing otherwise. */
  function SectionText(category: Category, cs: seq<Competition>): string {
    if |cs| > 0 then SectionTitle(category) + LegacyTable(cs) + "\n" else ""
  }

  lemma SectionIfAppends(init: string, category: Category, cs: seq<Competition>)
    ensures LegacySectionIf(init, category, cs) == init + SectionText(category, cs)
  {
    if |cs| > 0 {
      Associative(init + SectionTitle(category), LegacyTable(cs), "\n");
      Associative(init, SectionTitle(category), LegacyTable(cs));
      Associative(init, SectionTitle(category) + LegacyTable(cs), "\n");
    }
  }

  /**
   * The page is the title block, then the sections of the non-empty
   * categories in the order mens, womens, midweek, juniors, then the footer.
   */
  lemma LegacyMarkdownOrder(clubName: string, totalCompetitions: string, lastUpdated: string, categories: Categories)
    ensures LegacyMarkdown(clubName, totalCompetitions, lastUpdated, categories)
      == Intro(clubName, totalCompetitions, lastUpdated)
         + (SectionText(Mens, categories.mens) + SectionText(Womens, categories.womens)
            + SectionText(Midweek, categories.midweek) + SectionText(Juniors, categories.juniors))
         + (RULE + FOOTER)
  {
    var intro := Intro(clubName, totalCompetitions, lastUpdated);
    var m := SectionText(Mens, categories.mens);
    var w := SectionText(Womens, categories.womens);
    var d := SectionText(Midweek, categories.midweek);
    var j := SectionText(Juniors, categories.juniors);
    var s1 := LegacySectionIf(intro, Mens, categories.mens);
    var s2 := LegacySectionIf(s1, Womens, categories.womens);
    var s3 := LegacySectionIf(s2, Midweek, categories.midweek);
    SectionIfAppends(intro, Mens, categories.mens);
    SectionIfAppends(s1, Womens, categories.womens);
    SectionIfAppends(s2, Midweek, categories.midweek);
    SectionIfAppends(s3, Juniors, categories.juniors);
    Associative(intro, m, w);
    Associative(intro, m + w, d);
    Associative(intro, m + w + d, j);
    Associative(intro + (m + w + d + j), RULE, FOOTER);
  }

  /** A category has a section exactly when it is not empty. */
  lemma SectionIffNonEmpty(category: Category, cs: seq<Competition>)
    ensures SectionText(category, cs) != "" <==> |cs| > 0
  {
  }
}
