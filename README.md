# Hockey Victoria club calendars, modelled in Dafny

This project models the logic at the heart of the Hockey Victoria club calendar tools. The tools do the following:

- download each competition's team fixture as an iCalendar file;
- rewrite every event (short club names, competition templates, round names, a description with fixture, ladder and round links, an end time);
- write the calendar again with Australia/Melbourne local times;
- keep a competitions file up to date: which competitions are active, what the club abbreviations are, and which competitions the scrapers found on the Hockey Victoria site.

Around that sit the command-line front ends, the documentation generators and the error helpers.

Each source file of the core is one Dafny module:

| module | file | models |
|---|---|---|
| `CalendarProcessor` | calendar_processor.dfy | round extraction, the three rewrite passes and the description of src/tasks/calendar-processor.js |
| `CalendarOutput` | calendar_output.dfy | the event loop, date-time formatting and `processAllCalendars` of the same file |
| `LegacyProcessor` | legacy_processor.dfy | the earlier revision src/calendar-processor.js |
| `CalendarDownloader` | calendar_downloader.dfy | team-ID extraction, response checks, file names and results of src/tasks/calendar-downloader.js |
| `CompetitionUtils` | competition_utils.dfy | src/lib/competition-utils.js |
| `GenerateDocs` | generate_docs.dfy | src/setup/generate-docs.js |
| `LegacyDocs` | legacy_docs.dfy | setup/generate-docs.js |
| `ClubMappings` | club_mappings.dfy | src/setup/update-mappings-club-names.js |
| `ErrorUtils` | error_utils.dfy | shared/error-utils.js |
| `CompetitionStatus` | competition_status.dfy | src/setup/update-competition-status.js |
| `ProcessCompetition` | process_competition.dfy | src/tasks/process-competition.js |
| `ProcessAll` | process_all.dfy | src/tasks/process-all-competitions.js |
| `LinkScraping` | link_scraping.dfy | the link handling shared by both competition scrapers |
| `SetupScraper` | setup_scraper.dfy | src/setup/competition-scraper.js |
| `UtilsScraper` | utils_scraper.dfy | utils/competition-scraper.js |

Some modules are shared by the others:

- `Wrappers`: `Option` and `Result`.
- `Strings`: JavaScript string operations, that is `trim`, `\s` runs, `split`, `includes`, ASCII `toLowerCase`, literal `replace` and number printing.
- `Lists`: `filter`.
- `ICal`: the parsed-calendar records the `ical` package produces.
- `Competitions`: the competition record of the competitions file.

Some inputs are passed in as parameters:

- the clock (as milliseconds, as ISO text, or as the current year);
- the settings file;
- the Melbourne wall clock, as a function from an instant to calendar fields;
- the mapping files;
- the round-pattern regular expressions, as text-to-text functions;
- the pages the scrapers read, as lists of anchors;
- the outcomes of file reads and API calls.

Code that changes state step by step is written as methods with loops, proved against the functions that specify them. The progress object of each scraper is a class, and the competitions array of the status updater is an `array`.

## Model

| member | source | states |
|---|---|---|
| CalendarProcessor.FirstMatch | src/tasks/calendar-processor.js:100 | the leftmost position at which a matcher succeeds, and no earlier position succeeds, as `String.prototype.match` scans |
| CalendarProcessor.DigitsAfter | src/tasks/calendar-processor.js:100 | `\s*(\d+)` read greedily captures a non-empty run of digits |
| CalendarProcessor.RoundAt | src/tasks/calendar-processor.js:100 | the round pattern tried at one position captures only non-empty digit runs |
| CalendarProcessor.RoundAtIsToken | src/tasks/calendar-processor.js:100 | the matcher captures `d` at a position exactly when `Round`, `R` or `Rd` in any case, optional white space and the digit run `d` start there |
| CalendarProcessor.NoRoundWithoutR | src/tasks/calendar-processor.js:100 | no round match starts at a character other than `r` or `R` |
| CalendarProcessor.ExtractRoundIsLeftmost | src/tasks/calendar-processor.js:98-124 | the round number is the number captured at the leftmost position that starts a round token. The result is null exactly when no position starts one, whether or not the summary names a final |
| CalendarProcessor.UnderTwelveIsRoundTwelve | src/tasks/calendar-processor.js:100-102 | the bare `R` alternative reads "Under 12" as round 12 |
| CalendarProcessor.UnderTwelveToken | src/tasks/calendar-processor.js:100 | in "Under 12" the pattern matches at the `r`, capturing "12" |
| CalendarProcessor.UnderTwelveNoEarlierToken | src/tasks/calendar-processor.js:100 | no earlier position of "Under 12" starts a match |
| CalendarProcessor.RoundFive | src/tasks/calendar-processor.js:100-102 | "Round 5" is round 5 |
| CalendarProcessor.NoDigitsNoRound | src/tasks/calendar-processor.js:98-124 | a summary without digits has no round number |
| CalendarProcessor.GrandFinalHasNoRound | src/tasks/calendar-processor.js:105-123 | "Grand Final" names a final and has no round number |
| CalendarProcessor.FirstMatchAt | src/tasks/calendar-processor.js:100 | the scan stops at the first position where the matcher succeeds |
| CalendarProcessor.MaxOfIsMaximum | src/tasks/calendar-processor.js:130-143 | the running maximum bounds every value and is one of them, or 0 |
| CalendarProcessor.MaxRoundIsMaximum | src/tasks/calendar-processor.js:129-144 | the maximum regular round is at least every round number of an event summary and equals one of them; it is 0 when there are none |
| CalendarProcessor.FindMaxRegularRound | src/tasks/calendar-processor.js:129-144 | the loop computes that maximum |
| CalendarProcessor.ReplaceClubNames | src/tasks/calendar-processor.js:29-43 | the loop replaces every occurrence of each full name, one table entry after another |
| CalendarProcessor.ClubsUnchanged | src/tasks/calendar-processor.js:29-43 | text in which no full name occurs comes back unchanged |
| CalendarProcessor.ClubsInOrder | src/tasks/calendar-processor.js:33-35 | the entries apply in table order, each to the previous output |
| CalendarProcessor.ReplaceCompetitionNames | src/tasks/calendar-processor.js:48-80 | the loop applies each template, after filling in `{{YEAR}}`, in table order |
| CalendarProcessor.MensReading | src/tasks/calendar-processor.js:59-67 | inside any surrounding text, a `{{GENDER}}` template whose pattern may also hold `{{YEAR}}` turns the one "Men's" reading of its pattern, with the year filled in, into the "Men" reading of its replacement and leaves the text around it as it was |
| CalendarProcessor.WomensReading | src/tasks/calendar-processor.js:59-68 | likewise, inside surrounding text and with the year filled in, the one "Women's" reading becomes the "Women" reading and nothing else changes |
| CalendarProcessor.YearFirstOnly | src/tasks/calendar-processor.js:57 | only the first `{{YEAR}}` is replaced by the year |
| CalendarProcessor.ReplaceRoundNames | src/tasks/calendar-processor.js:85-93 | the loop applies every round pattern once, in list order |
| CalendarProcessor.RoundsInOrder | src/tasks/calendar-processor.js:88-90 | each round pattern applies to the result of the previous ones |
| CalendarProcessor.PointscoreAt | src/tasks/calendar-processor.js:161 | a pointscore match starts with `/pointscore/` |
| CalendarProcessor.NoPointscoreAt | src/tasks/calendar-processor.js:161 | no match starts without `/p` |
| CalendarProcessor.NoPointscoreInOrigin | src/tasks/calendar-processor.js:161 | no match starts inside `https://<host>` |
| CalendarProcessor.PointscoreOf | src/tasks/calendar-processor.js:161-163 | at `/pointscore/a/b` the capture is `a/b` |
| CalendarProcessor.PointscoreRuns | src/tasks/calendar-processor.js:161 | where the literal and the two digit runs lie in `/pointscore/a/b...` |
| CalendarProcessor.SuffixDigitsSlash | src/tasks/calendar-processor.js:161 | the digit runs of `a/b...` end where `a` and `b` end |
| CalendarProcessor.PointscoreAfterOrigin | src/tasks/calendar-processor.js:161-163 | the first match in `https://<host>/pointscore/a/b...` captures `a/b` |
| CalendarProcessor.PointscoreAfter | src/tasks/calendar-processor.js:161-163 | the first match after a prefix without matches captures `a/b` |
| CalendarProcessor.LadderIdOfPointscoreUrl | src/tasks/calendar-processor.js:161-163 | a ladder URL `https://www.hockeyvictoria.org.au/pointscore/a/b...` names the competition `a/b` |
| CalendarProcessor.LadderBaseParts | src/tasks/calendar-processor.js:10 | the ladder base URL is the origin followed by `/pointscore/` |
| CalendarProcessor.HostHasNoPath | src/tasks/calendar-processor.js:10 | the host holds no slash and does not start with `p` |
| CalendarProcessor.GenerateDescription | src/tasks/calendar-processor.js:149-182 | the description is built piece by piece, as the function `Description` gives it |
| CalendarProcessor.DescriptionLayout | src/tasks/calendar-processor.js:149-182 | the description opens with "Full Fixture: <fixtureUrl>" and a blank line. A Ladder line follows exactly when `ladderUrl` is set. Then a "Current Round" line with `<games>/<id>/round/<n>` follows exactly when there is a round number and the ladder URL names a competition. It ends with "Last Updated: <now>" |
| CalendarProcessor.RoundLineShape | src/tasks/calendar-processor.js:160-167 | the round line is empty, or "Current Round: " with the round URL and a newline, and only when there is a ladder URL |
| CalendarProcessor.LadderPart | src/tasks/calendar-processor.js:153-157 | the ladder part is present exactly when the text continues with "Ladder: " after the fixture part |
| CalendarProcessor.RoundPart | src/tasks/calendar-processor.js:160-167 | the round part is present exactly when "Current Round: " follows |
| CalendarProcessor.PartsLayout | src/tasks/calendar-processor.js:149-182 | the five parts of a description appear in order, whatever they hold |
| CalendarOutput.FieldPositions | src/tasks/calendar-processor.js:350 | where each field lies in `YYYYMMDDTHHMMSS` |
| CalendarOutput.FormatDateTimeFields | src/tasks/calendar-processor.js:337-351 | for a valid reading in a four-digit year, the local date-time has fifteen characters, `T` ninth and digits elsewhere, and every field reads back |
| CalendarOutput.FormatDateTimeInjective | src/tasks/calendar-processor.js:337-351 | two readings print alike only when they are equal |
| CalendarOutput.EventWrittenIff | src/tasks/calendar-processor.js:195-274 | an event is written exactly when it has a uid and a valid start and the game lasts a positive number of minutes. A missing or zero duration means 90 minutes |
| CalendarOutput.VEventLayout | src/tasks/calendar-processor.js:277-288 | the block opens with BEGIN:VEVENT and the UID, and closes with END:VEVENT. The escaped description holds no line break. The LOCATION line is there exactly when the event has a location |
| CalendarOutput.BlockLayout | src/tasks/calendar-processor.js:277-288 | the ends of an eight-part block |
| CalendarOutput.WrittenConcat | src/tasks/calendar-processor.js:226-290 | components are written independently of each other, in order |
| CalendarOutput.WrittenKeepsInit | src/tasks/calendar-processor.js:226-290 | the loop only appends; with nothing kept it appends nothing |
| CalendarOutput.TranscoderWrites | src/tasks/calendar-processor.js:228-274 | a component is written exactly when the loop's checks keep it |
| CalendarOutput.DocumentLayout | src/tasks/calendar-processor.js:198-292 | the document opens with the fixed VCALENDAR header and VTIMEZONE block, and ends with END:VCALENDAR |
| CalendarOutput.WrittenStep | src/tasks/calendar-processor.js:226-290 | one more component appends its block or nothing |
| CalendarOutput.RenderEventIs | src/tasks/calendar-processor.js:236-288 | a kept event's block holds its UID, the Melbourne start and the end `duration` minutes later, the rewritten summary and the description with its round read from the original summary |
| CalendarOutput.WriteEvent | src/tasks/calendar-processor.js:227-289 | one pass of the loop body appends exactly the event's text, or nothing |
| CalendarOutput.ProcessCalendar | src/tasks/calendar-processor.js:187-300 | the loop writes the header, each component's block and the closing line |
| CalendarOutput.KeptEvents | src/tasks/calendar-processor.js:228-274 | only kept components are listed |
| CalendarOutput.WrittenIsConcat | src/tasks/calendar-processor.js:226-290 | the written text is the start followed by every emitted block |
| CalendarOutput.EmittedAreKept | src/tasks/calendar-processor.js:226-290 | there is one block per kept component: the k-th block renders the k-th kept component |
| CalendarOutput.KeptEventsFilter | src/tasks/calendar-processor.js:226-290 | kept components keep their input order; all are kept when all pass the checks, and none when none does |
| CalendarOutput.ProcessedLayout | src/tasks/calendar-processor.js:187-300 | the document is the header, the blocks of the kept components in input order, and the closing line |
| CalendarOutput.ProcessCalendarFile | src/tasks/calendar-processor.js:187-196 | loads the configuration, then reads, parses and transcodes the file; a failure is the error thrown |
| CalendarOutput.ProcessAllCalendars | src/tasks/calendar-processor.js:356-394 | the loop builds the results object and the output files over the download entries |
| CalendarOutput.ProcessResultShape | src/tasks/calendar-processor.js:356-394 | a result has a path exactly when it succeeded. The path is `<name with non-alphanumerics as _>_processed.ics` and that file was written. A failed configuration load is the error of every downloaded entry |
| CalendarOutput.OutputFilesGrow | src/tasks/calendar-processor.js:356-394 | no later entry removes an output file |
| CalendarOutput.LastEntryWins | src/tasks/calendar-processor.js:359-390 | the result under a name is that of the last entry with that name; a failed download gives "Download failed" |
| CalendarOutput.ProcessedFileSucceeds | src/tasks/calendar-processor.js:364-375 | processing succeeds exactly when the configuration and the file load, and then yields the transcoded text |
| LegacyProcessor.LegacyRound | src/calendar-processor.js:98-102 | the earlier revision's round is a non-empty run of digits: those after the leftmost round token, or "1" when there is none |
| LegacyProcessor.LegacyRoundAgrees | src/calendar-processor.js:98-102 | both revisions read the same token. Where the current one finds a number, the earlier one has its digits. The current one finds none exactly when no position starts a token, and then the earlier one says "1" |
| LegacyProcessor.GrandFinalIsRoundOne | src/calendar-processor.js:100-101 | "Grand Final" is taken to be round 1 |
| LegacyProcessor.GenerateLegacyDescription | src/calendar-processor.js:107-142 | the method builds the description of the earlier revision: the URL layout, else the id layout, else nothing, then the time of writing |
| LegacyProcessor.UrlLayoutWins | src/calendar-processor.js:111-139 | with a fixture URL the description opens with the fixture line whatever ids are present. A ladder line follows exactly when there is a ladder URL. A round line follows exactly when the ladder URL has a `/pointscore/<n>/<n>` part. It ends with the time of writing |
| LegacyProcessor.IdLayoutLinks | src/calendar-processor.js:128-139 | without a fixture URL but with both ids, the description opens with the fixture, round and ladder links built from the ids, each followed by a blank line. With neither layout it is only the time of writing |
| LegacyProcessor.UtcDateTimeShape | src/calendar-processor.js:213-225 | a valid UTC reading in a four-digit year prints as `YYYYMMDDTHHMMSSZ`, sixteen characters |
| LegacyProcessor.EndStamp | src/calendar-processor.js:155-182 | the end is invalid exactly when the start is; otherwise it is the game duration (default 90) in minutes after the start |
| LegacyProcessor.Events | src/calendar-processor.js:164-166 | the components kept are all VEVENTs |
| LegacyProcessor.LegacyWritesEveryEvent | src/calendar-processor.js:164-198 | one event block per VEVENT, in order, the k-th block rendering the k-th VEVENT; nothing is skipped |
| LegacyProcessor.LegacyProcessedLayout | src/calendar-processor.js:158-200 | the document is the fixed header, the event blocks in order and `END:VCALENDAR`, with as many blocks as VEVENTs |
| LegacyProcessor.WriteLegacyEvent | src/calendar-processor.js:166-197 | the loop body writes the event block for one VEVENT: UID, UTC start and end, rewritten summary, escaped description, location when set |
| LegacyProcessor.LegacyProcessCalendar | src/calendar-processor.js:147-208 | the loop writes the processed document of a parsed calendar |
| LegacyProcessor.LegacyProcessCalendarFile | src/calendar-processor.js:147-207 | processing fails with the configuration's or the input's load error, and otherwise yields the transcoded text |
| LegacyProcessor.LegacyProcessAllCalendars | src/calendar-processor.js:230-268 | the loop builds the same results object and output files as the current revision, around the earlier transcoder |
| CalendarDownloader.IndexOfItem | src/tasks/calendar-downloader.js:23 | `indexOf` gives the first position holding the item, or none when no position does |
| CalendarDownloader.ExtractTeamId | src/tasks/calendar-downloader.js:19-27 | an input without `/games/team/` is used as it is |
| CalendarDownloader.TeamIdOfFixtureUrl | src/tasks/calendar-downloader.js:19-29 | a fixture URL `.../games/team/a/b[/...]` gives the team id `a/b` and the feed URL `ICAL_BASE_URL + a/b` |
| CalendarDownloader.TeamIdFromParts | src/tasks/calendar-downloader.js:22-26 | with `team` as the fifth segment and at least seven segments, the id is the sixth and seventh joined by `/` |
| CalendarDownloader.TeamAtFour | src/tasks/calendar-downloader.js:23 | in a fixture URL's segments the first `team` is at index 4 |
| CalendarDownloader.FixtureUrlMarked | src/tasks/calendar-downloader.js:20 | every fixture URL contains `/games/team/` |
| CalendarDownloader.FixtureUrlParts | src/tasks/calendar-downloader.js:22 | a fixture URL splits into scheme, empty, host, `games`, `team`, `a`, `b`, ... |
| CalendarDownloader.TwoSegments | src/tasks/calendar-downloader.js:22 | `a/b` followed by nothing or more path splits into `a`, `b`, ... |
| CalendarDownloader.OneSegment | src/tasks/calendar-downloader.js:22 | a segment followed by nothing or by `/...` splits with that segment first |
| CalendarDownloader.SplitFixtureBase | src/tasks/calendar-downloader.js:22 | the fixed prefix of a fixture URL splits into the five segments before the team id |
| CalendarDownloader.SplitHostPath | src/tasks/calendar-downloader.js:22 | the same for any host without `/` |
| CalendarDownloader.Utf16Length | src/tasks/calendar-downloader.js:70 | `data.length` counts UTF-16 code units: between one and two per character |
| CalendarDownloader.CheckResponse | src/tasks/calendar-downloader.js:43-71 | an answer is accepted exactly when its status is a 2xx other than 202, its content length does not parse to 0, and its body contains `BEGIN:VCALENDAR` |
| CalendarDownloader.BlankHasNoCalendar | src/tasks/calendar-downloader.js:65-71 | a blank body cannot hold the calendar marker, so the empty-file check only changes the message |
| CalendarDownloader.Accepted202Fails | src/tasks/calendar-downloader.js:44-50 | a 202 answer always fails, with the firewall message exactly when the firewall challenged |
| CalendarDownloader.DownloadCalendar | src/tasks/calendar-downloader.js:17-85 | the feed URL is the base plus the extracted team id. The download succeeds exactly when the fetch answers and the answer passes the checks. A network error's message is the error |
| CalendarDownloader.SafeName | src/tasks/calendar-downloader.js:97 | the file name has as many characters as the competition name has UTF-16 code units, and each is an ASCII letter, a digit or `_` |
| CalendarDownloader.SafeNameAppend | src/tasks/calendar-downloader.js:97 | the replacement works character by character: the safe name of a concatenation is the concatenation of the safe names |
| CalendarDownloader.SafeNameInPlane | src/tasks/calendar-downloader.js:97 | for a name within the Basic Multilingual Plane, the file name has the name's length, keeps each ASCII letter and digit in place and has `_` in place of every other character |
| CalendarDownloader.Identifier | src/tasks/calendar-downloader.js:103-105 | the fixture URL is preferred; an identifier, when there is one, is not empty |
| CalendarDownloader.DownloadAllCalendars | src/tasks/calendar-downloader.js:93-127 | the loop builds the results object and the list of feed URLs fetched |
| CalendarDownloader.PathIffSuccess | src/tasks/calendar-downloader.js:105-123 | a result has a path exactly when it succeeded; the path is then `<dir>/<safe name>.ics`. A competition without an identifier fails with the missing-id error |
| CalendarDownloader.LastOfNameWins | src/tasks/calendar-downloader.js:107-118 | the result under a name is that of the last competition with that name |
| CalendarDownloader.RequestsAreFeeds | src/tasks/calendar-downloader.js:103-116 | every URL fetched starts with the feed base, at most one per competition, and none when no competition has an identifier |
| CompetitionUtils.CategorizeCompetitions | src/lib/competition-utils.js:42-68 | the loop pushes each competition onto the list of the first category, in priority order, whose table has a term in the lower-cased name |
| CompetitionUtils.CategoriesAreFilters | src/lib/competition-utils.js:50-65 | each category lists exactly the competitions whose name falls in it, in input order |
| CompetitionUtils.CategoriesCount | src/lib/competition-utils.js:50-65 | the four lists and the uncategorised competitions together count every competition once |
| CompetitionUtils.AtMostOneCategory | src/lib/competition-utils.js:54-64 | no competition is in two categories |
| CompetitionUtils.WomensBeforeMens | src/lib/competition-utils.js:58-61 | a name with "women's" and no midweek or junior term is womens, although it also contains "men's" |
| CompetitionUtils.WomensContainsMens | src/lib/config.js:55-56 | "women's" contains the mens term "men's", so the order of the checks matters |
| CompetitionUtils.MidweekFirst | src/lib/competition-utils.js:54-55 | a midweek term decides the category whatever else the name holds |
| CompetitionUtils.CalendarPartition | src/lib/competition-utils.js:75-90 | the with-calendar and without-calendar filters split the competitions: together they are all of them, and none is in both |
| CompetitionUtils.StatsConsistent | src/lib/competition-utils.js:97-112 | the without-calendar count, computed as a difference, is the length of the without-calendar list; the category counts add up to at most the total |
| CompetitionUtils.FindCompetitionByName | src/lib/competition-utils.js:120-124 | the result is the first competition whose name equals the given name up to ASCII case, and null when there is none |
| CompetitionUtils.ExtractCalendarIds | src/lib/competition-utils.js:131-135 | the ids are the calendar ids of the competitions that have one, one for each, in order |
| GenerateDocs.FormatCompetitionTable | src/setup/generate-docs.js:113-145 | the method writes the table text: header, divider, one row per competition in order, and a closing blank line |
| GenerateDocs.AppendRows | src/setup/generate-docs.js:117-141 | the row loop appends the row of each competition in order |
| GenerateDocs.FormatRow | src/setup/generate-docs.js:118-140 | the loop body writes the name, web view and subscribe columns of one competition |
| GenerateDocs.RowsAfterStartsWith | src/setup/generate-docs.js:117-141 | appending rows never changes the text already written |
| GenerateDocs.RowIsOneLine | src/setup/generate-docs.js:140 | a row whose texts hold no line break is exactly one line |
| GenerateDocs.RowsAfterCount | src/setup/generate-docs.js:117-141 | the row loop adds one line per competition |
| GenerateDocs.TableLines | src/setup/generate-docs.js:113-145 | a table of one-line competitions has a header line, a divider line, one line per competition and a blank line |
| GenerateDocs.HeadLines | src/setup/generate-docs.js:114-115 | the header and divider are two lines |
| GenerateDocs.RowColumns | src/setup/generate-docs.js:123-138 | both columns say "not configured" exactly when there is no Google calendar. Otherwise each says "not available" exactly when its URL is not set |
| GenerateDocs.SegmentsAppend | src/setup/generate-docs.js:42-44 | the `&src=` segments of two lists of ids are the segments of the first followed by those of the second |
| GenerateDocs.CalendarIdsAppend | src/setup/generate-docs.js:34-36 | the calendar ids of two lists are the ids of the first followed by those of the second |
| GenerateDocs.CalendarSourcesAppend | src/setup/generate-docs.js:34-44 | the calendar sources of two lists concatenate likewise |
| GenerateDocs.GenerateIndexMarkdown | src/setup/generate-docs.js:18-108 | the method writes the index page: title block, combined view, category links, category tables, footer |
| GenerateDocs.AppendCombined | src/setup/generate-docs.js:27-50 | the combined calendar view block of the index page, written only when some categorised competition has a calendar |
| GenerateDocs.AppendLink | src/setup/generate-docs.js:55-73 | one category link block, written only when the category is not empty |
| GenerateDocs.AppendSection | src/setup/generate-docs.js:78-100 | one category table block, written only when the category is not empty |
| GenerateDocs.CombinedInCategoryOrder | src/setup/generate-docs.js:27-44 | the combined view lists the calendars of the men's, women's, midweek and junior competitions in that order, one segment per calendar |
| GenerateDocs.CombinedIffSomeCalendar | src/setup/generate-docs.js:34-50 | the combined view is written exactly when some categorised competition has a calendar id |
| GenerateDocs.CategoryShownIffNonEmpty | src/setup/generate-docs.js:55-100 | a category gets a link and a table section exactly when it is not empty; the section opens with its title |
| GenerateDocs.CategoryTitle | src/setup/generate-docs.js:151 | the title is the category name with its first character upper-cased and the rest unchanged |
| GenerateDocs.GenerateCategoryMarkdown | src/setup/generate-docs.js:150-213 | the method writes a category page |
| GenerateDocs.CategoryPageShape | src/setup/generate-docs.js:150-213 | a page whose competitions have no calendar stops after the counts with the "no calendars" line. Otherwise it opens with the heading, counts, combined view and table head, and ends with the footer |
| LegacyDocs.CategorizeCompetitions | setup/generate-docs.js:32-65 | the loop pushes each competition onto the list its name falls in under the hard-coded chain; every category lists those competitions in input order (through `CompetitionUtils.CategoriesAreFilters`) |
| LegacyDocs.MixedAfterMens | setup/generate-docs.js:43-54 | "mixed" is looked at only after the men's and women's markers: a mixed competition with "men's" in its name and no earlier marker is a men's competition |
| LegacyDocs.UnmarkedIsDropped | setup/generate-docs.js:43-58 | a name with none of the markers and no "mixed" is in no category |
| LegacyDocs.FormatCompetitionTable | setup/generate-docs.js:117-137 | the method writes the two-column table: header, divider, one row per competition, blank line |
| LegacyDocs.FormatRow | setup/generate-docs.js:122-132 | the loop body writes the name and calendar column of one competition |
| LegacyDocs.CalendarColIsLink | setup/generate-docs.js:126-130 | the calendar column is a subscribe link exactly when a Google calendar with a public URL is configured, and "not configured" otherwise |
| LegacyDocs.LegacyRowIsOneLine | setup/generate-docs.js:132 | a row whose texts hold no line break is exactly one line |
| LegacyDocs.LegacyHeadLines | setup/generate-docs.js:118-119 | the header and divider texts hold no line break |
| LegacyDocs.LegacyTableLines | setup/generate-docs.js:117-137 | a table of one-line competitions has two head lines, one line per competition and a blank line |
| LegacyDocs.GenerateMarkdown | setup/generate-docs.js:70-112 | the method writes the page: title block, category sections, footer |
| LegacyDocs.AppendSection | setup/generate-docs.js:79-104 | one category block, written only when the category is not empty |
| LegacyDocs.SectionIfAppends | setup/generate-docs.js:79-104 | a category block only appends to the page written so far |
| LegacyDocs.LegacyMarkdownOrder | setup/generate-docs.js:70-112 | the page is the title block, then the sections in the order mens, womens, midweek, juniors, then the footer |
| LegacyDocs.SectionIffNonEmpty | setup/generate-docs.js:79-104 | a category has a section exactly when it is not empty |
| ClubMappings.Initial | src/setup/update-mappings-club-names.js:102 | the initial of a word is at most one character |
| ClubMappings.Initials | src/setup/update-mappings-club-names.js:100-103 | the joined initials have at most one character per word |
| ClubMappings.CandidateInjective | src/setup/update-mappings-club-names.js:111-116 | the candidates tried (the base, then the base with 1, 2, 3, ...) are all different |
| ClubMappings.NotTriedYet | src/setup/update-mappings-club-names.js:111-116 | the next candidate is none of those tried before it |
| ClubMappings.TriedGrows | src/setup/update-mappings-club-names.js:111-116 | a candidate tried stays tried as the counter grows |
| ClubMappings.GenerateAbbreviation | src/setup/update-mappings-club-names.js:91-119 | the abbreviation is not among the existing ones, and it is the first free candidate for the base built from the cleaned name |
| ClubMappings.MakeUnique | src/setup/update-mappings-club-names.js:110-118 | the uniqueness loop ends on the first candidate that is not taken; the taken set is finite, so the loop ends |
| ClubMappings.FirstFreeUnique | src/setup/update-mappings-club-names.js:110-118 | there is only one first free candidate |
| ClubMappings.FreeBaseIsKept | src/setup/update-mappings-club-names.js:110-116 | a base that is not taken is used without a suffix |
| ClubMappings.TakenBaseGetsSuffix | src/setup/update-mappings-club-names.js:110-116 | a taken base gets the smallest positive number that makes it free |
| ClubMappings.SingleWordBase | src/setup/update-mappings-club-names.js:93-108 | a name that cleans to a single word has fewer than two initials, so its base is its first three characters, upper-cased |
| ClubMappings.UpdateClubMappings | src/setup/update-mappings-club-names.js:193-240 | the updates are those of the batch. Outside a dry run, the object written back lists the existing entries unchanged and in their order, followed by what the updates add; with distinct clubs (as the caller's `Set` gives) that is one entry per update, in batch order. In a dry run the mapping is unchanged |
| ClubMappings.CollectUpdates | src/setup/update-mappings-club-names.js:194-214 | the loop over the new clubs builds the batch's updates, each abbreviation the first free one given the existing abbreviations and those generated before it |
| ClubMappings.Added | src/setup/update-mappings-club-names.js:205-213 | one added club extends the updates and the set of taken abbreviations |
| ClubMappings.ApplyUpdates | src/setup/update-mappings-club-names.js:232-234 | the `forEach` writes the updates into the mapping one after another, each as a property assignment: a new club name is appended after all entries, an existing one keeps its place and takes the new value |
| ClubMappings.KeyIndex | src/setup/update-mappings-club-names.js:232-234 | the position found holds the club name, and no earlier entry does |
| ClubMappings.Put | src/setup/update-mappings-club-names.js:232-234 | a property assignment: for an existing club name only that entry's value changes, in place; a new club name is appended at the end |
| ClubMappings.PutFacts | src/setup/update-mappings-club-names.js:232-234 | after an assignment the entry is present, no entry is lost, entries of other club names keep their positions, the keys gain just the assigned name, and no name is listed twice if none was before |
| ClubMappings.PutAfter | src/setup/update-mappings-club-names.js:232-234 | assigning a club name that the leading entries do not hold leaves those entries untouched in front |
| ClubMappings.Entries | src/setup/update-mappings-club-names.js:232-234 | the entries of a list of updates, one per update, in order |
| ClubMappings.BatchDistinct | src/setup/update-mappings-club-names.js:198-214 | there is one update per club that is not yet a key, in order. No generated abbreviation is an existing value of the mapping, and no two are equal |
| ClubMappings.AppliedKeepsExisting | src/setup/update-mappings-club-names.js:200-234 | when no update is for an existing key, the existing entries stay as the leading part of the mapping, unchanged and in order, and what the updates add follows them |
| ClubMappings.AppliedInOrder | src/setup/update-mappings-club-names.js:200-234 | when no update is for an existing key and no two updates share a club name, the result is the existing entries followed by one entry per update, in update order |
| ClubMappings.NewNamesDistinct | src/setup/update-mappings-club-names.js:198-202 | distinct clubs in the batch give distinct clubs to add |
| ClubMappings.AppliedWritesUpdates | src/setup/update-mappings-club-names.js:232-234 | with distinct club names, the mapping ends up holding every update's entry, club name and abbreviation |
| ClubMappings.AppliedDistinctKeys | src/setup/update-mappings-club-names.js:232-234 | writing the updates never lists a club name twice when the mapping did not |
| ClubMappings.AppliedKeys | src/setup/update-mappings-club-names.js:232-234 | the keys afterwards are the old keys plus the updated club names |
| ClubMappings.ParseArguments | src/setup/update-mappings-club-names.js:11-29 | `help` is set exactly when `--help` or `-h` is given, and `dryRun` exactly when `--dry-run` or `-d` is |
| ErrorUtils.ApiLimitCases | shared/error-utils.js:10-29 | an error is an API limit error exactly when it has a response whose status is 429, or 403 with a rate or quota reason listed |
| ErrorUtils.Prefix | shared/error-utils.js:38 | the prefix is empty exactly when the context is, and otherwise opens with `[` |
| ErrorUtils.Or | shared/error-utils.js:56-64 | the `or` of two strings gives the first when it is a non-empty string and the second otherwise |
| ErrorUtils.GetDetailedError | shared/error-utils.js:37-71 | the message opens with the prefix, followed by the symbol of the error's kind |
| ErrorUtils.KindExists | shared/error-utils.js:40-70 | every error has exactly one kind: API limit; 404, 401, 403, 400 or another status; missing file; forbidden file; or unexpected |
| ErrorUtils.MessageNamesKind | shared/error-utils.js:37-71 | the symbol after the prefix is a kind's symbol exactly when the error is of that kind |
| ErrorUtils.RateLimitedForbidden | shared/error-utils.js:18-54 | a 403 that lists a rate or quota reason reads as an API limit, not as "Permission denied" |
| ErrorUtils.ContextShown | shared/error-utils.js:38 | the message opens with `[` exactly when a context is given |
| ErrorUtils.FileSystemErrors | shared/error-utils.js:62-70 | without a response, ENOENT and EACCES get their own messages and anything else is unexpected |
| ErrorUtils.MessageEndsWithDetail | shared/error-utils.js:48-70 | the message ends with the error's message, the API's own message, or the file path, as the kind requires |
| ErrorUtils.Delays | shared/error-utils.js:134 | the wait before retry `k + 1` is `baseDelay * 2 ** k` |
| ErrorUtils.RetryWithBackoff | shared/error-utils.js:120-144 | the attempts stop at the first success, at the first failure that is not an API limit, or after `maxRetries + 1` attempts. Every earlier attempt hit an API limit, and the result is the last attempt's. The waits are the backoff delays, one per retry |
| ErrorUtils.TotalWait | shared/error-utils.js:123-141 | before retry `n` the operation has waited `baseDelay * (2 ** n - 1)` in total |
| CompetitionStatus.GetLatestEventDate | src/setup/update-competition-status.js:15-39 | the loop computes the latest start date by the scan's own comparison, in which an invalid date never compares later |
| CompetitionStatus.LatestIsSomeStart | src/setup/update-competition-status.js:20-34 | there is no latest date exactly when no VEVENT has a start, and otherwise it is the start of one of them |
| CompetitionStatus.LatestIsMaximum | src/setup/update-competition-status.js:22-32 | when every start is a valid date, the latest date is valid and at or after every event's start |
| CompetitionStatus.CeilDiv | src/setup/update-competition-status.js:67 | `Math.ceil(d / divisor)` is the whole number `r` with `(r - 1) * divisor < d <= r * divisor` |
| CompetitionStatus.ActiveWithinEightDays | src/setup/update-competition-status.js:65-70 | rounding up whole days makes the cut-off eight days: a file whose last event is valid is active exactly when that event is less than eight days before now |
| CompetitionStatus.MissingOrEmptyFile | src/setup/update-competition-status.js:53-78 | a missing processed file counts as active; a file without dated events as inactive |
| CompetitionStatus.Refresh | src/setup/update-competition-status.js:98-105 | after the update the status is the computed one. The competition is unchanged exactly when its status already was that value. Only the status and its time stamp change |
| CompetitionStatus.RefreshIdempotent | src/setup/update-competition-status.js:101-105 | refreshing again with the same status changes nothing, whatever the new time stamp |
| CompetitionStatus.CountsAddUp | src/setup/update-competition-status.js:107-111 | every competition is counted once, as active or inactive, and at most all of them are updated |
| CompetitionStatus.UpdateCompetitionStatus | src/setup/update-competition-status.js:85-131 | every competition in the array gets its status refreshed from its processed file. The summary counts all competitions, the changed ones, and the active and inactive ones, and active plus inactive is the total |
| CompetitionStatus.SecondRunChangesNothing | src/setup/update-competition-status.js:97-105 | a second run with the same files and clock updates no competition |
| ProcessCompetition.StepList | src/tasks/process-competition.js:28 | the steps are the comma-separated parts of the argument, each trimmed, one per part |
| ProcessCompetition.Meaning | src/tasks/process-competition.js:27-48 | an argument that is no flag is read as a word with its own text |
| ProcessCompetition.ParseArguments | src/tasks/process-competition.js:13-57 | the loop reads the arguments into the options, skipping the value after `--steps` and `--competition`/`-c`, and defaults the steps to all three |
| ProcessCompetition.StepsKept | src/tasks/process-competition.js:27-31 | without `--steps` or `--all` among the arguments, the steps stay as they were |
| ProcessCompetition.DefaultSteps | src/tasks/process-competition.js:51-54 | with neither `--steps` nor `--all`, all three steps run |
| ProcessCompetition.StepsGiven | src/tasks/process-competition.js:27-29 | `--steps X` with no later `--steps` or `--all` runs the trimmed comma-separated list `X` |
| ProcessCompetition.FlagsPresent | src/tasks/process-competition.js:32-39 | when no argument takes a value, `help`, `list`, `useCache` and `includeInactive` are each set exactly when their flag is given, in either spelling |
| ProcessCompetition.CompetitionKept | src/tasks/process-competition.js:40-48 | once a non-empty competition is set, only `--competition`/`-c` replaces it |
| ProcessCompetition.BareCompetition | src/tasks/process-competition.js:45-48 | a leading bare name is the competition unless a later `--competition` or `-c` names another |
| ProcessCompetition.ShownMembers | src/tasks/process-competition.js:244 | a competition is offered exactly when it is loaded and either inactive ones are included or it is not marked inactive |
| ProcessCompetition.FindCompetition | src/tasks/process-competition.js:186-218 | an exact match up to case wins. Failing that, the result is the only competition whose name contains the search text, and null when none or several do |
| ProcessCompetition.PartialMatch | src/tasks/process-competition.js:195-201 | a competition found by partial match contains the search text, and no other competition does |
| ProcessCompetition.Select | src/tasks/process-competition.js:256-276 | without a competition name the menu chooses. A selected competition is loaded, and it is not marked inactive unless inactive ones are included |
| ProcessCompetition.DroppedUpload | src/tasks/process-competition.js:288 | the filter keeps every step except `upload` |
| ProcessCompetition.StepsToRun | src/tasks/process-competition.js:280-295 | without a Google calendar the upload step is dropped and every other step kept. There is nothing to run exactly when there is no calendar and every step was `upload` |
| ProcessAll.ParseArguments | src/tasks/process-all-competitions.js:13-42 | the loop reads the arguments into the options, skipping the value after `--steps` |
| ProcessAll.WithoutStepsFlag | src/tasks/process-all-competitions.js:30-38 | without `--steps`, the menu is skipped exactly when `--all` is given, and `--all` selects all three steps. `help` and `useCache` are set exactly when their flag is given |
| ProcessAll.NoArguments | src/tasks/process-all-competitions.js:15-21 | with no arguments the steps are unset and the menu chooses them |
| ProcessAll.StepsGiven | src/tasks/process-all-competitions.js:26-29 | `--steps X` with no later `--steps` or `--all` runs exactly the listed steps, without the menu |
| ProcessAll.InvalidStepsExact | src/tasks/process-all-competitions.js:163-164 | a step is reported invalid exactly when it was requested and is not download, process or upload |
| ProcessAll.ValidRun | src/tasks/process-all-competitions.js:163-170 | the run goes on exactly when every requested step is one of the three |
| ProcessAll.ToProcessExact | src/tasks/process-all-competitions.js:185 | a competition is processed exactly when it is loaded and not marked inactive; unmarked ones are included |
| LinkScraping.Yield | src/setup/competition-scraper.js:275-297 | an anchor yields at most its own link, and only one that passes the filter; a picked anchor with an `href` and text whose link passes yields exactly that link |
| LinkScraping.HarvestExact | src/setup/competition-scraper.js:275-299 | every harvested link passes the filter, and every picked anchor with an `href` and text whose link passes is harvested |
| LinkScraping.HarvestLinks | src/setup/competition-scraper.js:275-299 | the `forEach` appends the link of each usable anchor to the list, in page order |
| LinkScraping.HarvestStep | src/setup/competition-scraper.js:275-299 | one more anchor appends only its own yield |
| LinkScraping.UrlSetAppend | src/setup/competition-scraper.js:302-304 | the URLs of two lists together are the URLs of their concatenation |
| LinkScraping.Unique | src/setup/competition-scraper.js:301-304 | the duplicate filter keeps only links of its input, with distinct URLs, and still reaches every URL of its input |
| LinkScraping.UniqueKeepsOnlyFirst | src/setup/competition-scraper.js:301-304 | every kept link is, at some position, the first link of the page with its URL |
| LinkScraping.UniqueKeepsEveryFirst | src/setup/competition-scraper.js:301-304 | every link that is the first with its URL is kept |
| LinkScraping.UniqueKeepsOrder | src/setup/competition-scraper.js:301-304 | kept links appear in the order of the positions at which they are first |
| LinkScraping.CompetitionLinks | src/setup/competition-scraper.js:270-308 | every competition link contains `/games/` and is longer than the games page URL itself, its text contains neither "download" nor "statistics", in any case, and no two share a URL |
| LinkScraping.GetCompetitionLinks | src/setup/competition-scraper.js:270-308 | the method computes those links, with the same guarantees |
| LinkScraping.LadderCandidatesAreLadders | src/setup/competition-scraper.js:325-347 | every candidate of every selector is a pointscore link |
| LinkScraping.LadderLinks | src/setup/competition-scraper.js:313-356 | every ladder link contains `/pointscore/`, and no two share a URL |
| LinkScraping.GetLadderLinks | src/setup/competition-scraper.js:313-356 | the loops over the four selectors compute those links, with the same guarantees |
| LinkScraping.PendingExact | src/setup/competition-scraper.js:147 | a link is pending exactly when it is one of the links and its URL is not yet processed |
| LinkScraping.NothingPendingAfter | src/setup/competition-scraper.js:147-194 | once the pending links are marked processed, a resumed run has nothing left to do |
| LinkScraping.FoundAppend | src/setup/competition-scraper.js:158-210 | what two runs of links find together is what the first finds followed by what the second finds |
| LinkScraping.BatchOfPending | src/setup/competition-scraper.js:158-159 | one more batch of the pending links extends what the links before it processed and found by what that batch processes and finds |
| LinkScraping.BatchStep | src/setup/competition-scraper.js:169-186 | one more link of a batch extends what the links before it processed and found by that link's URL and data |
| LinkScraping.FirstClubLadder | src/setup/competition-scraper.js:386-472 | the first ladder that shows the club decides. A result names that ladder and its non-empty team link, and no earlier ladder shows the club. When no ladder shows the club there is no result |
| LinkScraping.FirstClubLadderDecides | src/setup/competition-scraper.js:386-472 | conversely, when ladder k is the first that shows the club, the result is that ladder with its team link when the link is non-empty, and no result when it is missing or empty, whatever later ladders show |
| SetupScraper.FirstMatchWins | src/setup/competition-scraper.js:46-59 | the first replacement with a non-zero duration whose pattern occurs in the lower-cased name gives the duration, and with none the configured default, or 90 when that is unset or 0 |
| SetupScraper.DetermineMatchDuration | src/setup/competition-scraper.js:46-59 | the loop returns that duration |
| SetupScraper.CheckCompetition | src/setup/competition-scraper.js:362-478 | a result's competition URL is the link's URL and its ladder is one of the page's ladder links that shows the club with that non-empty team link. The name is the link text with white space collapsed, and the duration is the one determined for that text. A page that fails to load, or ladders without the club, give nothing |
| SetupScraper.CheckCompetitionDecides | src/setup/competition-scraper.js:362-478 | conversely, when ladder k of a loaded page is the first that shows the club, the record is built from that ladder and its team link when the link is non-empty (name with white space collapsed, the link URL, the ladder URL, the duration for the text), and there is none when the link is missing or empty |
| SetupScraper.Progress.constructor | src/setup/competition-scraper.js:64-80 | a fresh progress record: nothing processed or found, all counters 0 |
| SetupScraper.Progress.SaveCompetitionResult | src/setup/competition-scraper.js:115-122 | the processed count always grows by one; found data is appended and counted with the club |
| SetupScraper.Progress.ProcessLink | src/setup/competition-scraper.js:169-188 | a checked link's URL is marked processed, and the result is saved only when there is data |
| SetupScraper.Progress.ProcessBatch | src/setup/competition-scraper.js:169-203 | after a batch its URLs are processed, what it found is appended in order, and both counts grow by the number found |
| SetupScraper.Progress.ProcessCompetitionsInParallel | src/setup/competition-scraper.js:146-211 | the pending links are processed in batches of five. Afterwards their URLs are processed, what they found is appended in order and counted, the links found stay as they were, and nothing of the list is left pending |
| SetupScraper.Progress.ScrapeCompetitions | src/setup/competition-scraper.js:216-265 | the links found are recorded only on a fresh run. The found list grows by what the pending competition links yield, and afterwards every competition link is processed |
| SetupScraper.ParseArguments | src/setup/competition-scraper.js:484-500 | `help` is set exactly when `--help` or `-h` is given, and `useProgress` exactly when `--use-progress` or `-p` is |
| UtilsScraper.CheckCompetition | utils/competition-scraper.js:314-421 | as in the setup scraper, except that the name is the link text as it is and there is no match duration |
| UtilsScraper.CheckCompetitionDecides | utils/competition-scraper.js:314-421 | the same converse for the utility scraper: the first ladder showing the club gives the record from the link text as it is, the link URL, the ladder URL and the team link, or no record when that ladder has no team link |
| UtilsScraper.Progress.constructor | utils/competition-scraper.js:17-31 | a fresh progress record: nothing processed or found, all counters 0 |
| UtilsScraper.Progress.SaveCompetitionResult | utils/competition-scraper.js:68-75 | the processed count always grows by one; found data is appended and counted with the club |
| UtilsScraper.Progress.ProcessLink | utils/competition-scraper.js:122-143 | a checked link's URL is marked processed, and the result is saved whether or not there is data |
| UtilsScraper.Progress.ProcessBatch | utils/competition-scraper.js:122-156 | after a batch its URLs are processed and what it found is appended in order. The processed count grows by the batch's size, the club count by the number found |
| UtilsScraper.Progress.ProcessCompetitionsInParallel | utils/competition-scraper.js:99-164 | as in the setup scraper, except that the processed count grows by the number of pending links |
| UtilsScraper.Progress.ScrapeCompetitions | utils/competition-scraper.js:169-217 | the links found are recorded only on a fresh run. The found list grows by what the pending competition links yield, the processed count by the number of pending links, and afterwards every competition link is processed |

## Left out

- The `ical` package's parser is not part of this model. Its output is an input here: a sequence of components with optional UID, summary, location and start, the start being an instant in milliseconds or an invalid date.
- Time-zone conversion is not modelled. `convertToMelbourneTime` (with `Intl.DateTimeFormat`), the local-time getters of the earlier revision and the UTC getters are each a parameter from an instant to calendar fields. How those fields are formatted is modelled.
- `new Date()` is read once and passed in: as milliseconds, as ISO text, or as the current year. Per-call time stamps such as `startedAt` and `lastUpdated` are left out.
- General regular expressions are not modelled. Club and competition patterns are literal substrings, replaced globally as the `g` flag does. Each round pattern is an opaque text-to-text function. The round-number regular expression of both processors is written out as a scanner.
- `CalendarProcessor.ReplaceClubNames` inserts each abbreviation literally. The source passes it as the replacement string of `String.prototype.replace`, which expands `$` patterns: `$&` is the match, `$$` a single `$`, `` $` `` and `$'` the text before and after the match. The model assumes the club mappings hold no `$`. For example, with the mapping ("Hawks", "$&HC") the source turns "Hawks v Lions" into "HawksHC v Lions", while the model writes "$&HC v Lions".
- `CalendarProcessor.ReplaceCompetitionNames` inserts each replacement, and its "Men"/"Women" readings, literally in the same way. The source expands `$` patterns in them, and the model assumes the replacements hold no `$`. `CalendarProcessor.MensReading` and `CalendarProcessor.WomensReading` state the literal insertion and rest on this assumption.
- Case folding covers ASCII letters only. The keyword tables and patterns are ASCII, but competition and club names need not be. JavaScript's `toLowerCase` and `toUpperCase` fold all of Unicode, so the five members below differ from the source on names with non-ASCII letters.
- `CompetitionUtils.FindCompetitionByName` compares names up to ASCII case only. The source's `toLowerCase` also matches "ÉLITE" with "élite", and the model does not.
- `ProcessCompetition.FindCompetition` folds ASCII case only, both for the exact match and for the substring search. The source folds all of Unicode, so a non-ASCII name can match there and not in the model.
- `ClubMappings.Initial` upper-cases ASCII letters only, so the initial is at most one character. The source's `toUpperCase` also upper-cases other letters, and turns 'ß' into "SS", two characters.
- `ClubMappings.Initials` bounds the joined initials by one character per word for the same reason. In the source a word starting with 'ß' adds two.
- `ClubMappings.GenerateAbbreviation` works on code points and folds ASCII case only. In the source, `charAt`, `substring(0, 3)` and the `length < 2` test count UTF-16 code units, so a word starting with a character outside the Basic Multilingual Plane gives half a surrogate pair there, and such a character counts twice towards the length.
- `LegacyProcessor.EndStamp` and `LegacyProcessor.UtcDateTime` take instants as unbounded integers. A JavaScript `Date` is invalid beyond 8.64e15 ms either side of 1970: there the earlier revision writes "NaN" fields. `CalendarOutput.EndMs` has the same limit: for such an end the current writer throws a `RangeError` from `Intl.DateTimeFormat`, and the model writes an event.
- `CalendarProcessor.ExtractRoundFromSummary` returns the round number as an unbounded natural number. The source's `parseInt` gives a double, so a round number above 2^53 loses precision, and from 1e21 it prints in exponent form in `/round/<n>`.
- The iCalendar writer escapes only line breaks in the description, as the program does. Other RFC 5545 escaping and line folding are not done there either, so they are not modelled.
- The finals lookup in `extractRoundFromSummary` of src/tasks/calendar-processor.js returns no number whether or not a final is named. It is modelled by that outcome (`CalendarProcessor.NamesFinal` states which summaries it recognises).
- File input and output are parameters or left out: reading and writing calendars, `loadConfig`, loading and saving the competitions file, the mapping files and the scrapers' progress and result files, and `path.join` (a plain `/` join here).
- `CompetitionStatus.IsCompetitionActive`: a processed file that exists but cannot be read or parsed makes the source answer inactive. The model's file parameter gives parsed components or nothing, so that case is not represented.
- Browser automation is not part of this model: page navigation, `page.evaluate` and the DOM. A page is its list of anchors, and a ladder visit is an input: failed, club absent, or club present with an optional team link.
- The scrapers' batches run in parallel with `Promise.all`, all updating one progress object. The model runs the links of a batch one after the other.
- The per-link error path of the scrapers is not modelled. `checkCompetition` catches its own errors, so only a failing progress-file write reaches that path.
- `scrapeClubNamesFromLadder` and the `main` flow of src/setup/update-mappings-club-names.js are browser and file work and are not modelled. Their inputs are the club names the updater receives.
- `ClubMappings.Put` keeps JavaScript's insertion order for every club name. A JavaScript object lists integer-like keys such as "123" first, in numeric order, before all other keys. A club named by such a number would be written elsewhere in the file than the model says.
- `ClubMappings.GenerateAbbreviation` takes the existing abbreviations as a set, where the source passes an array, because only membership is asked.
- The Google Calendar API clients, the `ical` and `puppeteer` packages, logging, `console` output, sleeps and `process.exit` are not part of this model. `ErrorUtils.RetryWithBackoff` returns its waits instead of sleeping.
- `ErrorUtils.RetryWithBackoff` takes `maxRetries` as a natural number. A negative `maxRetries`, with which the source makes no attempt at all, is not modelled.
- `handleScriptError`, `withErrorHandling` and the `log*` helpers of shared/error-utils.js only log and exit, so they are left out.
- The readline menus are left out: `selectCompetitionInteractively`, `selectStepsInteractively`, `listCompetitions` and `showHelp`. The competition and steps they would choose are inputs.
- The `main` functions of both documentation generators are left out. So are their `parseArguments` and `showHelp`, which only pick output paths and print.
- `encodeURIComponent` in src/setup/generate-docs.js and `toLocaleString` of the last-updated date are parameters.
- `getCompetitionConfig` of src/setup/competition-scraper.js reads the settings file. The settings are a parameter here.
- Names that differ only in characters other than ASCII letters and digits get the same file name from `CalendarDownloader.SafeName`. The later download then overwrites the earlier file, and files are not modelled. The results map is keyed by competition name, and the model keeps the last result for a repeated name, as the source does.
- The metadata that utils/competition-scraper.js writes into its output file is left out.
- Code that appears twice is modelled once:
  - the summary rewrites, shared by both processor revisions;
  - `processAllCalendars`;
  - the link handling of both scrapers.
