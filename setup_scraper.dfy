/**
 * The competition scraper of the setup tools (src/setup/competition-scraper.js):
 * it reads the competition links of the games page, checks each competition's
 * ladders for the club, and records the competitions found with their fixture
 * URL and match duration in a progress object that lets an interrupted run
 * resume.
 */
module SetupScraper {
  import opened Wrappers
  import opened Strings
  import opened Lists
  import opened LinkScraping
  import opened Competitions

  // -------------------------------------------------------- match duration

  /** One entry of `competitionReplacements`; only `pattern` and `duration` matter here. */
  datatype Replacement = Replacement(pattern: string, duration: Option<int>)

  datatype Config = Config(competitionReplacements: seq<Replacement>, defaultMatchDuration: Option<int>)

  /** A duration JavaScript treats as true: present and not zero. */
  predicate IsSet(duration: Option<int>) {
    duration.Some? && duration.value != 0
  }

  /** A replacement decides the duration of a name (already lower-cased) when its duration is set and its pattern occurs in the name. */
  predicate Decides(r: Replacement, nameLower: string) {
    IsSet(r.duration) && Contains(nameLower, ToLower(r.pattern))
  }

  /** `config.defaultMatchDuration || 90`. */
  function Fallback(config: Config): int {
    if IsSet(config.defaultMatchDuration) then config.defaultMatchDuration.value else 90
  }

  /** The duration the first deciding replacement gives, or the fallback. */
  function MatchDuration(replacements: seq<Replacement>, nameLower: string, fallback: int): int
    decreases |replacements|
  {
    if replacements == [] then fallback
    else if Decides(replacements[0], nameLower) then replacements[0].duration.value
    else MatchDuration(replacements[1..], nameLower, fallback)
  }

  /** The duration of a name is that of the first deciding replacement, or the fallback when none decides. */
  lemma {:induction false} FirstMatchWins(replacements: seq<Replacement>, nameLower: string, fallback: int)
    ensures forall k ::
      (0 <= k < |replacements| && Decides(replacements[k], nameLower) &&
       forall j :: 0 <= j < k ==> !Decides(replacements[j], nameLower)) ==>
      MatchDuration(replacements, nameLower, fallback) == replacements[k].duration.value
    ensures (forall k :: 0 <= k < |replacements| ==> !Decides(replacements[k], nameLower)) ==>
      MatchDuration(replacements, nameLower, fallback) == fallback
    decreases |replacements|
  {
    if replacements != [] {
      var tail := replacements[1..];
      FirstMatchWins(tail, nameLower, fallback);
      assert forall k :: 1 <= k < |replacements| ==> replacements[k] == tail[k - 1];
    }
  }

  /** `determineMatchDuration` on the loaded configuration. */
  method DetermineMatchDuration(config: Config, competitionName: string) returns (duration: int)
    ensures duration == MatchDuration(config.competitionReplacements, ToLower(competitionName), Fallback(config))
  {
    var nameLower := ToLower(competitionName);
    var replacements := config.competitionReplacements;
    for i := 0 to |replacements|
      invariant MatchDuration(replacements[i..], nameLower, Fallback(config))
        == MatchDuration(replacements, nameLower, Fallback(config))
    {
      var replacement := replacements[i];
      assert replacements[i..][0] == replacement && replacements[i..][1..] == replacements[i + 1..];
      if IsSet(replacement.duration) && Contains(nameLower, ToLower(replacement.pattern)) {
        return replacement.duration.value;
      }
    }
    assert replacements[|replacements|..] == [];
    return Fallback(config);
  }

  // ------------------------------------------------------ one competition

  /** What is saved for a competition that has the club. */
  datatype CompetitionData = CompetitionData(
    name: string,
    fixtureUrl: string,
    competitionUrl: string,
    ladderUrl: string,
    matchDuration: int,
    scrapedAt: string)

  /**
   * `checkCompetition`. `page` is the competition page's anchors, `None` when
   * it fails to load; `visit` says what each ladder page shows; `scrapedAt`
   * is the ISO time stamp of the clock.
   */
  function CheckCompetition(config: Config, link: Link, page: Option<seq<Anchor>>, visit: Link -> LadderVisit,
                            scrapedAt: string): (r: Option<CompetitionData>)
    ensures r.Some? ==> page.Some? && r.value.competitionUrl == link.url && r.value.fixtureUrl != ""
    ensures r.Some? ==>
      exists ladder :: ladder in LadderLinks(page.value) && ladder.url == r.value.ladderUrl &&
        IsLadderLink(ladder) && visit(ladder) == ClubPresent(Some(r.value.fixtureUrl))
    ensures r.Some? ==> r.value.name == Normalize(link.text)
    ensures r.Some? ==>
      r.value.matchDuration == MatchDuration(config.competitionReplacements, ToLower(link.text), Fallback(config))
    ensures page.None? || (forall l :: l in LadderLinks(page.value) ==> !visit(l).ClubPresent?) ==> r.None?
  {
    if page.None? then None
    else
      var ladders := LadderLinks(page.value);
      match FirstClubLadder(ladders, visit)
      case None => None
      case Some((ladder, fixtureUrl)) =>
        assert ladder in ladders;
        Some(CompetitionData(Normalize(link.text), fixtureUrl, link.url, ladder.url,
          MatchDuration(config.competitionReplacements, ToLower(link.text), Fallback(config)), scrapedAt))
  }

  /**
   * The first ladder on which the club plays decides the outcome: its fixture
   * link, when it has one, gives the competition's record, and without one the
   * competition is skipped even if a later ladder lists the club.
   */
  lemma CheckCompetitionDecides(config: Config, link: Link, anchors: seq<Anchor>, visit: Link -> LadderVisit, scrapedAt: string, k: nat)
    requires k < |LadderLinks(anchors)| && visit(LadderLinks(anchors)[k]).ClubPresent?
    requires forall j :: 0 <= j < k ==> !visit(LadderLinks(anchors)[j]).ClubPresent?
    ensures var ladders := LadderLinks(anchors);
      var fixtureUrl := visit(ladders[k]).fixtureUrl;
      CheckCompetition(config, link, Some(anchors), visit, scrapedAt) ==
        if Truthy(fixtureUrl) then
          Some(CompetitionData(Normalize(link.text), fixtureUrl.value, link.url, ladders[k].url,
          MatchDuration(config.competitionReplacements, ToLower(link.text), Fallback(config)), scrapedAt))
        else None
  {
    FirstClubLadderDecides(LadderLinks(anchors), visit, k);
  }

  /** The checker a run uses: the competition pages by URL, the ladder visits, the configuration and the clock. */
  function Checker(config: Config, pages: string -> Option<seq<Anchor>>, visit: Link -> LadderVisit, scrapedAt: string)
    : Link -> Option<CompetitionData>
  {
    (link: Link) => CheckCompetition(config, link, pages(link.url), visit, scrapedAt)
  }

  // -------------------------------------------------------------- progress

  /** How many competitions a batch checks at once. */
  const MAX_CONCURRENT := 5


  /** The progress of a scrape, kept between runs so that an interrupted run resumes where it stopped. */
  class Progress {
    var processedLinks: set<string>
    var foundCompetitions: seq<CompetitionData>
    var totalLinksFound: nat
    var totalProcessed: nat
    var totalWithClub: nat

    /** `loadProgress` when there is no progress file yet (the time stamps left aside). */
    constructor ()
      ensures processedLinks == {} && foundCompetitions == []
      ensures totalLinksFound == 0 && totalProcessed == 0 && totalWithClub == 0
    {
      processedLinks := {};
      foundCompetitions := [];
      totalLinksFound := 0;
      totalProcessed := 0;
      totalWithClub := 0;
    }

    /** `saveCompetitionResult` (the files it writes left aside). */
    method SaveCompetitionResult(competitionData: Option<CompetitionData>)
      modifies this
      ensures totalProcessed == old(totalProcessed) + 1
      ensures competitionData.Some? ==>
        foundCompetitions == old(foundCompetitions) + [competitionData.value] && totalWithClub == old(totalWithClub) + 1
      ensures competitionData.None? ==>
        foundCompetitions == old(foundCompetitions) && totalWithClub == old(totalWithClub)
      ensures processedLinks == old(processedLinks) && totalLinksFound == old(totalLinksFound)
    {
      if competitionData.Some? {
        foundCompetitions := foundCompetitions + [competitionData.value];
        totalWithClub := totalWithClub + 1;
      }
      totalProcessed := totalProcessed + 1;
    }

    /**
     * One link of a batch: marked processed, and saved only when the club was
     * found there, so `totalProcessed` grows only with the competitions found.
     */
    method ProcessLink(link: Link, competitionData: Option<CompetitionData>)
      modifies this
      ensures processedLinks == old(processedLinks) + {link.url}
      ensures foundCompetitions == old(foundCompetitions) + Found([link], (l: Link) => competitionData)
      ensures totalWithClub == old(totalWithClub) + |Found([link], (l: Link) => competitionData)|
      ensures totalProcessed == old(totalProcessed) + |Found([link], (l: Link) => competitionData)|
      ensures totalLinksFound == old(totalLinksFound)
    {
      assert [link][..0] == [];
      processedLinks := processedLinks + {link.url};
      if competitionData.Some? {
        SaveCompetitionResult(competitionData);
      }
    }

    /** The links of one batch, one after the other. */
    method ProcessBatch(batch: seq<Link>, check: Link -> Option<CompetitionData>)
      modifies this
      ensures processedLinks == old(processedLinks) + UrlSet(batch)
      ensures foundCompetitions == old(foundCompetitions) + Found(batch, check)
      ensures totalWithClub == old(totalWithClub) + |Found(batch, check)|
      ensures totalProcessed == old(totalProcessed) + |Found(batch, check)|
      ensures totalLinksFound == old(totalLinksFound)
    {
      for j := 0 to |batch|
        invariant processedLinks == old(processedLinks) + UrlSet(batch[..j])
        invariant foundCompetitions == old(foundCompetitions) + Found(batch[..j], check)
        invariant totalWithClub == old(totalWithClub) + |Found(batch[..j], check)|
        invariant totalProcessed == old(totalProcessed) + |Found(batch[..j], check)|
        invariant totalLinksFound == old(totalLinksFound)
      {
        var link := batch[j];
        ProcessLink(link, check(link));
        BatchStep(batch, j, check);
      }
      assert batch[..|batch|] == batch;
    }

    /**
     * `processCompetitionsInParallel`, with the batches of `MAX_CONCURRENT`
     * links taken one after the other and the links of a batch in order.
     * Every pending link is marked processed, so nothing is pending after.
     */
    method ProcessCompetitionsInParallel(competitionLinks: seq<Link>, check: Link -> Option<CompetitionData>)
      modifies this
      ensures processedLinks == old(processedLinks) + UrlSet(Pending(competitionLinks, old(processedLinks)))
      ensures foundCompetitions == old(foundCompetitions) + Found(Pending(competitionLinks, old(processedLinks)), check)
      ensures totalWithClub == old(totalWithClub) + |Found(Pending(competitionLinks, old(processedLinks)), check)|
      ensures totalProcessed == old(totalProcessed) + |Found(Pending(competitionLinks, old(processedLinks)), check)|
      ensures totalLinksFound == old(totalLinksFound)
      ensures Pending(competitionLinks, processedLinks) == []
    {
      var pendingLinks := Pending(competitionLinks, processedLinks);
      NothingPendingAfter(competitionLinks, processedLinks);
      if |pendingLinks| == 0 {
        assert UrlSet(pendingLinks) == {};
        return;
      }
      var i := 0;
      while i < |pendingLinks|
        invariant 0 <= i
        invariant processedLinks == old(processedLinks) + UrlSet(pendingLinks[..Min(i, |pendingLinks|)])
        invariant foundCompetitions == old(foundCompetitions) + Found(pendingLinks[..Min(i, |pendingLinks|)], check)
        invariant totalWithClub == old(totalWithClub) + |Found(pendingLinks[..Min(i, |pendingLinks|)], check)|
        invariant totalProcessed == old(totalProcessed) + |Found(pendingLinks[..Min(i, |pendingLinks|)], check)|
        invariant totalLinksFound == old(totalLinksFound)
        decreases |pendingLinks| - i
      {
        var batch := pendingLinks[i..Min(i + MAX_CONCURRENT, |pendingLinks|)];
        BatchOfPending(pendingLinks, i, MAX_CONCURRENT, check);
        ProcessBatch(batch, check);
        Associative(old(foundCompetitions), Found(pendingLinks[..i], check), Found(batch, check));
        i := i + MAX_CONCURRENT;
      }
      assert pendingLinks[..|pendingLinks|] == pendingLinks;
    }

    /**
     * `scrapeCompetitions` once the progress is loaded: the links of the games
     * page (`anchors`) are counted on a fresh run only, then the pending ones
     * are checked against the pages they lead to.
     */
    method ScrapeCompetitions(config: Config, anchors: seq<Anchor>, pages: string -> Option<seq<Anchor>>,
                              visit: Link -> LadderVisit, scrapedAt: string)
      modifies this
      ensures totalLinksFound == if old(totalLinksFound) == 0 then |CompetitionLinks(anchors)| else old(totalLinksFound)
      ensures foundCompetitions == old(foundCompetitions) + Found(Pending(CompetitionLinks(anchors), old(processedLinks)), Checker(config, pages, visit, scrapedAt))
      ensures totalWithClub == old(totalWithClub) + |foundCompetitions| - |old(foundCompetitions)|
      ensures totalProcessed == old(totalProcessed) + |foundCompetitions| - |old(foundCompetitions)|
      ensures forall l :: l in CompetitionLinks(anchors) ==> l.url in processedLinks
    {
      var competitionLinks := GetCompetitionLinks(anchors);
      if totalLinksFound == 0 {
        totalLinksFound := |competitionLinks|;
      }
      ProcessCompetitionsInParallel(competitionLinks, Checker(config, pages, visit, scrapedAt));
      forall l | l in competitionLinks
        ensures l.url in processedLinks
      {
        PendingExact(competitionLinks, processedLinks, l);
      }
    }
  }

  // ------------------------------------------------------------ arguments

  datatype Options = Options(help: bool, useProgress: bool)

  predicate IsHelpFlag(arg: string) {
    arg == "--help" || arg == "-h"
  }

  predicate IsProgressFlag(arg: string) {
    arg == "--use-progress" || arg == "-p"
  }

  /** `parseArguments`: each option is set exactly when one of its spellings is among the arguments. */
  method ParseArguments(args: seq<string>) returns (options: Options)
    ensures options.help <==> exists k :: 0 <= k < |args| && IsHelpFlag(args[k])
    ensures options.useProgress <==> exists k :: 0 <= k < |args| && IsProgressFlag(args[k])
  {
    options := Options(false, false);
    for i := 0 to |args|
      invariant options.help <==> exists k :: 0 <= k < i && IsHelpFlag(args[k])
      invariant options.useProgress <==> exists k :: 0 <= k < i && IsProgressFlag(args[k])
    {
      var arg := args[i];
      if arg == "--help" || arg == "-h" {
        options := options.(help := true);
      } else if arg == "--use-progress" || arg == "-p" {
        options := options.(useProgress := true);
      }
    }
  }
}
