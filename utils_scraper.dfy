/**
 * The first competition scraper (utils/competition-scraper.js), written for
 * Footscray Hockey Club: the same link handling and resumable progress as the
 * setup scraper, but the competition keeps its link text as its name, has no
 * match duration, and every competition checked is counted as processed.
 */
module UtilsScraper {
  import opened Wrappers
  import opened Lists
  import opened LinkScraping
  import opened Competitions

  /** What is saved for a competition that has the club. */
  datatype CompetitionData = CompetitionData(
    name: string,
    fixtureUrl: string,
    competitionUrl: string,
    ladderUrl: string,
    scrapedAt: string)

  /**
   * `checkCompetition`. `page` is the competition page's anchors, `None` when
   * it fails to load; `visit` says what each ladder page shows; `scrapedAt`
   * is the ISO time stamp of the clock.
   */
  function CheckCompetition(link: Link, page: Option<seq<Anchor>>, visit: Link -> LadderVisit, scrapedAt: string)
    : (r: Option<CompetitionData>)
    ensures r.Some? ==> page.Some? && r.value.competitionUrl == link.url && r.value.fixtureUrl != ""
    ensures r.Some? ==>
      exists ladder :: ladder in LadderLinks(page.value) && ladder.url == r.value.ladderUrl &&
        IsLadderLink(ladder) && visit(ladder) == ClubPresent(Some(r.value.fixtureUrl))
    ensures r.Some? ==> r.value.name == link.text
    ensures page.None? || (forall l :: l in LadderLinks(page.value) ==> !visit(l).ClubPresent?) ==> r.None?
  {
    if page.None? then None
    else
      var ladders := LadderLinks(page.value);
      match FirstClubLadder(ladders, visit)
      case None => None
      case Some((ladder, fixtureUrl)) =>
        assert ladder in ladders;
        Some(CompetitionData(link.text, fixtureUrl, link.url, ladder.url, scrapedAt))
  }

  /**
   * The first ladder on which the club plays decides the outcome: its fixture
   * link, when it has one, gives the competition's record, and without one the
   * competition is skipped even if a later ladder lists the club.
   */
  lemma CheckCompetitionDecides(link: Link, anchors: seq<Anchor>, visit: Link -> LadderVisit, scrapedAt: string, k: nat)
    requires k < |LadderLinks(anchors)| && visit(LadderLinks(anchors)[k]).ClubPresent?
    requires forall j :: 0 <= j < k ==> !visit(LadderLinks(anchors)[j]).ClubPresent?
    ensures var ladders := LadderLinks(anchors);
      var fixtureUrl := visit(ladders[k]).fixtureUrl;
      CheckCompetition(link, Some(anchors), visit, scrapedAt) ==
        if Truthy(fixtureUrl) then
          Some(CompetitionData(link.text, fixtureUrl.value, link.url, ladders[k].url, scrapedAt))
        else None
  {
    FirstClubLadderDecides(LadderLinks(anchors), visit, k);
  }

  /** The checker a run uses: the competition pages by URL, the ladder visits and the clock. */
  function Checker(pages: string -> Option<seq<Anchor>>, visit: Link -> LadderVisit, scrapedAt: string)
    : Link -> Option<CompetitionData>
  {
    (link: Link) => CheckCompetition(link, pages(link.url), visit, scrapedAt)
  }

  // -------------------------------------------------------------- progress

  /** How many competitions a batch checks at once. */
  const MAX_CONCURRENT := 5


  /** The progress of a scrape, kept between runs so that an interrupted run resumes where it stopped. */
  class Progress {
    var processedLinks: set<string>
    var foundCompetitions: seq<CompetitionData>
    var totalLinksFound: nat
    var totalProcessed: nat
    var totalWithFootscray: nat

    /** `loadProgress` when there is no progress file yet (the time stamps left aside). */
    constructor ()
      ensures processedLinks == {} && foundCompetitions == []
      ensures totalLinksFound == 0 && totalProcessed == 0 && totalWithFootscray == 0
    {
      processedLinks := {};
      foundCompetitions := [];
      totalLinksFound := 0;
      totalProcessed := 0;
      totalWithFootscray := 0;
    }

    /** `saveCompetitionResult` (the files it writes left aside). */
    method SaveCompetitionResult(competitionData: Option<CompetitionData>)
      modifies this
      ensures totalProcessed == old(totalProcessed) + 1
      ensures competitionData.Some? ==>
        foundCompetitions == old(foundCompetitions) + [competitionData.value] && totalWithFootscray == old(totalWithFootscray) + 1
      ensures competitionData.None? ==>
        foundCompetitions == old(foundCompetitions) && totalWithFootscray == old(totalWithFootscray)
      ensures processedLinks == old(processedLinks) && totalLinksFound == old(totalLinksFound)
    {
      if competitionData.Some? {
        foundCompetitions := foundCompetitions + [competitionData.value];
        totalWithFootscray := totalWithFootscray + 1;
      }
      totalProcessed := totalProcessed + 1;
    }

    /**
     * One link of a batch: marked processed and always passed to
     * `saveCompetitionResult`, so `totalProcessed` counts every link checked.
     */
    method ProcessLink(link: Link, competitionData: Option<CompetitionData>)
      modifies this
      ensures processedLinks == old(processedLinks) + {link.url}
      ensures foundCompetitions == old(foundCompetitions) + Found([link], (l: Link) => competitionData)
      ensures totalWithFootscray == old(totalWithFootscray) + |Found([link], (l: Link) => competitionData)|
      ensures totalProcessed == old(totalProcessed) + 1
      ensures totalLinksFound == old(totalLinksFound)
    {
      assert [link][..0] == [];
      processedLinks := processedLinks + {link.url};
      SaveCompetitionResult(competitionData);
    }

    /** The links of one batch, one after the other. */
    method ProcessBatch(batch: seq<Link>, check: Link -> Option<CompetitionData>)
      modifies this
      ensures processedLinks == old(processedLinks) + UrlSet(batch)
      ensures foundCompetitions == old(foundCompetitions) + Found(batch, check)
      ensures totalWithFootscray == old(totalWithFootscray) + |Found(batch, check)|
      ensures totalProcessed == old(totalProcessed) + |batch|
      ensures totalLinksFound == old(totalLinksFound)
    {
      for j := 0 to |batch|
        invariant processedLinks == old(processedLinks) + UrlSet(batch[..j])
        invariant foundCompetitions == old(foundCompetitions) + Found(batch[..j], check)
        invariant totalWithFootscray == old(totalWithFootscray) + |Found(batch[..j], check)|
        invariant totalProcessed == old(totalProcessed) + j
        invariant totalLinksFound == old(totalLinksFound)
      {
        var link := batch[j];
        ProcessLink(link, check(link));
        BatchStep(batch, j, check);
      }
      assert batch[..|batch|] == batch;
    }

    /**
     * `processCompetitionsInParallel`, with the batches of `MAX_CONCURRENT`
     * links taken one after the other and the links of a batch in order.
     * Every pending link is marked processed and counted, so nothing is
     * pending after.
     */
    method ProcessCompetitionsInParallel(competitionLinks: seq<Link>, check: Link -> Option<CompetitionData>)
      modifies this
      ensures processedLinks == old(processedLinks) + UrlSet(Pending(competitionLinks, old(processedLinks)))
      ensures foundCompetitions == old(foundCompetitions) + Found(Pending(competitionLinks, old(processedLinks)), check)
      ensures totalWithFootscray == old(totalWithFootscray) + |Found(Pending(competitionLinks, old(processedLinks)), check)|
      ensures totalProcessed == old(totalProcessed) + |Pending(competitionLinks, old(processedLinks))|
      ensures totalLinksFound == old(totalLinksFound)
      ensures Pending(competitionLinks, processedLinks) == []
    {
      var pendingLinks := Pending(competitionLinks, processedLinks);
      NothingPendingAfter(competitionLinks, processedLinks);
      if |pendingLinks| == 0 {
        assert UrlSet(pendingLinks) == {};
        return;
      }
      var i := 0;
      while i < |pendingLinks|
        invariant 0 <= i
        invariant processedLinks == old(processedLinks) + UrlSet(pendingLinks[..Min(i, |pendingLinks|)])
        invariant foundCompetitions == old(foundCompetitions) + Found(pendingLinks[..Min(i, |pendingLinks|)], check)
        invariant totalWithFootscray == old(totalWithFootscray) + |Found(pendingLinks[..Min(i, |pendingLinks|)], check)|
        invariant totalProcessed == old(totalProcessed) + Min(i, |pendingLinks|)
        invariant totalLinksFound == old(totalLinksFound)
        decreases |pendingLinks| - i
      {
        var batch := pendingLinks[i..Min(i + MAX_CONCURRENT, |pendingLinks|)];
        BatchOfPending(pendingLinks, i, MAX_CONCURRENT, check);
        ProcessBatch(batch, check);
        Associative(old(foundCompetitions), Found(pendingLinks[..i], check), Found(batch, check));
        i := i + MAX_CONCURRENT;
      }
      assert pendingLinks[..|pendingLinks|] == pendingLinks;
    }

    /**
     * `scrapeCompetitions` once the progress is loaded: the links of the games
     * page (`anchors`) are counted on a fresh run only, then the pending ones
     * are checked against the pages they lead to.
     */
    method ScrapeCompetitions(anchors: seq<Anchor>, pages: string -> Option<seq<Anchor>>,
                              visit: Link -> LadderVisit, scrapedAt: string)
      modifies this
      ensures totalLinksFound == if old(totalLinksFound) == 0 then |CompetitionLinks(anchors)| else old(totalLinksFound)
      ensures foundCompetitions == old(foundCompetitions) + Found(Pending(CompetitionLinks(anchors), old(processedLinks)), Checker(pages, visit, scrapedAt))
      ensures totalWithFootscray == old(totalWithFootscray) + |foundCompetitions| - |old(foundCompetitions)|
      ensures totalProcessed == old(totalProcessed) + |Pending(CompetitionLinks(anchors), old(processedLinks))|
      ensures forall l :: l in CompetitionLinks(anchors) ==> l.url in processedLinks
    {
      var competitionLinks := GetCompetitionLinks(anchors);
      if totalLinksFound == 0 {
        totalLinksFound := |competitionLinks|;
      }
      ProcessCompetitionsInParallel(competitionLinks, Checker(pages, visit, scrapedAt));
      forall l | l in competitionLinks
        ensures l.url in processedLinks
      {
        PendingExact(competitionLinks, processedLinks, l);
      }
    }
  }
}
