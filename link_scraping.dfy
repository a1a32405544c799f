/**
 * The link handling both competition scrapers share
 * (src/setup/competition-scraper.js and utils/competition-scraper.js, which
 * hold the same code): turning the anchors of a Hockey Victoria page into
 * absolute competition or ladder links, dropping duplicates, choosing the
 * links still to visit, and walking the ladders of a competition until one
 * shows the club.
 */
module LinkScraping {
  import opened Wrappers
  import opened Strings
  import opened Lists
  import opened Competitions

  /** An `<a>` element of the page: its `href` attribute, if any, and its `textContent`. */
  datatype Anchor = Anchor(href: Option<string>, content: string)

  /** A link the scraper keeps: absolute URL and trimmed text. */
  datatype Link = Link(url: string, text: string)

  /** The games page, the parent of every competition page. */
  const GAMES_URL := ORIGIN + "/games/"

  /** A site-relative `href` gets the site's origin in front. */
  function FullUrl(href: string): string {
    if StartsWith(href, "/") then ORIGIN + href else href
  }

  // ------------------------------------------------------------ harvesting

  /** The link an anchor yields when its `href` and trimmed text are both non-empty. */
  function LinkOf(a: Anchor): Option<Link> {
    if a.href.Some? && a.href.value != "" && Trim(a.content) != "" then Some(Link(FullUrl(a.href.value), Trim(a.content)))
    else None
  }

  /** The link of one anchor when the selector picks it and the link passes `keeps`; nothing otherwise. */
  function Yield(a: Anchor, selects: Anchor -> bool, keeps: Link -> bool): (r: seq<Link>)
    ensures r == [] || (LinkOf(a).Some? && r == [LinkOf(a).value] && keeps(r[0]))
    ensures selects(a) && LinkOf(a).Some? && keeps(LinkOf(a).value) ==> r == [LinkOf(a).value]
  {
    var link := LinkOf(a);
    if selects(a) && link.Some? && keeps(link.value) then [link.value] else []
  }

  /** The links, in page order, of the anchors a selector picks and whose link passes `keeps`. */
  function Harvest(anchors: seq<Anchor>, selects: Anchor -> bool, keeps: Link -> bool): seq<Link>
    decreases |anchors|
  {
    if anchors == [] then []
    else Harvest(anchors[..|anchors| - 1], selects, keeps) + Yield(anchors[|anchors| - 1], selects, keeps)
  }

  /** Every harvested link passes the filter; every picked anchor whose link passes is harvested. */
  lemma {:induction false} HarvestExact(anchors: seq<Anchor>, selects: Anchor -> bool, keeps: Link -> bool)
    ensures forall l :: l in Harvest(anchors, selects, keeps) ==> keeps(l)
    ensures forall k :: 0 <= k < |anchors| && selects(anchors[k]) && LinkOf(anchors[k]).Some? && keeps(LinkOf(anchors[k]).value) ==>
      LinkOf(anchors[k]).value in Harvest(anchors, selects, keeps)
    decreases |anchors|
  {
    if anchors != [] {
      var n := |anchors| - 1;
      var prefix := Harvest(anchors[..n], selects, keeps);
      var last := Yield(anchors[n], selects, keeps);
      HarvestExact(anchors[..n], selects, keeps);
      assert Harvest(anchors, selects, keeps) == prefix + last;
      forall k | 0 <= k < |anchors| && selects(anchors[k]) && LinkOf(anchors[k]).Some? && keeps(LinkOf(anchors[k]).value)
        ensures LinkOf(anchors[k]).value in Harvest(anchors, selects, keeps)
      {
        if k < n {
          assert anchors[..n][k] == anchors[k];
          assert LinkOf(anchors[k]).value in prefix;
        } else {
          assert k == n && LinkOf(anchors[n]).value in last;
        }
      }
    }
  }

  /** The loop that pushes each usable anchor's link onto `links`. */
  method HarvestLinks(init: seq<Link>, anchors: seq<Anchor>, selects: Anchor -> bool, keeps: Link -> bool)
    returns (links: seq<Link>)
    ensures links == init + Harvest(anchors, selects, keeps)
  {
    links := init;
    for i := 0 to |anchors|
      invariant links == init + Harvest(anchors[..i], selects, keeps)
    {
      var element := anchors[i];
      ghost var before := links;
      HarvestStep(anchors, i, selects, keeps);
      if selects(element) {
        var href := element.href;
        var text := Trim(element.content);
        if href.Some? && href.value != "" && text != "" {
          var fullUrl := FullUrl(href.value);
          if keeps(Link(fullUrl, text)) {
            links := links + [Link(fullUrl, text)];
          }
        }
      }
      assert links == before + Yield(element, selects, keeps);
      Associative(init, Harvest(anchors[..i], selects, keeps), Yield(element, selects, keeps));
    }
    assert anchors[..|anchors|] == anchors;
  }

  lemma HarvestStep(anchors: seq<Anchor>, i: nat, selects: Anchor -> bool, keeps: Link -> bool)
    requires i < |anchors|
    ensures Harvest(anchors[..i + 1], selects, keeps) == Harvest(anchors[..i], selects, keeps) + Yield(anchors[i], selects, keeps)
  {
    assert anchors[..i + 1][..i] == anchors[..i];
  }

  // ---------------------------------------------------------- duplicates

  /** `index === self.findIndex(l => l.url === link.url)`: no earlier link has the same URL. */
  predicate FirstOfUrl(links: seq<Link>, i: nat)
    requires i < |links|
  {
    forall j :: 0 <= j < i ==> links[j].url != links[i].url
  }

  /** The URLs of some links. */
  function UrlSet(links: seq<Link>): set<string> {
    set l | l in links :: l.url
  }

  lemma UrlSetAppend(a: seq<Link>, b: seq<Link>)
    ensures UrlSet(a + b) == UrlSet(a) + UrlSet(b)
  {
    assert forall l :: l in a + b <==> l in a || l in b;
  }

  /**
   * The duplicate filter: the links that are the first with their URL, in
   * order. The result has distinct URLs and still reaches every URL.
   */
  function Unique(links: seq<Link>): (r: seq<Link>)
    ensures forall i :: 0 <= i < |r| ==> r[i] in links
    ensures forall i, j :: 0 <= i < j < |r| ==> r[i].url != r[j].url
    ensures UrlSet(r) == UrlSet(links)
    decreases |links|
  {
    if links == [] then []
    else
      var n := |links| - 1;
      var prefix := Unique(links[..n]);
      var last := if FirstOfUrl(links, n) then [links[n]] else [];
      assert links == links[..n] + [links[n]];
      UrlSetAppend(links[..n], [links[n]]);
      UrlSetAppend(prefix, last);
      assert forall i :: 0 <= i < |prefix| ==> prefix[i] in links[..n];
      assert !FirstOfUrl(links, n) ==> links[n].url in UrlSet(links[..n]) by {
        if !FirstOfUrl(links, n) {
          var j :| 0 <= j < n && links[j].url == links[n].url;
          assert links[..n][j] in links[..n];
        }
      }
      prefix + last
  }

  /** One unfolding of the duplicate filter. */
  lemma UniqueUnfold(links: seq<Link>)
    requires links != []
    ensures Unique(links) == Unique(links[..|links| - 1])
      + (if FirstOfUrl(links, |links| - 1) then [links[|links| - 1]] else [])
  {
  }

  /** `l` is the link at `i`, and no earlier link has its URL. */
  predicate KeptAt(links: seq<Link>, i: int, l: Link) {
    0 <= i < |links| && links[i] == l && FirstOfUrl(links, i)
  }

  /** `l` is kept at some position of `links`. */
  predicate Kept(links: seq<Link>, l: Link) {
    exists i :: 0 <= i < |links| && KeptAt(links, i, l)
  }

  /** Positions before the last one mean the same in `links` and in its prefix. */
  lemma KeptInPrefix(links: seq<Link>, i: int, l: Link)
    requires 0 <= i < |links| - 1
    ensures KeptAt(links[..|links| - 1], i, l) <==> KeptAt(links, i, l)
  {
    assert forall j :: 0 <= j <= i ==> links[..|links| - 1][j] == links[j];
  }

  /** Every link the duplicate filter keeps is the first with its URL. */
  lemma {:induction false} UniqueKeepsOnlyFirst(links: seq<Link>)
    ensures forall k :: 0 <= k < |Unique(links)| ==> Kept(links, Unique(links)[k])
    decreases |links|
  {
    if links != [] {
      var n := |links| - 1;
      var p := Unique(links[..n]);
      UniqueUnfold(links);
      UniqueKeepsOnlyFirst(links[..n]);
      forall k | 0 <= k < |Unique(links)|
        ensures Kept(links, Unique(links)[k])
      {
        if k < |p| {
          assert Kept(links[..n], p[k]);
          var i :| 0 <= i < n && KeptAt(links[..n], i, p[k]);
          KeptInPrefix(links, i, p[k]);
          assert KeptAt(links, i, Unique(links)[k]);
        } else {
          assert KeptAt(links, n, Unique(links)[k]);
        }
      }
    } else {
      assert Unique(links) == [];
    }
  }

  /** Every link that is the first with its URL is kept. */
  lemma {:induction false} UniqueKeepsEveryFirst(links: seq<Link>)
    ensures forall i :: 0 <= i < |links| && FirstOfUrl(links, i) ==> links[i] in Unique(links)
    decreases |links|
  {
    if links != [] {
      var n := |links| - 1;
      var p := Unique(links[..n]);
      UniqueUnfold(links);
      UniqueKeepsEveryFirst(links[..n]);
      forall i | 0 <= i < |links| && FirstOfUrl(links, i)
        ensures links[i] in Unique(links)
      {
        if i < n {
          KeptInPrefix(links, i, links[i]);
          assert links[..n][i] == links[i];
          var j :| 0 <= j < |p| && p[j] == links[i];
          assert Unique(links)[j] == links[i];
        } else {
          assert i == n && FirstOfUrl(links, n);
          assert Unique(links) == p + [links[n]];
        }
      }
    }
  }

  /** Kept links appear in the order of their positions in the page. */
  lemma {:induction false} UniqueKeepsOrder(links: seq<Link>)
    ensures forall k1, k2, i1, i2 ::
      (0 <= k1 < k2 < |Unique(links)| && KeptAt(links, i1, Unique(links)[k1]) && KeptAt(links, i2, Unique(links)[k2]))
      ==> i1 < i2
    decreases |links|
  {
    if links != [] {
      var n := |links| - 1;
      var pre := links[..n];
      var p := Unique(pre);
      UniqueUnfold(links);
      var r := Unique(links);
      UniqueKeepsOrder(pre);
      // A link of `p` comes from `pre`, so it can only be kept before `n`.
      forall k, i | 0 <= k < |p| && KeptAt(links, i, p[k])
        ensures i < n
      {
        if i == n {
          assert false;
        }
      }
      forall k1, k2, i1, i2 |
        0 <= k1 < k2 < |r| && KeptAt(links, i1, r[k1]) && KeptAt(links, i2, r[k2])
        ensures i1 < i2
      {
        assert i1 < n;
        if k2 < |p| {
          KeptInPrefix(links, i1, p[k1]);
          KeptInPrefix(links, i2, p[k2]);
        }
      }
    }
  }

  // ------------------------------------------------------------ the pages

  /** `a[href*="/games/"]`. */
  predicate GamesAnchor(a: Anchor) {
    a.href.Some? && Contains(a.href.value, "/games/")
  }

  /** Link text naming a download or statistics page, in any case. */
  predicate IsExcluded(text: string) {
    Contains(ToLower(text), "download") || Contains(ToLower(text), "statistics")
  }

  /** A page strictly below the games page, with a text that is not excluded. */
  predicate IsCompetitionLink(link: Link) {
    Contains(link.url, "/games/") && link.url != GAMES_URL && |link.url| > |GAMES_URL| && !IsExcluded(link.text)
  }

  /** The competition links of the games page, without duplicates. */
  function CompetitionLinks(anchors: seq<Anchor>): (r: seq<Link>)
    ensures forall l :: l in r ==> IsCompetitionLink(l)
    ensures forall i, j :: 0 <= i < j < |r| ==> r[i].url != r[j].url
  {
    HarvestExact(anchors, GamesAnchor, IsCompetitionLink);
    Unique(Harvest(anchors, GamesAnchor, IsCompetitionLink))
  }

  /** `getCompetitionLinks`, the loop that computes `CompetitionLinks`. */
  method GetCompetitionLinks(anchors: seq<Anchor>) returns (unique: seq<Link>)
    ensures unique == CompetitionLinks(anchors)
    ensures forall l :: l in unique ==> IsCompetitionLink(l)
    ensures forall i, j :: 0 <= i < j < |unique| ==> unique[i].url != unique[j].url
  {
    var links := HarvestLinks([], anchors, GamesAnchor, IsCompetitionLink);
    ghost var harvest := Harvest(anchors, GamesAnchor, IsCompetitionLink);
    assert links == harvest by {
      assert [] + harvest == harvest;
    }
    HarvestExact(anchors, GamesAnchor, IsCompetitionLink);
    unique := Unique(links);
  }

  /** How `getLadderLinks` picks anchors: by `href` or by lower-cased text. */
  datatype Selector = HrefContains(part: string) | TextContains(lowered: string)

  /** `a[href*="/pointscore/"]`, then the anchors whose text mentions "View ladder", "Ladder" or "Points". */
  const LADDER_SELECTORS: seq<Selector> :=
    [HrefContains("/pointscore/"), TextContains("view ladder"), TextContains("ladder"), TextContains("points")]

  function Picks(selector: Selector): Anchor -> bool {
    match selector
    case HrefContains(part) => (a: Anchor) => a.href.Some? && Contains(a.href.value, part)
    case TextContains(lowered) => (a: Anchor) => Contains(ToLower(a.content), lowered)
  }

  predicate IsLadderLink(link: Link) {
    Contains(link.url, "/pointscore/")
  }

  /** The ladder links each selector yields, selector after selector. */
  function LadderCandidates(selectors: seq<Selector>, anchors: seq<Anchor>): seq<Link>
    decreases |selectors|
  {
    if selectors == [] then []
    else
      var n := |selectors| - 1;
      LadderCandidates(selectors[..n], anchors) + Harvest(anchors, Picks(selectors[n]), IsLadderLink)
  }

  lemma {:induction false} LadderCandidatesAreLadders(selectors: seq<Selector>, anchors: seq<Anchor>)
    ensures forall l :: l in LadderCandidates(selectors, anchors) ==> IsLadderLink(l)
    decreases |selectors|
  {
    if selectors != [] {
      var n := |selectors| - 1;
      LadderCandidatesAreLadders(selectors[..n], anchors);
      HarvestExact(anchors, Picks(selectors[n]), IsLadderLink);
    }
  }

  /** The pointscore links of a competition page, without duplicates. */
  function LadderLinks(anchors: seq<Anchor>): (r: seq<Link>)
    ensures forall l :: l in r ==> IsLadderLink(l)
    ensures forall i, j :: 0 <= i < j < |r| ==> r[i].url != r[j].url
  {
    LadderCandidatesAreLadders(LADDER_SELECTORS, anchors);
    Unique(LadderCandidates(LADDER_SELECTORS, anchors))
  }

  /** `getLadderLinks`, the loops that compute `LadderLinks`. */
  method GetLadderLinks(anchors: seq<Anchor>) returns (unique: seq<Link>)
    ensures unique == LadderLinks(anchors)
    ensures forall l :: l in unique ==> IsLadderLink(l)
    ensures forall i, j :: 0 <= i < j < |unique| ==> unique[i].url != unique[j].url
  {
    var links := [];
    for s := 0 to |LADDER_SELECTORS|
      invariant links == LadderCandidates(LADDER_SELECTORS[..s], anchors)
    {
      assert LADDER_SELECTORS[..s + 1][..s] == LADDER_SELECTORS[..s];
      links := HarvestLinks(links, anchors, Picks(LADDER_SELECTORS[s]), IsLadderLink);
    }
    assert LADDER_SELECTORS[..|LADDER_SELECTORS|] == LADDER_SELECTORS;
    LadderCandidatesAreLadders(LADDER_SELECTORS, anchors);
    unique := Unique(links);
  }

  // -------------------------------------------------------------- resuming

  function NotIn(processedLinks: set<string>): Link -> bool {
    (link: Link) => link.url !in processedLinks
  }

  /** `pendingLinks`: the links not yet processed, in order. */
  function Pending(links: seq<Link>, processedLinks: set<string>): seq<Link> {
    Filter(links, NotIn(processedLinks))
  }

  /** A link is pending exactly when it is one of the links and its URL is not processed. */
  lemma PendingExact(links: seq<Link>, processedLinks: set<string>, link: Link)
    ensures link in Pending(links, processedLinks) <==> link in links && link.url !in processedLinks
  {
    FilterMembers(links, NotIn(processedLinks), link);
  }

  /** Once the pending links are marked processed, a resumed run has nothing left to do. */
  lemma NothingPendingAfter(links: seq<Link>, processedLinks: set<string>)
    ensures Pending(links, processedLinks + UrlSet(Pending(links, processedLinks))) == []
  {
    var pending := Pending(links, processedLinks);
    var after := processedLinks + UrlSet(pending);
    forall l | l in links
      ensures !NotIn(after)(l)
    {
      PendingExact(links, processedLinks, l);
    }
    FilterExtremes(links, NotIn(after));
  }

  /** What checking the links found, in order: the data of each link whose check returned some. */
  function Found<D>(links: seq<Link>, check: Link -> Option<D>): seq<D>
    decreases |links|
  {
    if links == [] then []
    else
      var data := check(links[|links| - 1]);
      Found(links[..|links| - 1], check) + (if data.Some? then [data.value] else [])
  }

  lemma {:induction false} FoundAppend<D>(a: seq<Link>, b: seq<Link>, check: Link -> Option<D>)
    ensures Found(a + b, check) == Found(a, check) + Found(b, check)
    decreases |b|
  {
    if b == [] {
      assert a + b == a;
    } else {
      var n := |b| - 1;
      assert (a + b)[..|a + b| - 1] == a + b[..n];
      assert (a + b)[|a + b| - 1] == b[n];
      FoundAppend(a, b[..n], check);
    }
  }

  // --------------------------------------------------------------- batches

  function Min(a: int, b: int): int {
    if a < b then a else b
  }

  /** The batch of `size` links starting at `i` extends the links done before it. */
  lemma BatchOfPending<D>(pendingLinks: seq<Link>, i: nat, size: nat, check: Link -> Option<D>)
    requires i < |pendingLinks|
    ensures Min(i, |pendingLinks|) == i
    ensures var batch := pendingLinks[i..Min(i + size, |pendingLinks|)];
      var after := pendingLinks[..Min(i + size, |pendingLinks|)];
      UrlSet(after) == UrlSet(pendingLinks[..i]) + UrlSet(batch) &&
      Found(after, check) == Found(pendingLinks[..i], check) + Found(batch, check)
  {
    var batch := pendingLinks[i..Min(i + size, |pendingLinks|)];
    assert pendingLinks[..Min(i + size, |pendingLinks|)] == pendingLinks[..i] + batch;
    FoundAppend(pendingLinks[..i], batch, check);
    UrlSetAppend(pendingLinks[..i], batch);
  }

  /** One more link of a batch extends the links done before it. */
  lemma BatchStep<D>(batch: seq<Link>, j: nat, check: Link -> Option<D>)
    requires j < |batch|
    ensures UrlSet(batch[..j + 1]) == UrlSet(batch[..j]) + {batch[j].url}
    ensures Found(batch[..j + 1], check) == Found(batch[..j], check) + Found([batch[j]], (l: Link) => check(batch[j]))
  {
    assert batch[..j + 1] == batch[..j] + [batch[j]];
    UrlSetAppend(batch[..j], [batch[j]]);
    assert [batch[j]][..0] == [];
  }

  // --------------------------------------------------------------- ladders

  /** What visiting one ladder page found: it failed to load, lacked the club, or showed it with a team link or none. */
  datatype LadderVisit = VisitFailed | ClubAbsent | ClubPresent(fixtureUrl: Option<string>)

  /**
   * The ladder loop of `checkCompetition`: the first ladder that shows the
   * club decides. With a team link it yields that ladder and the fixture URL;
   * without one the competition is not saved, and later ladders are not tried.
   */
  function FirstClubLadder(ladders: seq<Link>, visit: Link -> LadderVisit): (r: Option<(Link, string)>)
    ensures r.Some? ==>
      exists k :: 0 <= k < |ladders| && ladders[k] == r.value.0 &&
        visit(ladders[k]) == ClubPresent(Some(r.value.1)) && r.value.1 != "" &&
        forall j :: 0 <= j < k ==> !visit(ladders[j]).ClubPresent?
    ensures (forall k :: 0 <= k < |ladders| ==> !visit(ladders[k]).ClubPresent?) ==> r.None?
    decreases |ladders|
  {
    if ladders == [] then None
    else
      match visit(ladders[0])
      case ClubPresent(fixtureUrl) =>
        if Truthy(fixtureUrl) then Some((ladders[0], fixtureUrl.value)) else None
      case _ =>
        var r := FirstClubLadder(ladders[1..], visit);
        assert forall k :: 1 <= k < |ladders| ==> ladders[k] == ladders[1..][k - 1];
        r
  }

  /**
   * The converse: when the ladder at `k` is the first to show the club, it
   * decides. With a non-empty team link the result is that ladder and link;
   * without one there is no result.
   */
  lemma {:induction false} FirstClubLadderDecides(ladders: seq<Link>, visit: Link -> LadderVisit, k: nat)
    requires k < |ladders| && visit(ladders[k]).ClubPresent?
    requires forall j :: 0 <= j < k ==> !visit(ladders[j]).ClubPresent?
    ensures var fixtureUrl := visit(ladders[k]).fixtureUrl;
      FirstClubLadder(ladders, visit) == if Truthy(fixtureUrl) then Some((ladders[k], fixtureUrl.value)) else None
    decreases k
  {
    if k > 0 {
      assert !visit(ladders[0]).ClubPresent?;
      assert forall j :: 0 <= j < k - 1 ==> ladders[1..][j] == ladders[j + 1];
      FirstClubLadderDecides(ladders[1..], visit, k - 1);
    }
  }
}
