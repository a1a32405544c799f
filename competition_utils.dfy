/**
 * The competition helpers of src/lib/competition-utils.js: sorting the
 * competitions into the four categories by the keyword tables, splitting
 * them by whether a Google calendar is configured, counting, looking one up
 * by name and listing calendar ids.
 */
module CompetitionUtils {
  import opened Wrappers
  import opened Strings
  import opened Lists
  import opened Competitions

  // ================================================================ categories

  /** The keyword tables, in lower case, checked in this priority. */
  const MIDWEEK_TERMS: seq<string> := ["midweek", "35+", "t1", "t2", "t3", "t4", "masters", "wednesday", "tuesday", "monday", "thursday", "friday"]
  const JUNIOR_TERMS: seq<string> := ["u12", "u14", "u16", "u18", "under 12", "under 14", "under 16", "under 18", "mixed", "girls"]
  const WOMENS_TERMS: seq<string> := ["women's", "women ", "womens"]
  const MENS_TERMS: seq<string> := ["men's", "men ", "mens"]

  datatype Category = Mens | Womens | Midweek | Juniors

  /** `terms.some(term => name.includes(term))`. */
  predicate AnyTerm(name: string, terms: seq<string>) {
    exists k :: 0 <= k < |terms| && Contains(name, terms[k])
  }

  /** The category of a competition name: the first table, in priority order, with a term in the lower-cased name. */
  function CategoryOf(name: string): Option<Category> {
    var lower := ToLower(name);
    if AnyTerm(lower, MIDWEEK_TERMS) then Some(Midweek)
    else if AnyTerm(lower, JUNIOR_TERMS) then Some(Juniors)
    else if AnyTerm(lower, WOMENS_TERMS) then Some(Womens)
    else if AnyTerm(lower, MENS_TERMS) then Some(Mens)
    else None
  }

  /** The test that selects the competitions a categoriser puts in one category. */
  function Selects(categoryOf: string -> Option<Category>, category: Category): Competition -> bool {
    (c: Competition) => categoryOf(c.name) == Some(category)
  }

  /** The test that selects the competitions a categoriser puts in no category. */
  function Drops(categoryOf: string -> Option<Category>): Competition -> bool {
    (c: Competition) => categoryOf(c.name).None?
  }

  datatype Categories = Categories(
    mens: seq<Competition>,
    womens: seq<Competition>,
    midweek: seq<Competition>,
    juniors: seq<Competition>)
  {
    function Get(category: Category): seq<Competition> {
      match category
      case Mens => mens
      case Womens => womens
      case Midweek => midweek
      case Juniors => juniors
    }

    /** The object with `c` pushed onto the list of `category`. */
    function Push(category: Category, c: Competition): Categories {
      match category
      case Mens => this.(mens := mens + [c])
      case Womens => this.(womens := womens + [c])
      case Midweek => this.(midweek := midweek + [c])
      case Juniors => this.(juniors := juniors + [c])
    }
  }

  /** The categories after a loop that pushes each competition onto the list its category names. */
  function CategorizedBy(cs: seq<Competition>, categoryOf: string -> Option<Category>): Categories
    decreases |cs|
  {
    if cs == [] then Categories([], [], [], [])
    else
      var last := cs[|cs| - 1];
      var before := CategorizedBy(cs[..|cs| - 1], categoryOf);
      match categoryOf(last.name)
      case Some(category) => before.Push(category, last)
      case None => before
  }

  /** The categories after the loop of `categorizeCompetitions`. */
  function Categorized(cs: seq<Competition>): Categories {
    CategorizedBy(cs, CategoryOf)
  }

  method CategorizeCompetitions(competitions: seq<Competition>) returns (categories: Categories)
    ensures categories == Categorized(competitions)
  {
    categories := Categories([], [], [], []);
    for i := 0 to |competitions|
      invariant categories == CategorizedBy(competitions[..i], CategoryOf)
    {
      var competition := competitions[i];
      assert competitions[..i + 1][..i] == competitions[..i];
      var name := ToLower(competition.name);
      ghost var before := categories;
      if AnyTerm(name, MIDWEEK_TERMS) {
        categories := categories.(midweek := categories.midweek + [competition]);
      } else if AnyTerm(name, JUNIOR_TERMS) {
        categories := categories.(juniors := categories.juniors + [competition]);
      } else if AnyTerm(name, WOMENS_TERMS) {
        categories := categories.(womens := categories.womens + [competition]);
      } else if AnyTerm(name, MENS_TERMS) {
        categories := categories.(mens := categories.mens + [competition]);
      }
      assert categories == if CategoryOf(competition.name).Some? then before.Push(CategoryOf(competition.name).value, competition) else before;
    }
    assert competitions[..|competitions|] == competitions;
  }

  /**
   * Each category lists exactly the competitions whose name falls in it, in
   * input order: a competition is in at most one category, and in none when
   * its name matches no term.
   */
  lemma {:induction false} CategoriesAreFilters(cs: seq<Competition>, categoryOf: string -> Option<Category>, category: Category)
    ensures CategorizedBy(cs, categoryOf).Get(category) == Filter(cs, Selects(categoryOf, category))
    decreases |cs|
  {
    if cs != [] {
      var init := cs[..|cs| - 1];
      var last := cs[|cs| - 1];
      var p := Selects(categoryOf, category);
      CategoriesAreFilters(init, categoryOf, category);
      assert Filter(cs, p) == Filter(init, p) + (if p(last) then [last] else []);
      var before := CategorizedBy(init, categoryOf);
      match categoryOf(last.name)
      case Some(k) =>
        assert CategorizedBy(cs, categoryOf) == before.Push(k, last);
      case None =>
        assert CategorizedBy(cs, categoryOf) == before;
    }
  }

  /** The categorised competitions and the uncategorised ones together are all of them, once each. */
  lemma {:induction false} CategoriesCount(cs: seq<Competition>, categoryOf: string -> Option<Category>)
    ensures var cat := CategorizedBy(cs, categoryOf);
      |cat.mens| + |cat.womens| + |cat.midweek| + |cat.juniors| + |Filter(cs, Drops(categoryOf))| == |cs|
    decreases |cs|
  {
    if cs != [] {
      CategoriesCount(cs[..|cs| - 1], categoryOf);
    }
  }

  /** No competition is in two categories. */
  lemma AtMostOneCategory(cs: seq<Competition>, categoryOf: string -> Option<Category>, c: Competition, k1: Category, k2: Category)
    requires k1 != k2
    ensures !(c in CategorizedBy(cs, categoryOf).Get(k1) && c in CategorizedBy(cs, categoryOf).Get(k2))
  {
    CategoriesAreFilters(cs, categoryOf, k1);
    CategoriesAreFilters(cs, categoryOf, k2);
    FilterMembers(cs, Selects(categoryOf, k1), c);
    FilterMembers(cs, Selects(categoryOf, k2), c);
  }

  /**
   * A name with "women's" lands in womens although it also contains "men's",
   * unless a midweek or junior term comes first.
   */
  lemma WomensBeforeMens(name: string)
    requires Contains(ToLower(name), "women's")
    requires !AnyTerm(ToLower(name), MIDWEEK_TERMS) && !AnyTerm(ToLower(name), JUNIOR_TERMS)
    ensures CategoryOf(name) == Some(Womens)
  {
    assert WOMENS_TERMS[0] == "women's";
  }

  /** "women's" contains "men's": the mens table alone would claim women's competitions. */
  lemma WomensContainsMens()
    ensures Contains("women's", MENS_TERMS[0])
  {
    assert OccursAt("women's", "men's", 2);
    ContainsAt("women's", "men's", 2);
  }

  /** A midweek term decides the category whatever else the name holds. */
  lemma MidweekFirst(name: string, k: nat)
    requires k < |MIDWEEK_TERMS| && Contains(ToLower(name), MIDWEEK_TERMS[k])
    ensures CategoryOf(name) == Some(Midweek)
  {
  }

  // ================================================================= calendars

  function WithCalendars(cs: seq<Competition>): seq<Competition> {
    Filter(cs, HasCalendar)
  }

  /** `!comp.googleCalendar || !comp.googleCalendar.calendarId`. */
  predicate NoCalendar(c: Competition) {
    c.googleCalendar.None? || !Truthy(c.googleCalendar.value.calendarId)
  }

  function WithoutCalendars(cs: seq<Competition>): seq<Competition> {
    Filter(cs, NoCalendar)
  }

  /** The two filters split the competitions: every one lands in exactly one of them. */
  lemma CalendarPartition(cs: seq<Competition>)
    ensures |WithCalendars(cs)| + |WithoutCalendars(cs)| == |cs|
    ensures multiset(WithCalendars(cs)) + multiset(WithoutCalendars(cs)) == multiset(cs)
    ensures forall c :: c in WithCalendars(cs) ==> c !in WithoutCalendars(cs)
  {
    FilterPartition(cs, HasCalendar, NoCalendar);
    forall c | c in WithCalendars(cs) ensures c !in WithoutCalendars(cs) {
      FilterMembers(cs, HasCalendar, c);
      FilterMembers(cs, NoCalendar, c);
    }
  }

  datatype Stats = Stats(
    total: nat,
    withCalendars: nat,
    withoutCalendars: int,
    mens: nat,
    womens: nat,
    midweek: nat,
    juniors: nat)

  /** `getCompetitionStats`. */
  function CompetitionStats(cs: seq<Competition>): Stats {
    var categorized := Categorized(cs);
    var withCalendars := WithCalendars(cs);
    Stats(|cs|, |withCalendars|, |cs| - |withCalendars|,
      |categorized.mens|, |categorized.womens|, |categorized.midweek|, |categorized.juniors|)
  }

  /**
   * The count without calendars, computed as a difference, is the size of
   * the without-calendar list; the category counts add up to at most the total.
   */
  lemma StatsConsistent(cs: seq<Competition>)
    ensures var s := CompetitionStats(cs);
      s.withoutCalendars == |WithoutCalendars(cs)|
      && s.withCalendars + s.withoutCalendars == s.total
      && s.mens + s.womens + s.midweek + s.juniors <= s.total
  {
    CalendarPartition(cs);
    CategoriesCount(cs, CategoryOf);
  }

  // ==================================================================== lookups

  /** `findCompetitionByName`: the first competition whose name equals `name` up to ASCII case. */
  function FindCompetitionByName(cs: seq<Competition>, name: string): (r: Option<Competition>)
    ensures r.Some? ==> r.value in cs && ToLower(r.value.name) == ToLower(name)
    ensures r.Some? ==> exists k :: 0 <= k < |cs| && cs[k] == r.value
                                    && forall j :: 0 <= j < k ==> ToLower(cs[j].name) != ToLower(name)
    ensures r.None? ==> forall k :: 0 <= k < |cs| ==> ToLower(cs[k].name) != ToLower(name)
    decreases |cs|
  {
    if cs == [] then None
    else if ToLower(cs[0].name) == ToLower(name) then Some(cs[0])
    else
      var r := FindCompetitionByName(cs[1..], name);
      assert forall k :: 1 <= k < |cs| ==> cs[k] == cs[1..][k - 1];
      r
  }

  /** `extractCalendarIds`: the calendar id of each competition that has one, in order. */
  function ExtractCalendarIds(cs: seq<Competition>): (ids: seq<string>)
    ensures |ids| == |WithCalendars(cs)|
    ensures forall k :: 0 <= k < |ids| ==> ids[k] == WithCalendars(cs)[k].googleCalendar.value.calendarId.value
    decreases |cs|
  {
    if cs == [] then []
    else
      var last := cs[|cs| - 1];
      ExtractCalendarIds(cs[..|cs| - 1])
      + (if HasCalendar(last) then [last.googleCalendar.value.calendarId.value] else [])
  }
}
