/**
 * The iCalendar transcoder of src/tasks/calendar-processor.js: it reads the
 * events of a downloaded team fixture, rewrites their summaries through the
 * club, competition and round tables, gives each a description with fixture,
 * ladder and round links, and writes a new calendar whose times are Melbourne
 * wall-clock times with a fixed VTIMEZONE block (RFC 5545, sections 3.3.5 and
 * 3.6.5). Lines end in a bare line feed, as the program writes them.
 */
module CalendarProcessor {
  import opened Wrappers
  import opened Strings
  import opened Competitions
  import opened CalendarDownloader
  import opened ICal

  // ==================================================================== scanning

  /**
   * The leftmost position at or after `from` where the matcher `m` succeeds, and
   * what it captured there: how `String.prototype.match` finds a match.
   */
  function FirstMatch<T>(s: string, m: (string, nat) -> Option<T>, from: nat): (r: Option<(nat, T)>)
    requires from <= |s|
    ensures r.Some? ==>
      from <= r.value.0 < |s| && m(s, r.value.0) == Some(r.value.1)
      && forall j :: from <= j < r.value.0 ==> m(s, j).None?
    ensures r.None? ==> forall j :: from <= j < |s| ==> m(s, j).None?
    decreases |s| - from
  {
    if from == |s| then None
    else
      match m(s, from)
      case Some(v) => Some((from, v))
      case None => FirstMatch(s, m, from + 1)
  }

  // ================================================================ round tokens

  /** The character at `i` is `c` (a lower-case letter) in either case. */
  predicate LowerAt(s: string, i: nat, c: char) {
    i < |s| && Lower(s[i]) == c
  }

  /** `Round` in any case at `i`. */
  predicate RoundWordAt(s: string, i: nat) {
    LowerAt(s, i, 'r') && LowerAt(s, i + 1, 'o') && LowerAt(s, i + 2, 'u') && LowerAt(s, i + 3, 'n') && LowerAt(s, i + 4, 'd')
  }

  /** `Rd` in any case at `i`. */
  predicate RdAt(s: string, i: nat) {
    LowerAt(s, i, 'r') && LowerAt(s, i + 1, 'd')
  }

  /** `\s*(\d+)` read greedily from `j`: the captured digits, if there are any. */
  function DigitsAfter(s: string, j: nat): (d: Option<string>)
    requires j <= |s|
    ensures d.Some? ==> d.value != [] && IsDigits(d.value)
  {
    var k := j + Run(s[j..], IsSpace);
    var n := Run(s[k..], IsDigit);
    if n == 0 then None
    else
      assert forall i :: 0 <= i < n ==> s[k..k + n][i] == s[k..][i];
      Some(s[k..k + n])
  }

  /**
   * `/(?:Round|R|Rd)\s*(\d+)/i` tried at position `i`: the alternatives in the
   * order written, each followed by optional white space and a digit run.
   */
  function RoundAt(s: string, i: nat): (d: Option<string>)
    ensures d.Some? ==> d.value != [] && IsDigits(d.value)
  {
    if RoundWordAt(s, i) && DigitsAfter(s, i + 5).Some? then DigitsAfter(s, i + 5)
    else if LowerAt(s, i, 'r') && DigitsAfter(s, i + 1).Some? then DigitsAfter(s, i + 1)
    else if RdAt(s, i) then DigitsAfter(s, i + 2)
    else None
  }

  /** `kw` (lower case) written at `i` in any ASCII case. */
  ghost predicate KeywordAt(s: string, i: nat, kw: string) {
    i + |kw| <= |s| && forall k :: i <= k < i + |kw| ==> Lower(s[k]) == kw[k - i]
  }

  /** `\s*(\d+)` as the regular expression reads it from `j`: white space `gap`, then digits `d` up to a non-digit. */
  ghost predicate SpacedDigits(s: string, j: nat, gap: string, d: string) {
    j + |gap| + |d| <= |s|
    && s[j..j + |gap|] == gap && (forall k :: 0 <= k < |gap| ==> IsSpace(gap[k]))
    && s[j + |gap|..j + |gap| + |d|] == d && d != [] && IsDigits(d)
    && (j + |gap| + |d| == |s| || !IsDigit(s[j + |gap| + |d|]))
  }

  /**
   * The round token as the regular expression describes it: at `i` one of the
   * keywords in any case, then white space and a digit run.
   */
  ghost predicate IsRoundToken(s: string, i: nat, kw: string, gap: string, d: string) {
    (kw == "round" || kw == "r" || kw == "rd") && KeywordAt(s, i, kw) && SpacedDigits(s, i + |kw|, gap, d)
  }

  lemma RoundKeyword(s: string, i: nat)
    ensures KeywordAt(s, i, "round") <==> RoundWordAt(s, i)
  {
    if KeywordAt(s, i, "round") {
      assert Lower(s[i]) == "round"[0];
      assert Lower(s[i + 1]) == "round"[1];
      assert Lower(s[i + 2]) == "round"[2];
      assert Lower(s[i + 3]) == "round"[3];
      assert Lower(s[i + 4]) == "round"[4];
    }
  }
  lemma RKeyword(s: string, i: nat)
    ensures KeywordAt(s, i, "r") <==> LowerAt(s, i, 'r')
  {
    if KeywordAt(s, i, "r") {
      assert Lower(s[i]) == "r"[0];
    }
  }

  lemma RdKeyword(s: string, i: nat)
    ensures KeywordAt(s, i, "rd") <==> RdAt(s, i)
  {
    if KeywordAt(s, i, "rd") {
      assert Lower(s[i]) == "rd"[0];
      assert Lower(s[i + 1]) == "rd"[1];
    }
  }

  /** Digits after white space read from `j` are exactly what `DigitsAfter` captures. */
  lemma DigitsAfterToken(s: string, j: nat, gap: string, d: string)
    requires SpacedDigits(s, j, gap, d)
    ensures DigitsAfter(s, j) == Some(d)
  {
    SpacedDigitsRuns(s, j, gap, d);
    DigitsAfterFromRuns(s, j, |gap|, |d|);
  }

  lemma SpacedDigitsRuns(s: string, j: nat, gap: string, d: string)
    requires SpacedDigits(s, j, gap, d)
    ensures Run(s[j..], IsSpace) == |gap| && Run(s[j + |gap|..], IsDigit) == |d|
    ensures s[j + |gap|..j + |gap| + |d|] == d
  {
    var k := j + |gap|;
    assert s[j..] == gap + s[k..];
    assert s[k..][0] == d[0];
    RunOf(gap, s[k..], IsSpace);
    assert s[k..] == d + s[k + |d|..];
    RunOf(d, s[k + |d|..], IsDigit);
  }

  lemma DigitsAfterFromRuns(s: string, j: nat, n: nat, m: nat)
    requires j <= |s| && Run(s[j..], IsSpace) == n && Run(s[j + n..], IsDigit) == m > 0
    ensures DigitsAfter(s, j) == Some(s[j + n..j + n + m])
  {
  }

  lemma TokenOfDigitsAfter(s: string, j: nat, d: string)
    requires j <= |s| && DigitsAfter(s, j) == Some(d)
    ensures exists gap :: SpacedDigits(s, j, gap, d)
  {
    var n := Run(s[j..], IsSpace);
    var gap := s[j..j + n];
    assert forall k :: 0 <= k < n ==> gap[k] == s[j..][k];
    var m := Run(s[j + n..], IsDigit);
    assert j + n + m < |s| ==> s[j + n..][m] == s[j + n + m];
    assert SpacedDigits(s, j, gap, d);
  }

  /** `RoundAt` captures `d` at `i` exactly when a round token with digits `d` starts there. */
  lemma RoundAtIsToken(s: string, i: nat, d: string)
    ensures RoundAt(s, i) == Some(d) <==> exists kw, gap :: IsRoundToken(s, i, kw, gap, d)
  {
    if RoundAt(s, i) == Some(d) {
      RoundAtGivesToken(s, i, d);
    }
    if exists kw, gap :: IsRoundToken(s, i, kw, gap, d) {
      var kw, gap :| IsRoundToken(s, i, kw, gap, d);
      TokenGivesRound(s, i, kw, gap, d);
    }
  }

  lemma RoundAtGivesToken(s: string, i: nat, d: string)
    requires RoundAt(s, i) == Some(d)
    ensures exists kw, gap :: IsRoundToken(s, i, kw, gap, d)
  {
    if RoundWordAt(s, i) && DigitsAfter(s, i + 5).Some? {
      RoundWordToken(s, i, d);
    } else if LowerAt(s, i, 'r') && DigitsAfter(s, i + 1).Some? {
      RToken(s, i, d);
    } else {
      RdToken(s, i, d);
    }
  }

  lemma RoundWordToken(s: string, i: nat, d: string)
    requires RoundWordAt(s, i) && DigitsAfter(s, i + 5) == Some(d)
    ensures exists gap :: IsRoundToken(s, i, "round", gap, d)
  {
    RoundKeyword(s, i);
    TokenOfKeyword(s, i, "round", d);
  }

  lemma RToken(s: string, i: nat, d: string)
    requires LowerAt(s, i, 'r') && DigitsAfter(s, i + 1) == Some(d)
    ensures exists gap :: IsRoundToken(s, i, "r", gap, d)
  {
    RKeyword(s, i);
    TokenOfKeyword(s, i, "r", d);
  }

  lemma RdToken(s: string, i: nat, d: string)
    requires RdAt(s, i) && DigitsAfter(s, i + 2) == Some(d)
    ensures exists gap :: IsRoundToken(s, i, "rd", gap, d)
  {
    RdKeyword(s, i);
    TokenOfKeyword(s, i, "rd", d);
  }

  lemma TokenOfKeyword(s: string, i: nat, kw: string, d: string)
    requires kw == "round" || kw == "r" || kw == "rd"
    requires KeywordAt(s, i, kw) && DigitsAfter(s, i + |kw|) == Some(d)
    ensures exists gap :: IsRoundToken(s, i, kw, gap, d)
  {
    TokenOfDigitsAfter(s, i + |kw|, d);
    var gap :| SpacedDigits(s, i + |kw|, gap, d);
    assert IsRoundToken(s, i, kw, gap, d);
  }

  lemma TokenGivesRound(s: string, i: nat, kw: string, gap: string, d: string)
    requires IsRoundToken(s, i, kw, gap, d)
    ensures RoundAt(s, i) == Some(d)
  {
    if kw == "round" {
      RoundWordGivesRound(s, i, gap, d);
    } else if kw == "r" {
      RGivesRound(s, i, gap, d);
    } else {
      RdGivesRound(s, i, gap, d);
    }
  }

  lemma RoundWordGivesRound(s: string, i: nat, gap: string, d: string)
    requires KeywordAt(s, i, "round") && SpacedDigits(s, i + 5, gap, d)
    ensures RoundAt(s, i) == Some(d)
  {
    DigitsAfterToken(s, i + 5, gap, d);
    RoundKeyword(s, i);
    RoundAtRound(s, i, d);
  }

  lemma RGivesRound(s: string, i: nat, gap: string, d: string)
    requires KeywordAt(s, i, "r") && SpacedDigits(s, i + 1, gap, d)
    ensures RoundAt(s, i) == Some(d)
  {
    DigitsAfterToken(s, i + 1, gap, d);
    RKeyword(s, i);
    NotRoundAfterR(s, i, gap, d);
    RoundAtR(s, i, d);
  }

  lemma RdGivesRound(s: string, i: nat, gap: string, d: string)
    requires KeywordAt(s, i, "rd") && SpacedDigits(s, i + 2, gap, d)
    ensures RoundAt(s, i) == Some(d)
  {
    DigitsAfterToken(s, i + 2, gap, d);
    RdKeyword(s, i);
    NotRoundAfterRd(s, i);
    RoundAtRd(s, i, d);
  }

  lemma RoundAtRound(s: string, i: nat, d: string)
    requires RoundWordAt(s, i) && DigitsAfter(s, i + 5) == Some(d)
    ensures RoundAt(s, i) == Some(d)
  {
  }

  lemma RoundAtR(s: string, i: nat, d: string)
    requires !RoundWordAt(s, i) && LowerAt(s, i, 'r') && DigitsAfter(s, i + 1) == Some(d)
    ensures RoundAt(s, i) == Some(d)
  {
  }

  lemma RoundAtRd(s: string, i: nat, d: string)
    requires RdAt(s, i) && !RoundWordAt(s, i) && DigitsAfter(s, i + 1).None? && DigitsAfter(s, i + 2) == Some(d)
    ensures RoundAt(s, i) == Some(d)
  {
  }

  /** After `r` come white space or a digit, never the `o` of `round`. */
  lemma NotRoundAfterR(s: string, i: nat, gap: string, d: string)
    requires SpacedDigits(s, i + 1, gap, d)
    ensures !RoundWordAt(s, i)
  {
    var j := i + 1;
    if gap != [] {
      assert s[j] == s[j..j + |gap|][0];
    } else {
      assert s[j] == s[j..j + |d|][0];
    }
  }

  /** After `rd` the `r` alternative finds no digits and `round` does not fit. */
  lemma NotRoundAfterRd(s: string, i: nat)
    requires RdAt(s, i)
    ensures !RoundWordAt(s, i) && DigitsAfter(s, i + 1).None?
  {
    assert s[i + 1..][0] == s[i + 1];
  }

  /** A position that does not hold an `r` or `R` starts no round token. */
  lemma NoRoundWithoutR(s: string, i: nat)
    requires !LowerAt(s, i, 'r')
    ensures RoundAt(s, i).None?
  {
  }

  // =============================================================== round numbers

  const FINALS_ORDER: seq<string> := ["Elimination Final", "Semi Final", "Preliminary Final", "Grand Final"]

  /** The summary names one of the finals (ignoring ASCII case). */
  predicate NamesFinal(summary: string) {
    exists f :: f in FINALS_ORDER && Contains(ToLower(summary), ToLower(f))
  }

  /**
   * `extractRoundFromSummary`: the number after the leftmost round token. A
   * summary without one has no number, whether or not it names a final.
   */
  function ExtractRoundFromSummary(summary: string): Option<nat> {
    match FirstMatch(summary, RoundAt, 0)
    case Some((_, digits)) => Some(ParseDigits(digits))
    case None =>
      // extractRoundFromSummary then looks for the names of the finals, but answers null
      // whether it finds one or not: finals get no round link.
      None
  }

  /**
   * The round number is read from the leftmost position where a round token
   * starts, and there is none exactly when no position starts one.
   */
  lemma ExtractRoundIsLeftmost(summary: string)
    ensures ExtractRoundFromSummary(summary).None? <==> forall j :: 0 <= j < |summary| ==> RoundAt(summary, j).None?
    ensures ExtractRoundFromSummary(summary).Some? ==>
      exists k :: 0 <= k < |summary| && RoundAt(summary, k).Some?
        && (forall j :: 0 <= j < k ==> RoundAt(summary, j).None?)
        && ExtractRoundFromSummary(summary).value == ParseDigits(RoundAt(summary, k).value)
  {
    var m := FirstMatch(summary, RoundAt, 0);
    if m.Some? {
      assert RoundAt(summary, m.value.0).Some?;
    }
  }

  /** The round number of a parsed component: an event whose summary holds a round token. */
  function EventRound(c: Component): Option<nat> {
    if c.isEvent && Truthy(c.summary) then ExtractRoundFromSummary(c.summary.value) else None
  }

  /** The largest `value` over `xs`, 0 for none. */
  function MaxOf<T>(xs: seq<T>, value: T -> nat): nat {
    if xs == [] then 0
    else
      var m := MaxOf(xs[..|xs| - 1], value);
      var v := value(xs[|xs| - 1]);
      if m >= v then m else v
  }

  /** `MaxOf` bounds every value and is one of them, or 0. */
  lemma {:induction false} MaxOfIsMaximum<T>(xs: seq<T>, value: T -> nat)
    ensures forall k :: 0 <= k < |xs| ==> value(xs[k]) <= MaxOf(xs, value)
    ensures MaxOf(xs, value) == 0 || exists k :: 0 <= k < |xs| && value(xs[k]) == MaxOf(xs, value)
  {
    if xs != [] {
      var n := |xs| - 1;
      var init := xs[..n];
      MaxOfIsMaximum(init, value);
      assert forall k :: 0 <= k < n ==> init[k] == xs[k];
      if MaxOf(xs, value) != 0 && MaxOf(xs, value) == MaxOf(init, value) {
        var k :| 0 <= k < n && value(init[k]) == MaxOf(init, value);
        assert value(xs[k]) == MaxOf(xs, value);
      }
    }
  }

  lemma MaxOfStep<T>(xs: seq<T>, value: T -> nat, i: nat)
    requires i < |xs|
    ensures MaxOf(xs[..i + 1], value) ==
      var m := MaxOf(xs[..i], value);
      if m >= value(xs[i]) then m else value(xs[i])
  {
    assert xs[..i + 1][..i] == xs[..i];
  }

  /** The round number of a component, 0 for none. */
  function RoundOrZero(c: Component): nat {
    EventRound(c).GetOr(0)
  }

  /** The largest round number over the events of `cal`, 0 when none has one. */
  function MaxRound(cal: seq<Component>): nat {
    MaxOf(cal, RoundOrZero)
  }

  /** `MaxRound` bounds every round number in the calendar and is one of them, or 0. */
  lemma MaxRoundIsMaximum(cal: seq<Component>)
    ensures forall k :: 0 <= k < |cal| && EventRound(cal[k]).Some? ==> EventRound(cal[k]).value <= MaxRound(cal)
    ensures MaxRound(cal) == 0 || exists k :: 0 <= k < |cal| && EventRound(cal[k]) == Some(MaxRound(cal))
  {
    MaxOfIsMaximum(cal, RoundOrZero);
    if MaxRound(cal) != 0 {
      var k :| 0 <= k < |cal| && RoundOrZero(cal[k]) == MaxRound(cal);
      assert EventRound(cal[k]) == Some(MaxRound(cal));
    }
  }

  lemma RoundOfMatch(c: Component, m: Option<(nat, string)>)
    requires c.isEvent && Truthy(c.summary) && m == FirstMatch(c.summary.value, RoundAt, 0)
    ensures RoundOrZero(c) == if m.Some? then ParseDigits(m.value.1) else 0
  {
  }

  /** `findMaxRegularRound`: the largest round number over all event summaries, 0 when there is none. */
  method FindMaxRegularRound(parsedCal: seq<Component>) returns (maxRound: nat)
    ensures maxRound == MaxRound(parsedCal)
  {
    maxRound := 0;
    var i := 0;
    while i < |parsedCal|
      invariant 0 <= i <= |parsedCal|
      invariant maxRound == MaxRound(parsedCal[..i])
    {
      var event := parsedCal[i];
      // an event without a round token leaves the maximum as it is, as `Math.max` with 0 would
      var roundNumber := 0;
      if event.isEvent && Truthy(event.summary) {
        var roundMatches := FirstMatch(event.summary.value, RoundAt, 0);
        RoundOfMatch(event, roundMatches);
        if roundMatches.Some? {
          roundNumber := ParseDigits(roundMatches.value.1);
        }
      }
      assert roundNumber == RoundOrZero(event);
      maxRound := if maxRound >= roundNumber then maxRound else roundNumber;
      MaxOfStep(parsedCal, RoundOrZero, i);
      i := i + 1;
    }
    assert parsedCal[..i] == parsedCal;
  }

  /** `FirstMatch` stops at the first position where the matcher succeeds. */
  lemma {:induction false} FirstMatchAt<T>(s: string, m: (string, nat) -> Option<T>, from: nat, k: nat)
    requires from <= k < |s| && m(s, k).Some?
    requires forall j :: from <= j < k ==> m(s, j).None?
    ensures FirstMatch(s, m, from) == Some((k, m(s, k).value))
    decreases k - from
  {
    if from < k {
      FirstMatchAt(s, m, from + 1, k);
    }
  }

  /** The bare `R` alternative reads the `r 12` of "Under 12" as round 12. */
  lemma UnderTwelveIsRoundTwelve()
    ensures ExtractRoundFromSummary("Under 12") == Some(12)
  {
    UnderTwelveToken();
    UnderTwelveNoEarlierToken();
    FirstMatchAt("Under 12", RoundAt, 0, 4);
    assert ParseDigits("12") == 12;
  }

  lemma UnderTwelveToken()
    ensures RoundAt("Under 12", 4) == Some("12")
  {
    var s := "Under 12";
    assert IsRoundToken(s, 4, "r", " ", "12") by {
      assert s[4..5] == "r" && s[5..6] == " " && s[6..8] == "12";
    }
    TokenGivesRound(s, 4, "r", " ", "12");
  }

  lemma UnderTwelveNoEarlierToken()
    ensures forall j :: 0 <= j < 4 ==> RoundAt("Under 12", j).None?
  {
    forall j | 0 <= j < 4 ensures RoundAt("Under 12", j).None? {
      NoRoundWithoutR("Under 12", j);
    }
  }

  /** "Round 5" is round 5. */
  lemma RoundFive()
    ensures ExtractRoundFromSummary("Round 5") == Some(5)
  {
    var s := "Round 5";
    assert IsRoundToken(s, 0, "round", " ", "5") by {
      assert s[0..5] == "Round" && s[5..6] == " " && s[6..7] == "5";
    }
    TokenGivesRound(s, 0, "round", " ", "5");
    FirstMatchAt(s, RoundAt, 0, 0);
    assert ParseDigits("5") == 5;
  }

  /** Where no digit follows `j`, `\s*(\d+)` captures nothing there. */
  lemma NoDigitsAfter(s: string, j: nat)
    requires j <= |s| && forall p :: j <= p < |s| ==> !IsDigit(s[p])
    ensures DigitsAfter(s, j).None?
  {
    var k := j + Run(s[j..], IsSpace);
    if k < |s| {
      assert s[k..][0] == s[k];
    }
  }

  /** A summary without digits has no round number, finals included. */
  lemma NoDigitsNoRound(summary: string)
    requires forall i :: 0 <= i < |summary| ==> !IsDigit(summary[i])
    ensures ExtractRoundFromSummary(summary).None?
  {
    forall j | 0 <= j < |summary| ensures RoundAt(summary, j).None? {
      NoDigitsAfter(summary, j + 1);
      if j + 2 <= |summary| {
        NoDigitsAfter(summary, j + 2);
      }
      if j + 5 <= |summary| {
        NoDigitsAfter(summary, j + 5);
      }
    }
    ExtractRoundIsLeftmost(summary);
  }

  lemma GrandFinalHasNoRound()
    ensures NamesFinal("Grand Final") && ExtractRoundFromSummary("Grand Final").None?
  {
    var s := "Grand Final";
    assert ToLower(s) == ToLower("Grand Final");
    ContainsPrefix(ToLower(s), ToLower("Grand Final"), []);
    assert "Grand Final" in FINALS_ORDER;
    NoDigitsNoRound(s);
  }

  // ============================================================ summary rewrites

  /**
   * The club table, in the order of its JSON object: each full name (a literal
   * text) and its abbreviation.
   */
  function ClubsReplaced(text: string, clubMappings: seq<(string, string)>): string {
    if clubMappings == [] then text
    else
      var last := clubMappings[|clubMappings| - 1];
      ReplaceAll(ClubsReplaced(text, clubMappings[..|clubMappings| - 1]), last.0, last.1)
  }

  /** `replaceClubNames`: every occurrence of each full name, table entry by table entry. */
  method ReplaceClubNames(text: string, clubMappings: seq<(string, string)>) returns (result: string)
    ensures result == ClubsReplaced(text, clubMappings)
  {
    result := text;
    var i := 0;
    while i < |clubMappings|
      invariant 0 <= i <= |clubMappings|
      invariant result == ClubsReplaced(text, clubMappings[..i])
    {
      var (fullName, abbreviation) := clubMappings[i];
      assert clubMappings[..i + 1][..i] == clubMappings[..i];
      result := ReplaceAll(result, fullName, abbreviation);
      i := i + 1;
    }
    assert clubMappings[..i] == clubMappings;
  }

  /** A text in which no (non-empty) full name occurs keeps its summary. */
  lemma {:induction false} ClubsUnchanged(text: string, clubMappings: seq<(string, string)>)
    requires forall k :: 0 <= k < |clubMappings| ==> clubMappings[k].0 != [] && !Contains(text, clubMappings[k].0)
    ensures ClubsReplaced(text, clubMappings) == text
  {
    if clubMappings != [] {
      var init := clubMappings[..|clubMappings| - 1];
      var last := clubMappings[|clubMappings| - 1];
      ClubsUnchanged(text, init);
      ReplaceAllAbsent(text, last.0, last.1);
    }
  }

  /** The table is applied entry by entry, each to the text the earlier entries left. */
  lemma {:induction false} ClubsInOrder(text: string, first: seq<(string, string)>, rest: seq<(string, string)>)
    ensures ClubsReplaced(text, first + rest) == ClubsReplaced(ClubsReplaced(text, first), rest)
    decreases |rest|
  {
    if rest == [] {
      assert first + rest == first;
    } else {
      var init := rest[..|rest| - 1];
      assert (first + rest)[..|first + rest| - 1] == first + init;
      ClubsInOrder(text, first, init);
    }
  }

  const YEAR_VARIABLE := "{{YEAR}}"
  const GENDER_VARIABLE := "{{GENDER}}"

  /** An entry of the competition table: a pattern template and its replacement template. */
  datatype CompetitionRule = CompetitionRule(pattern: string, replacement: string)

  /** The template with its first `{{YEAR}}` replaced by the current year. */
  function WithYear(template: string, currentYear: int): string {
    ReplaceFirst(template, YEAR_VARIABLE, IntToString(currentYear))
  }

  /** The template with its first `{{GENDER}}` replaced by `gender`. */
  function Gendered(template: string, gender: string): string {
    ReplaceFirst(template, GENDER_VARIABLE, gender)
  }

  /**
   * One entry of the competition table: a template naming `{{GENDER}}` is
   * applied twice, for the men's and then the women's reading.
   */
  function CompetitionStep(text: string, rule: CompetitionRule, currentYear: int): string {
    var pattern := WithYear(rule.pattern, currentYear);
    if Contains(pattern, GENDER_VARIABLE) then
      var menPattern := Gendered(pattern, "Men's");
      var womenPattern := Gendered(pattern, "Women's");
      var menReplacement := Gendered(rule.replacement, "Men");
      var womenReplacement := Gendered(rule.replacement, "Women");
      ReplaceAll(ReplaceAll(text, menPattern, menReplacement), womenPattern, womenReplacement)
    else
      ReplaceAll(text, pattern, rule.replacement)
  }

  function CompetitionsReplaced(text: string, rules: seq<CompetitionRule>, currentYear: int): string {
    if rules == [] then text
    else CompetitionStep(CompetitionsReplaced(text, rules[..|rules| - 1], currentYear), rules[|rules| - 1], currentYear)
  }

  /** `replaceCompetitionNames` with the year the clock shows passed in. */
  method ReplaceCompetitionNames(text: string, competitionReplacements: seq<CompetitionRule>, currentYear: int)
    returns (result: string)
    ensures result == CompetitionsReplaced(text, competitionReplacements, currentYear)
  {
    result := text;
    var i := 0;
    while i < |competitionReplacements|
      invariant 0 <= i <= |competitionReplacements|
      invariant result == CompetitionsReplaced(text, competitionReplacements[..i], currentYear)
    {
      var replacement := competitionReplacements[i];
      assert competitionReplacements[..i + 1][..i] == competitionReplacements[..i];
      var pattern := replacement.pattern;
      pattern := ReplaceFirst(pattern, YEAR_VARIABLE, IntToString(currentYear));
      if Contains(pattern, GENDER_VARIABLE) {
        var menPattern := ReplaceFirst(pattern, GENDER_VARIABLE, "Men's");
        var womenPattern := ReplaceFirst(pattern, GENDER_VARIABLE, "Women's");
        var menReplacement := ReplaceFirst(replacement.replacement, GENDER_VARIABLE, "Men");
        var womenReplacement := ReplaceFirst(replacement.replacement, GENDER_VARIABLE, "Women");
        result := ReplaceAll(result, menPattern, menReplacement);
        result := ReplaceAll(result, womenPattern, womenReplacement);
      } else {
        result := ReplaceAll(result, pattern, replacement.replacement);
      }
      i := i + 1;
    }
    assert competitionReplacements[..i] == competitionReplacements;
  }

  /**
   * The men's reading of a gendered template (its year filled in first), met
   * inside a summary, becomes the men's reading of the replacement there,
   * provided it occurs once and the result holds no women's reading of the
   * pattern.
   */
  lemma MensReading(rule: CompetitionRule, currentYear: int, before: string, after: string)
    requires Contains(WithYear(rule.pattern, currentYear), GENDER_VARIABLE)
    requires var mp := Gendered(WithYear(rule.pattern, currentYear), "Men's");
      IndexOf(before + mp + after, mp) == Some(|before|) && !Contains(after, mp)
    requires !Contains(before + Gendered(rule.replacement, "Men") + after,
                       Gendered(WithYear(rule.pattern, currentYear), "Women's"))
    ensures CompetitionStep(before + Gendered(WithYear(rule.pattern, currentYear), "Men's") + after, rule, currentYear)
      == before + Gendered(rule.replacement, "Men") + after
  {
    var p := WithYear(rule.pattern, currentYear);
    var mp := Gendered(p, "Men's");
    var wp := Gendered(p, "Women's");
    var mr := Gendered(rule.replacement, "Men");
    assert |mp| > 0 && |wp| > 0;
    ReplaceAllOnce(before, after, mp, mr);
    ReplaceAllAbsent(before + mr + after, wp, Gendered(rule.replacement, "Women"));
  }

  /**
   * The women's reading of a gendered template (its year filled in first),
   * met once inside a summary that holds no men's reading of the pattern,
   * becomes the women's reading of the replacement there.
   */
  lemma WomensReading(rule: CompetitionRule, currentYear: int, before: string, after: string)
    requires Contains(WithYear(rule.pattern, currentYear), GENDER_VARIABLE)
    requires var wp := Gendered(WithYear(rule.pattern, currentYear), "Women's");
      IndexOf(before + wp + after, wp) == Some(|before|) && !Contains(after, wp)
    requires !Contains(before + Gendered(WithYear(rule.pattern, currentYear), "Women's") + after,
                       Gendered(WithYear(rule.pattern, currentYear), "Men's"))
    ensures CompetitionStep(before + Gendered(WithYear(rule.pattern, currentYear), "Women's") + after, rule, currentYear)
      == before + Gendered(rule.replacement, "Women") + after
  {
    var p := WithYear(rule.pattern, currentYear);
    var mp := Gendered(p, "Men's");
    var wp := Gendered(p, "Women's");
    assert |mp| > 0 && |wp| > 0;
    ReplaceAllAbsent(before + wp + after, mp, Gendered(rule.replacement, "Men"));
    ReplaceAllOnce(before, after, wp, Gendered(rule.replacement, "Women"));
  }

  /** Only the first `{{YEAR}}` of a template is filled in; a later one stays. */
  lemma YearFirstOnly(before: string, after: string, currentYear: int)
    requires IndexOf(before + YEAR_VARIABLE + after, YEAR_VARIABLE) == Some(|before|)
    ensures WithYear(before + YEAR_VARIABLE + after, currentYear) == before + IntToString(currentYear) + after
  {
    var t := before + YEAR_VARIABLE + after;
    assert t[..|before|] == before;
    assert t[|before| + |YEAR_VARIABLE|..] == after;
  }

  /** The round patterns, each a global regular-expression replacement. */
  function RoundsReplaced(text: string, roundPatterns: seq<string -> string>): string {
    if roundPatterns == [] then text
    else roundPatterns[|roundPatterns| - 1](RoundsReplaced(text, roundPatterns[..|roundPatterns| - 1]))
  }

  /** `replaceRoundNames`. */
  method ReplaceRoundNames(text: string, roundPatterns: seq<string -> string>) returns (result: string)
    ensures result == RoundsReplaced(text, roundPatterns)
  {
    result := text;
    var i := 0;
    while i < |roundPatterns|
      invariant 0 <= i <= |roundPatterns|
      invariant result == RoundsReplaced(text, roundPatterns[..i])
    {
      assert roundPatterns[..i + 1][..i] == roundPatterns[..i];
      result := roundPatterns[i](result);
      i := i + 1;
    }
    assert roundPatterns[..i] == roundPatterns;
  }

  /** Every round pattern is applied once, in list order, each to the previous result. */
  lemma {:induction false} RoundsInOrder(text: string, first: seq<string -> string>, rest: seq<string -> string>)
    ensures RoundsReplaced(text, first + rest) == RoundsReplaced(RoundsReplaced(text, first), rest)
    decreases |rest|
  {
    if rest == [] {
      assert first + rest == first;
    } else {
      var init := rest[..|rest| - 1];
      assert (first + rest)[..|first + rest| - 1] == first + init;
      RoundsInOrder(text, first, init);
    }
  }

  /** All three rewrite passes, in the order the processor applies them. */
  function RewriteSummary(summary: string, rules: Rules, currentYear: int): string {
    RoundsReplaced(CompetitionsReplaced(ClubsReplaced(summary, rules.clubMappings), rules.competitionReplacements, currentYear), rules.roundPatterns)
  }

  /** The mapping files: club abbreviations, competition templates and round patterns. */
  datatype Rules = Rules(
    clubMappings: seq<(string, string)>,
    competitionReplacements: seq<CompetitionRule>,
    roundPatterns: seq<string -> string>)

  // ================================================================= description

  const POINTSCORE := "/pointscore/"
  const FIXTURE_LABEL := "Full Fixture: "
  const LADDER_LABEL := "Ladder: "
  const ROUND_LABEL := "Current Round: "
  const HOMEPAGE_LABEL := "\n\nCalendars Homepage: "
  const UPDATED_LABEL := "\n\nLast Updated: "
  const BLANK_LINE := "\n\n"

  /**
   * `/\/pointscore\/(\d+\/\d+)/` tried at position `i`: the two digit runs and
   * the slash between them, as captured.
   */
  function PointscoreAt(s: string, i: nat): (id: Option<string>)
    ensures id.Some? ==> OccursAt(s, POINTSCORE, i)
  {
    if !OccursAt(s, POINTSCORE, i) then None
    else
      var j := i + |POINTSCORE|;
      var n := Run(s[j..], IsDigit);
      if n == 0 || j + n == |s| || s[j + n] != '/' then None
      else
        var k := j + n + 1;
        var m := Run(s[k..], IsDigit);
        if m == 0 then None else Some(s[j..k + m])
  }

  /** The competition id a ladder URL names: the first pointscore match's capture. */
  function LadderCompetitionId(ladderUrl: string): Option<string> {
    match FirstMatch(ladderUrl, PointscoreAt, 0)
    case Some((_, id)) => Some(id)
    case None => None
  }

  /** The page of round `roundNumber` of a competition. */
  function RoundUrl(competitionId: string, roundNumber: nat): string {
    ROUND_BASE_URL + competitionId + "/round/" + NatToString(roundNumber)
  }

  function FixtureLine(competition: Competition): string {
    FIXTURE_LABEL + Shown(competition.fixtureUrl) + BLANK_LINE
  }

  function LadderLine(competition: Competition): string {
    if Truthy(competition.ladderUrl) then LADDER_LABEL + competition.ladderUrl.value + BLANK_LINE else ""
  }

  /** No pointscore match starts where there is no `/p`. */
  lemma NoPointscoreAt(s: string, i: nat)
    requires i + 1 < |s| ==> !(s[i] == '/' && s[i + 1] == 'p')
    ensures PointscoreAt(s, i).None?
  {
  }

  /** In `https://<host>` no pointscore match starts before the path. */
  lemma NoPointscoreInOrigin(host: string, t: string)
    requires '/' !in host && host != [] && host[0] != 'p'
    ensures forall j :: 0 <= j < 8 + |host| ==> PointscoreAt("https://" + host + t, j).None?
  {
    var s := "https://" + host + t;
    forall j | 0 <= j < 8 + |host| ensures PointscoreAt(s, j).None? {
      if j < 6 {
        assert s[j] == "https:"[j];
      } else if j == 6 {
        assert s[j + 1] == '/';
      } else if j == 7 {
        assert s[j + 1] == host[0];
      } else {
        assert s[j] == host[j - 8];
      }
      NoPointscoreAt(s, j);
    }
  }

  lemma DigitsSlashDigits(u: string, a: string, b: string, rest: string)
    requires IsDigits(a) && IsDigits(b) && (rest == [] || !IsDigit(rest[0]))
    requires u == a + ("/" + (b + rest))
    ensures Run(u, IsDigit) == |a| && |a| < |u| && u[|a|] == '/'
    ensures Run(u[|a| + 1..], IsDigit) == |b| && u[..|a| + 1 + |b|] == a + "/" + b
  {
    DigitsThenSlash(a, "/" + (b + rest));
    SlashParts(a, b, rest);
    RunOf(b, rest, IsDigit);
  }

  lemma DigitsThenSlash(a: string, v: string)
    requires IsDigits(a) && v != [] && v[0] == '/'
    ensures Run(a + v, IsDigit) == |a| && (a + v)[|a|] == '/'
  {
    RunOf(a, v, IsDigit);
  }

  lemma SlashParts(a: string, b: string, rest: string)
    ensures var u := a + ("/" + (b + rest));
      u[|a| + 1..] == b + rest && u[..|a| + 1 + |b|] == a + "/" + b
  {
    var u := a + ("/" + (b + rest));
    assert u == (a + "/" + b) + rest;
  }

  lemma LiteralStart(s: string, i: nat, lit: string, u: string)
    requires i <= |s| && s[i..] == lit + u
    ensures OccursAt(s, lit, i) && s[i + |lit|..] == u
  {
    assert s[i..i + |lit|] == s[i..][..|lit|];
  }

  lemma PointscoreFromRuns(s: string, i: nat, n: nat, m: nat)
    requires OccursAt(s, POINTSCORE, i)
    requires Run(s[i + |POINTSCORE|..], IsDigit) == n > 0
    requires i + |POINTSCORE| + n < |s| && s[i + |POINTSCORE| + n] == '/'
    requires Run(s[i + |POINTSCORE| + n + 1..], IsDigit) == m > 0
    ensures PointscoreAt(s, i) == Some(s[i + |POINTSCORE|..i + |POINTSCORE| + n + 1 + m])
  {
  }

  /** The pointscore match of `/pointscore/a/b...` captures `a/b`. */
  lemma PointscoreOf(s: string, i: nat, a: string, b: string, rest: string)
    requires a != [] && IsDigits(a) && b != [] && IsDigits(b) && (rest == [] || !IsDigit(rest[0]))
    requires i <= |s| && s[i..] == POINTSCORE + (a + ("/" + (b + rest)))
    ensures PointscoreAt(s, i) == Some(a + "/" + b)
  {
    PointscoreRuns(s, i, POINTSCORE, a, b, rest);
    PointscoreFromRuns(s, i, |a|, |b|);
  }

  lemma PointscoreRuns(s: string, i: nat, lit: string, a: string, b: string, rest: string)
    requires a != [] && IsDigits(a) && b != [] && IsDigits(b) && (rest == [] || !IsDigit(rest[0]))
    requires i <= |s| && s[i..] == lit + (a + ("/" + (b + rest)))
    ensures OccursAt(s, lit, i)
    ensures Run(s[i + |lit|..], IsDigit) == |a|
    ensures i + |lit| + |a| < |s| && s[i + |lit| + |a|] == '/'
    ensures Run(s[i + |lit| + |a| + 1..], IsDigit) == |b|
    ensures s[i + |lit|..i + |lit| + |a| + 1 + |b|] == a + "/" + b
  {
    var u := a + ("/" + (b + rest));
    LiteralStart(s, i, lit, u);
    var j := i + |lit|;
    SuffixDigitsSlash(s, j, a, b, rest);
  }

  lemma SuffixDigitsSlash(s: string, j: nat, a: string, b: string, rest: string)
    requires IsDigits(a) && b != [] && IsDigits(b) && (rest == [] || !IsDigit(rest[0]))
    requires j <= |s| && s[j..] == a + ("/" + (b + rest))
    ensures Run(s[j..], IsDigit) == |a|
    ensures j + |a| < |s| && s[j + |a|] == '/'
    ensures Run(s[j + |a| + 1..], IsDigit) == |b|
    ensures s[j..j + |a| + 1 + |b|] == a + "/" + b
  {
    var u := a + ("/" + (b + rest));
    DigitsSlashDigits(u, a, b, rest);
    SuffixFacts(s, j, u, |a|, |a| + 1 + |b|);
    SuffixFacts(s, j, u, |a| + 1, 0);
  }


  /** The first pointscore match in `https://<host>/pointscore/a/b...` captures `a/b`. */
  lemma PointscoreAfterOrigin(host: string, a: string, b: string, rest: string)
    requires '/' !in host && host != [] && host[0] != 'p'
    requires a != [] && IsDigits(a) && b != [] && IsDigits(b) && (rest == [] || !IsDigit(rest[0]))
    ensures LadderCompetitionId("https://" + host + (POINTSCORE + (a + ("/" + (b + rest))))) == Some(a + "/" + b)
  {
    NoPointscoreInOrigin(host, POINTSCORE + (a + ("/" + (b + rest))));
    PointscoreAfter("https://" + host, a, b, rest);
  }

  /** The first pointscore match in `p/pointscore/a/b...`, when none starts inside `p`, captures `a/b`. */
  lemma PointscoreAfter(p: string, a: string, b: string, rest: string)
    requires a != [] && IsDigits(a) && b != [] && IsDigits(b) && (rest == [] || !IsDigit(rest[0]))
    requires forall j :: 0 <= j < |p| ==> PointscoreAt(p + (POINTSCORE + (a + ("/" + (b + rest)))), j).None?
    ensures LadderCompetitionId(p + (POINTSCORE + (a + ("/" + (b + rest))))) == Some(a + "/" + b)
  {
    var t := POINTSCORE + (a + ("/" + (b + rest)));
    var s := p + t;
    assert s[|p|..] == t;
    PointscoreOf(s, |p|, a, b, rest);
    FirstMatchAt(s, PointscoreAt, 0, |p|);
  }

  /**
   * A ladder URL as the scrapers record it, the ladder page prefix followed by
   * two numbers, names the competition `a/b`.
   */
  lemma LadderIdOfPointscoreUrl(a: string, b: string, rest: string)
    requires a != [] && IsDigits(a) && b != [] && IsDigits(b) && (rest == [] || !IsDigit(rest[0]))
    ensures LadderCompetitionId(LADDER_BASE_URL + a + "/" + b + rest) == Some(a + "/" + b)
  {
    LadderBaseParts();
    HostHasNoPath();
    Regroup("https://", HOST, POINTSCORE, a, b, rest);
    PointscoreAfterOrigin(HOST, a, b, rest);
  }

  lemma LadderBaseParts()
    ensures LADDER_BASE_URL == "https://" + HOST + POINTSCORE
  {
  }

  lemma HostHasNoPath()
    ensures '/' !in HOST && HOST != [] && HOST[0] != 'p'
  {
  }

  lemma Regroup(x: string, y: string, z: string, a: string, b: string, rest: string)
    ensures x + y + z + a + "/" + b + rest == x + y + (z + (a + ("/" + (b + rest))))
  {
  }

  /** The `Current Round` line: only for a round number and a ladder URL naming a competition. */
  function RoundLine(competition: Competition, roundNumber: Option<nat>): string {
    if Truthy(competition.ladderUrl) && roundNumber.Some? then
      match LadderCompetitionId(competition.ladderUrl.value)
      case Some(competitionId) => ROUND_LABEL + RoundUrl(competitionId, roundNumber.value) + "\n"
      case None => ""
    else ""
  }

  function HomepageLine(calendarsHomepage: Option<string>): string {
    if Truthy(calendarsHomepage) then HOMEPAGE_LABEL + calendarsHomepage.value + "\n" else ""
  }

  function UpdatedLine(now: string): string {
    UPDATED_LABEL + now
  }

  /**
   * The description of every event of a competition: fixture link, ladder link,
   * round link, homepage link, then the time of writing (`now`, an ISO 8601 text).
   */
  function Description(competition: Competition, roundNumber: Option<nat>, calendarsHomepage: Option<string>, now: string): string {
    FixtureLine(competition) + LadderLine(competition) + RoundLine(competition, roundNumber)
    + HomepageLine(calendarsHomepage) + UpdatedLine(now)
  }

  /**
   * `generateDescription`, with the homepage setting (absent when the settings
   * cannot be read) and the clock's ISO text passed in.
   */
  method GenerateDescription(competition: Competition, roundNumber: Option<nat>, calendarsHomepage: Option<string>, now: string)
    returns (description: string)
    ensures description == Description(competition, roundNumber, calendarsHomepage, now)
  {
    description := "";
    description := description + (FIXTURE_LABEL + Shown(competition.fixtureUrl) + BLANK_LINE);
    assert description == FixtureLine(competition);
    if Truthy(competition.ladderUrl) {
      description := description + (LADDER_LABEL + competition.ladderUrl.value + BLANK_LINE);
    }
    assert description == FixtureLine(competition) + LadderLine(competition);
    ghost var withLadder := description;
    if Truthy(competition.ladderUrl) && roundNumber.Some? {
      var ladderMatch := FirstMatch(competition.ladderUrl.value, PointscoreAt, 0);
      if ladderMatch.Some? {
        var competitionId := ladderMatch.value.1;
        var roundUrl := ROUND_BASE_URL + competitionId + "/round/" + NatToString(roundNumber.value);
        description := description + (ROUND_LABEL + roundUrl + "\n");
      }
    }
    assert description == withLadder + RoundLine(competition, roundNumber);
    ghost var withRound := description;
    if Truthy(calendarsHomepage) {
      description := description + (HOMEPAGE_LABEL + calendarsHomepage.value + "\n");
    }
    assert description == withRound + HomepageLine(calendarsHomepage);
    description := description + (UPDATED_LABEL + now);
  }

  lemma RoundLineShape(competition: Competition, roundNumber: Option<nat>)
    ensures var round := RoundLine(competition, roundNumber);
      (round != [] <==> Truthy(competition.ladderUrl) && roundNumber.Some? && LadderCompetitionId(competition.ladderUrl.value).Some?)
      && (round != [] ==>
        round == ROUND_LABEL + (RoundUrl(LadderCompetitionId(competition.ladderUrl.value).value, roundNumber.value) + "\n"))
  {
  }

  lemma LadderPart(fixture: string, ladder: string, rest: string, ladderUrl: string)
    requires ladder == [] || ladder == LADDER_LABEL + (ladderUrl + BLANK_LINE)
    requires ladder == [] ==> rest != [] && rest[0] == '\n'
    ensures StartsWith(fixture + ladder + rest, fixture)
    ensures StartsWith(fixture + ladder + rest, fixture + LADDER_LABEL) <==> ladder != []
  {
    StartsWithJoin(fixture, ladder, rest);
    if ladder == [] {
      assert fixture + ladder + rest == fixture + rest;
      StartsWithDiffers(fixture, rest, LADDER_LABEL);
    } else {
      StartsWithJoin(fixture, LADDER_LABEL, ladderUrl + BLANK_LINE);
      StartsWithLonger(fixture + ladder, fixture + LADDER_LABEL, rest);
    }
  }

  lemma RoundPart(head: string, round: string, tail: string, url: string)
    requires round == [] || round == ROUND_LABEL + (url + "\n")
    requires tail != [] && tail[0] == '\n'
    ensures StartsWith(head + round + tail, head + ROUND_LABEL) <==> round != []
    ensures round != [] ==> StartsWith(head + round + tail, head + ROUND_LABEL + url + "\n")
  {
    if round == [] {
      assert head + round + tail == head + tail;
      StartsWithDiffers(head, tail, ROUND_LABEL);
    } else {
      StartsWithJoin(head, round, tail);
      StartsWithJoin(head, ROUND_LABEL, url + "\n");
      assert head + round == head + ROUND_LABEL + url + "\n";
      StartsWithLonger(head + round, head + ROUND_LABEL, tail);
    }
  }

  /** The layout argument on the five parts of a description, whatever they hold. */
  lemma PartsLayout(fixture: string, ladder: string, round: string, home: string, updated: string, ladderUrl: string, url: string)
    requires ladder == [] || ladder == LADDER_LABEL + (ladderUrl + BLANK_LINE)
    requires round == [] || round == ROUND_LABEL + (url + "\n")
    requires ladder == [] ==> round == []
    requires home == [] || home[0] == '\n'
    requires updated != [] && updated[0] == '\n'
    ensures var d := fixture + ladder + round + home + updated;
      StartsWith(d, fixture)
      && (StartsWith(d, fixture + LADDER_LABEL) <==> ladder != [])
      && (StartsWith(d, fixture + ladder + ROUND_LABEL) <==> round != [])
      && (round != [] ==> StartsWith(d, fixture + ladder + ROUND_LABEL + url + "\n"))
      && EndsWith(d, updated)
  {
    var d := fixture + ladder + round + home + updated;
    var tail := home + updated;
    assert tail[0] == '\n' by {
      if home == [] { assert tail == updated; } else { assert tail[0] == home[0]; }
    }
    assert d == fixture + ladder + (round + tail);
    assert ladder == [] ==> round + tail == tail;
    LadderPart(fixture, ladder, round + tail, ladderUrl);
    assert d == fixture + ladder + round + tail;
    RoundPart(fixture + ladder, round, tail, url);
    EndsWithJoin(fixture + ladder + round + home, updated);
  }

  /**
   * The layout of a description: it opens with the fixture link; a ladder line
   * follows exactly when the ladder URL is set; then a round line exactly when
   * there is a round number and the ladder URL names a competition, pointing at
   * that competition's round page; it closes with the time of writing.
   */
  lemma DescriptionLayout(competition: Competition, roundNumber: Option<nat>, calendarsHomepage: Option<string>, now: string)
    ensures var d := Description(competition, roundNumber, calendarsHomepage, now);
      var fixture := FixtureLine(competition);
      var ladder := LadderLine(competition);
      StartsWith(d, fixture)
      && (StartsWith(d, fixture + LADDER_LABEL) <==> Truthy(competition.ladderUrl))
      && (StartsWith(d, fixture + ladder + ROUND_LABEL) <==>
        Truthy(competition.ladderUrl) && roundNumber.Some? && LadderCompetitionId(competition.ladderUrl.value).Some?)
      && (StartsWith(d, fixture + ladder + ROUND_LABEL) ==>
        StartsWith(d, fixture + ladder + ROUND_LABEL
          + RoundUrl(LadderCompetitionId(competition.ladderUrl.value).value, roundNumber.value) + "\n"))
      && EndsWith(d, UPDATED_LABEL + now)
  {
    var ladder := LadderLine(competition);
    var round := RoundLine(competition, roundNumber);
    RoundLineShape(competition, roundNumber);
    var ladderUrl := if Truthy(competition.ladderUrl) then competition.ladderUrl.value else "";
    var url := if round != [] then RoundUrl(LadderCompetitionId(ladderUrl).value, roundNumber.value) else "";
    assert ladder != [] <==> Truthy(competition.ladderUrl);
    PartsLayout(FixtureLine(competition), ladder, round, HomepageLine(calendarsHomepage), UpdatedLine(now), ladderUrl, url);
  }
}
