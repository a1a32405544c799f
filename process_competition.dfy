/**
 * Running the pipeline for one competition (src/tasks/process-competition.js):
 * the command line, finding the competition by exact or partial name among the
 * competitions on show, and dropping the upload step for a competition that
 * has no Google calendar.
 */
module ProcessCompetition {
  import opened Wrappers
  import opened Strings
  import opened Lists
  import opened Competitions
  import CompetitionUtils

  /** The steps of the pipeline, in the order they run. */
  const ALL_STEPS: seq<string> := ["download", "process", "upload"]

  /** `x.split(',').map(s => s.trim())`: the steps listed after `--steps`. */
  function StepList(x: string): (r: seq<string>)
    ensures |r| == |Split(x, ',')|
    ensures forall k :: 0 <= k < |r| ==> r[k] == Trim(Split(x, ',')[k])
  {
    var parts := Split(x, ',');
    seq(|parts|, k requires 0 <= k < |parts| => Trim(parts[k]))
  }

  // ------------------------------------------------------------- arguments

  /** The options object while the arguments are read; `steps` is `null` until set. */
  datatype Parsed = Parsed(
    steps: Option<seq<string>>,
    useCache: bool,
    help: bool,
    competition: Option<string>,
    list: bool,
    includeInactive: bool)

  const INITIAL := Parsed(None, false, false, None, false, false)

  /** The options `parseArguments` returns, with the steps defaulted. */
  datatype Options = Options(
    steps: seq<string>,
    useCache: bool,
    help: bool,
    competition: Option<string>,
    list: bool,
    includeInactive: bool)

  /** What an argument means to `parseArguments`, in the order it tests for them. */
  datatype Arg = StepsFlag | AllFlag | UseCacheFlag | HelpFlag | ListFlag | IncludeInactiveFlag | CompetitionFlag
               | Word(text: string)

  function Meaning(arg: string): (m: Arg)
    ensures m.Word? ==> m.text == arg
  {
    if arg == "--steps" then StepsFlag
    else if arg == "--all" then AllFlag
    else if arg == "--use-cache" then UseCacheFlag
    else if arg == "--help" || arg == "-h" then HelpFlag
    else if arg == "--list" || arg == "-l" then ListFlag
    else if arg == "--include-inactive" then IncludeInactiveFlag
    else if arg == "--competition" || arg == "-c" then CompetitionFlag
    else Word(arg)
  }

  /** Some argument in `rest` has the meaning `m`. */
  predicate Given(rest: seq<string>, m: Arg) {
    exists j :: 0 <= j < |rest| && Meaning(rest[j]) == m
  }

  /** The options after reading the arguments `rest`, starting from `o`. */
  function Parse(rest: seq<string>, o: Parsed): Parsed
    decreases |rest|
  {
    if rest == [] then o
    else
      match Meaning(rest[0])
      case StepsFlag =>
        if 1 < |rest| then Parse(rest[2..], o.(steps := Some(StepList(rest[1])))) else Parse(rest[1..], o)
      case AllFlag => Parse(rest[1..], o.(steps := Some(ALL_STEPS)))
      case UseCacheFlag => Parse(rest[1..], o.(useCache := true))
      case HelpFlag => Parse(rest[1..], o.(help := true))
      case ListFlag => Parse(rest[1..], o.(list := true))
      case IncludeInactiveFlag => Parse(rest[1..], o.(includeInactive := true))
      case CompetitionFlag =>
        if 1 < |rest| then Parse(rest[2..], o.(competition := Some(rest[1]))) else Parse(rest[1..], o)
      case Word(arg) =>
        if !StartsWith(arg, "--") && !Truthy(o.competition) then Parse(rest[1..], o.(competition := Some(arg)))
        else Parse(rest[1..], o)
  }

  /** Steps left unset default to all three. */
  function Defaulted(o: Parsed): Options {
    Options(o.steps.GetOr(ALL_STEPS), o.useCache, o.help, o.competition, o.list, o.includeInactive)
  }

  /** `parseArguments` on the arguments after the script name. */
  method ParseArguments(args: seq<string>) returns (options: Options)
    ensures options == Defaulted(Parse(args, INITIAL))
  {
    var parsed := INITIAL;
    var i := 0;
    while i < |args|
      invariant i <= |args|
      invariant Parse(args[i..], parsed) == Parse(args, INITIAL)
      decreases |args| - i
    {
      var arg := args[i];
      assert args[i..][0] == arg && args[i..][1..] == args[i + 1..];
      match Meaning(arg) {
      case StepsFlag =>
        if i + 1 < |args| {
          assert args[i..][2..] == args[i + 2..];
          parsed := parsed.(steps := Some(StepList(args[i + 1])));
          i := i + 1;
        }
      case AllFlag =>
        parsed := parsed.(steps := Some(ALL_STEPS));
      case UseCacheFlag =>
        parsed := parsed.(useCache := true);
      case HelpFlag =>
        parsed := parsed.(help := true);
      case ListFlag =>
        parsed := parsed.(list := true);
      case IncludeInactiveFlag =>
        parsed := parsed.(includeInactive := true);
      case CompetitionFlag =>
        if i + 1 < |args| {
          assert args[i..][2..] == args[i + 2..];
          parsed := parsed.(competition := Some(args[i + 1]));
          i := i + 1;
        }
      case Word(_) =>
        if !StartsWith(arg, "--") && !Truthy(parsed.competition) {
          parsed := parsed.(competition := Some(arg));
        }
      }
      i := i + 1;
    }
    assert args[0..] == args;
    options := Defaulted(parsed);
  }

  /** Without `--steps` or `--all` among the arguments, the steps stay as they were. */
  lemma {:induction false} StepsKept(rest: seq<string>, o: Parsed)
    requires !Given(rest, StepsFlag) && !Given(rest, AllFlag)
    ensures Parse(rest, o).steps == o.steps
    decreases |rest|
  {
    if rest != [] {
      assert Meaning(rest[0]) != StepsFlag && Meaning(rest[0]) != AllFlag;
      assert forall j :: 0 <= j < |rest[1..]| ==> rest[1..][j] == rest[j + 1];
      var arg := rest[0];
      match Meaning(arg)
      case CompetitionFlag =>
        if 1 < |rest| {
          assert forall j :: 0 <= j < |rest[2..]| ==> rest[2..][j] == rest[j + 2];
          StepsKept(rest[2..], o.(competition := Some(rest[1])));
        } else {
          StepsKept(rest[1..], o);
        }
      case UseCacheFlag => StepsKept(rest[1..], o.(useCache := true));
      case HelpFlag => StepsKept(rest[1..], o.(help := true));
      case ListFlag => StepsKept(rest[1..], o.(list := true));
      case IncludeInactiveFlag => StepsKept(rest[1..], o.(includeInactive := true));
      case Word(_) =>
        if !StartsWith(arg, "--") && !Truthy(o.competition) {
          StepsKept(rest[1..], o.(competition := Some(arg)));
        } else {
          StepsKept(rest[1..], o);
        }
    }
  }

  /** With neither `--steps` nor `--all`, all three steps run. */
  lemma DefaultSteps(args: seq<string>)
    requires !Given(args, StepsFlag) && !Given(args, AllFlag)
    ensures Defaulted(Parse(args, INITIAL)).steps == ALL_STEPS
  {
    StepsKept(args, INITIAL);
  }

  /** `--steps X` takes the next argument as the trimmed comma-separated list. */
  lemma StepsGiven(x: string, rest: seq<string>)
    requires !Given(rest, StepsFlag) && !Given(rest, AllFlag)
    ensures Defaulted(Parse(["--steps", x] + rest, INITIAL)).steps == StepList(x)
  {
    var args := ["--steps", x] + rest;
    assert Meaning(args[0]) == StepsFlag;
    assert args[2..] == rest;
    StepsKept(rest, INITIAL.(steps := Some(StepList(x))));
  }

  /**
   * When no argument takes a value, each flag is set exactly when it is
   * given, in either spelling.
   */
  lemma {:induction false} FlagsPresent(rest: seq<string>, o: Parsed)
    requires !Given(rest, StepsFlag) && !Given(rest, CompetitionFlag)
    ensures var r := Parse(rest, o);
      (r.help <==> o.help || Given(rest, HelpFlag))
      && (r.list <==> o.list || Given(rest, ListFlag))
      && (r.useCache <==> o.useCache || Given(rest, UseCacheFlag))
      && (r.includeInactive <==> o.includeInactive || Given(rest, IncludeInactiveFlag))
    decreases |rest|
  {
    if rest != [] {
      var arg := rest[0];
      var tail := rest[1..];
      assert forall j :: 0 <= j < |tail| ==> tail[j] == rest[j + 1];
      assert forall m :: Given(rest, m) <==> Meaning(arg) == m || Given(tail, m);
      match Meaning(arg)
      case AllFlag => FlagsPresent(tail, o.(steps := Some(ALL_STEPS)));
      case UseCacheFlag => FlagsPresent(tail, o.(useCache := true));
      case HelpFlag => FlagsPresent(tail, o.(help := true));
      case ListFlag => FlagsPresent(tail, o.(list := true));
      case IncludeInactiveFlag => FlagsPresent(tail, o.(includeInactive := true));
      case Word(_) =>
        if !StartsWith(arg, "--") && !Truthy(o.competition) {
          FlagsPresent(tail, o.(competition := Some(arg)));
        } else {
          FlagsPresent(tail, o);
        }
    }
  }

  /** Once a non-empty competition is set, only `--competition`/`-c` replaces it. */
  lemma {:induction false} CompetitionKept(rest: seq<string>, o: Parsed)
    requires Truthy(o.competition) && !Given(rest, CompetitionFlag)
    ensures Parse(rest, o).competition == o.competition
    decreases |rest|
  {
    if rest != [] {
      assert Meaning(rest[0]) != CompetitionFlag;
      assert forall j :: 0 <= j < |rest[1..]| ==> rest[1..][j] == rest[j + 1];
      match Meaning(rest[0])
      case StepsFlag =>
        if 1 < |rest| {
          assert forall j :: 0 <= j < |rest[2..]| ==> rest[2..][j] == rest[j + 2];
          CompetitionKept(rest[2..], o.(steps := Some(StepList(rest[1]))));
        } else {
          CompetitionKept(rest[1..], o);
        }
      case AllFlag => CompetitionKept(rest[1..], o.(steps := Some(ALL_STEPS)));
      case UseCacheFlag => CompetitionKept(rest[1..], o.(useCache := true));
      case HelpFlag => CompetitionKept(rest[1..], o.(help := true));
      case ListFlag => CompetitionKept(rest[1..], o.(list := true));
      case IncludeInactiveFlag => CompetitionKept(rest[1..], o.(includeInactive := true));
      case Word(_) => CompetitionKept(rest[1..], o);
    }
  }

  /**
   * A leading bare name is the competition, unless a later `--competition`
   * or `-c` names another one.
   */
  lemma BareCompetition(name: string, rest: seq<string>)
    requires Meaning(name).Word? && name != "" && !StartsWith(name, "--")
    requires !Given(rest, CompetitionFlag)
    ensures Defaulted(Parse([name] + rest, INITIAL)).competition == Some(name)
  {
    var args := [name] + rest;
    assert args[0] == name && args[1..] == rest;
    CompetitionKept(rest, INITIAL.(competition := Some(name)));
  }

  // ---------------------------------------------------------------- lookup

  /** The competitions offered: all of them with `--include-inactive`, else those not marked inactive. */
  function Shown(all: seq<Competition>, includeInactive: bool): seq<Competition> {
    if includeInactive then all else Filter(all, NotInactive)
  }

  /** A competition is offered exactly when it is loaded and either inactive ones are included or it is not marked inactive. */
  lemma ShownMembers(all: seq<Competition>, includeInactive: bool, c: Competition)
    ensures c in Shown(all, includeInactive) <==> c in all && (includeInactive || c.isActive != Some(false))
  {
    if !includeInactive {
      FilterMembers(all, NotInactive, c);
    }
  }

  /** `name.toLowerCase().includes(searchLower)`. */
  function Mentions(searchLower: string): Competition -> bool {
    (c: Competition) => Contains(ToLower(c.name), searchLower)
  }

  /**
   * `findCompetition`: the first competition whose name equals the search
   * text up to case; failing that, the only one whose name contains it.
   * None when nothing or more than one name contains it.
   */
  function FindCompetition(competitions: seq<Competition>, searchName: string): (r: Option<Competition>)
    ensures r.Some? ==> r.value in competitions
    ensures CompetitionUtils.FindCompetitionByName(competitions, searchName).Some? ==>
      r == CompetitionUtils.FindCompetitionByName(competitions, searchName)
    ensures CompetitionUtils.FindCompetitionByName(competitions, searchName).None? ==>
      var matches := Filter(competitions, Mentions(ToLower(searchName)));
      (r.Some? <==> |matches| == 1) && (r.Some? ==> r == Some(matches[0]))
  {
    var searchLower := ToLower(searchName);
    var exact := CompetitionUtils.FindCompetitionByName(competitions, searchName);
    if exact.Some? then exact
    else
      var matches := Filter(competitions, Mentions(searchLower));
      if |matches| == 1 then
        FilterMembers(competitions, Mentions(searchLower), matches[0]);
        Some(matches[0])
      else None
  }

  /** A competition found by partial match is the one whose name contains the search text. */
  lemma PartialMatch(competitions: seq<Competition>, searchName: string, c: Competition)
    requires CompetitionUtils.FindCompetitionByName(competitions, searchName).None?
    requires FindCompetition(competitions, searchName) == Some(c)
    ensures Contains(ToLower(c.name), ToLower(searchName))
    ensures forall d :: d in competitions && Contains(ToLower(d.name), ToLower(searchName)) ==> d == c
  {
    var mentions := Mentions(ToLower(searchName));
    var matches := Filter(competitions, mentions);
    assert matches == [c];
    FilterMembers(competitions, mentions, c);
    forall d | d in competitions && Contains(ToLower(d.name), ToLower(searchName))
      ensures d == c
    {
      assert mentions(d);
      FilterMembers(competitions, mentions, d);
      assert d in [c];
    }
  }

  // ------------------------------------------------------------ selection

  /** Where the named selection ends: a competition to process, or exit code 1 with or without the inactive warning. */
  datatype Selection = Selected(competition: Competition) | NotFound(inactiveWarning: bool) | Interactive

  /** The selection in `main` once the competitions are loaded (the menu itself is left aside). */
  function Select(all: seq<Competition>, options: Options): (s: Selection)
    ensures s.Selected? ==> s.competition in all && (options.includeInactive || s.competition.isActive != Some(false))
    ensures s.Interactive? <==> !Truthy(options.competition)
  {
    if !Truthy(options.competition) then Interactive
    else
      var shown := Shown(all, options.includeInactive);
      match FindCompetition(shown, options.competition.value)
      case Some(c) =>
        ShownMembers(all, options.includeInactive, c);
        Selected(c)
      case None =>
        if options.includeInactive then NotFound(false)
        else
          var inactiveMatch := FindCompetition(all, options.competition.value);
          NotFound(inactiveMatch.Some? && inactiveMatch.value.isActive == Some(false))
  }

  predicate NotUpload(step: string) {
    step != "upload"
  }

  lemma DroppedUpload(steps: seq<string>)
    ensures forall s :: s in Filter(steps, NotUpload) <==> s in steps && s != "upload"
  {
    forall s
      ensures s in Filter(steps, NotUpload) <==> s in steps && s != "upload"
    {
      FilterMembers(steps, NotUpload, s);
    }
  }

  /**
   * The steps that run for the selected competition, or None for "No steps
   * to run": the upload step is dropped when it has no calendar.
   */
  function StepsToRun(steps: seq<string>, selected: Competition): (r: Option<seq<string>>)
    ensures r.Some? ==> forall s :: s in r.value <==> s in steps && (s != "upload" || HasCalendar(selected))
    ensures r.None? <==> !HasCalendar(selected) && forall s :: s in steps ==> s == "upload"
  {
    if !HasCalendar(selected) then
      var kept := if "upload" in steps then Filter(steps, NotUpload) else steps;
      DroppedUpload(steps);
      assert kept != [] ==> kept[0] in kept;
      if |kept| == 0 then None else Some(kept)
    else Some(steps)
  }
}
