/**
 * Running the pipeline for every active competition
 * (src/tasks/process-all-competitions.js): the command line, the check that
 * every requested step exists, and the choice of competitions to process.
 */
module ProcessAll {
  import opened Wrappers
  import opened Lists
  import opened Competitions
  import ProcessCompetition

  /** The options `parseArguments` returns; `steps` is `null` for the interactive menu. */
  datatype Options = Options(
    steps: Option<seq<string>>,
    useCache: bool,
    help: bool,
    all: bool,
    interactive: bool)

  const DEFAULTS := Options(None, false, false, false, true)

  /** What an argument means here; every other argument is ignored. */
  datatype Arg = StepsFlag | AllFlag | UseCacheFlag | HelpFlag | Ignored

  function Meaning(arg: string): Arg {
    if arg == "--steps" then StepsFlag
    else if arg == "--all" then AllFlag
    else if arg == "--use-cache" then UseCacheFlag
    else if arg == "--help" || arg == "-h" then HelpFlag
    else Ignored
  }

  predicate Given(rest: seq<string>, m: Arg) {
    exists j :: 0 <= j < |rest| && Meaning(rest[j]) == m
  }

  /** The options after reading the arguments `rest`, starting from `o`. */
  function Parse(rest: seq<string>, o: Options): Options
    decreases |rest|
  {
    if rest == [] then o
    else
      match Meaning(rest[0])
      case StepsFlag =>
        if 1 < |rest| then Parse(rest[2..], o.(steps := Some(ProcessCompetition.StepList(rest[1])), interactive := false))
        else Parse(rest[1..], o)
      case AllFlag => Parse(rest[1..], o.(steps := Some(ProcessCompetition.ALL_STEPS), all := true, interactive := false))
      case UseCacheFlag => Parse(rest[1..], o.(useCache := true))
      case HelpFlag => Parse(rest[1..], o.(help := true))
      case Ignored => Parse(rest[1..], o)
  }

  /** `parseArguments` on the arguments after the script name. */
  method ParseArguments(args: seq<string>) returns (options: Options)
    ensures options == Parse(args, DEFAULTS)
  {
    options := DEFAULTS;
    var i := 0;
    while i < |args|
      invariant i <= |args|
      invariant Parse(args[i..], options) == Parse(args, DEFAULTS)
      decreases |args| - i
    {
      var arg := args[i];
      assert args[i..][0] == arg && args[i..][1..] == args[i + 1..];
      match Meaning(arg) {
      case StepsFlag =>
        if i + 1 < |args| {
          assert args[i..][2..] == args[i + 2..];
          options := options.(steps := Some(ProcessCompetition.StepList(args[i + 1])), interactive := false);
          i := i + 1;
        }
      case AllFlag =>
        options := options.(steps := Some(ProcessCompetition.ALL_STEPS), all := true, interactive := false);
      case UseCacheFlag =>
        options := options.(useCache := true);
      case HelpFlag =>
        options := options.(help := true);
      case Ignored =>
      }
      i := i + 1;
    }
    assert args[0..] == args;
  }

  /**
   * Without `--steps`, the menu is skipped exactly when `--all` is given,
   * which then selects all three steps; the other flags are set exactly when
   * given.
   */
  lemma {:induction false} WithoutStepsFlag(rest: seq<string>, o: Options)
    requires !Given(rest, StepsFlag)
    ensures var r := Parse(rest, o);
      (r.all <==> o.all || Given(rest, AllFlag))
      && (r.interactive <==> o.interactive && !Given(rest, AllFlag))
      && r.steps == (if Given(rest, AllFlag) then Some(ProcessCompetition.ALL_STEPS) else o.steps)
      && (r.help <==> o.help || Given(rest, HelpFlag))
      && (r.useCache <==> o.useCache || Given(rest, UseCacheFlag))
    decreases |rest|
  {
    if rest != [] {
      var tail := rest[1..];
      assert forall j :: 0 <= j < |tail| ==> tail[j] == rest[j + 1];
      assert forall m :: Given(rest, m) <==> Meaning(rest[0]) == m || Given(tail, m);
      match Meaning(rest[0])
      case AllFlag =>
        WithoutStepsFlag(tail, o.(steps := Some(ProcessCompetition.ALL_STEPS), all := true, interactive := false));
      case UseCacheFlag => WithoutStepsFlag(tail, o.(useCache := true));
      case HelpFlag => WithoutStepsFlag(tail, o.(help := true));
      case Ignored => WithoutStepsFlag(tail, o);
    }
  }

  /** No arguments: the interactive menu chooses the steps. */
  lemma NoArguments()
    ensures Parse([], DEFAULTS).steps.None? && Parse([], DEFAULTS).interactive
  {
  }

  /** `--steps X` followed by no other `--steps` or `--all` runs exactly the listed steps without the menu. */
  lemma StepsGiven(x: string, rest: seq<string>)
    requires !Given(rest, StepsFlag) && !Given(rest, AllFlag)
    ensures Parse(["--steps", x] + rest, DEFAULTS).steps == Some(ProcessCompetition.StepList(x))
    ensures !Parse(["--steps", x] + rest, DEFAULTS).interactive
  {
    var args := ["--steps", x] + rest;
    assert Meaning(args[0]) == StepsFlag;
    assert args[2..] == rest;
    WithoutStepsFlag(rest, DEFAULTS.(steps := Some(ProcessCompetition.StepList(x)), interactive := false));
  }

  // ------------------------------------------------------------- validation

  predicate IsValidStep(step: string) {
    step in ProcessCompetition.ALL_STEPS
  }

  predicate IsInvalidStep(step: string) {
    !IsValidStep(step)
  }

  /** `invalidSteps`: the requested steps that are not download, process or upload, in order. */
  function InvalidSteps(steps: Option<seq<string>>): seq<string> {
    if steps.Some? then Filter(steps.value, IsInvalidStep) else []
  }

  /** A step is reported invalid exactly when it was requested and is none of the three. */
  lemma InvalidStepsExact(steps: Option<seq<string>>, step: string)
    ensures step in InvalidSteps(steps) <==> steps.Some? && step in steps.value && step !in ProcessCompetition.ALL_STEPS
  {
    if steps.Some? {
      FilterMembers(steps.value, IsInvalidStep, step);
    }
  }

  /** The run goes on only when no requested step is invalid, that is when every step is one of the three. */
  lemma ValidRun(steps: seq<string>)
    ensures InvalidSteps(Some(steps)) == [] <==> forall k :: 0 <= k < |steps| ==> steps[k] in ProcessCompetition.ALL_STEPS
  {
    var invalid := InvalidSteps(Some(steps));
    if invalid != [] {
      InvalidStepsExact(Some(steps), invalid[0]);
    }
    forall k | 0 <= k < |steps| && steps[k] !in ProcessCompetition.ALL_STEPS
      ensures invalid != []
    {
      InvalidStepsExact(Some(steps), steps[k]);
    }
  }

  // ----------------------------------------------------------- competitions

  /** The competitions processed: all those not marked inactive, in file order. */
  function ToProcess(all: seq<Competition>): seq<Competition> {
    Filter(all, NotInactive)
  }

  /** A competition is processed exactly when it is loaded and not marked inactive; unmarked ones are included. */
  lemma ToProcessExact(all: seq<Competition>, c: Competition)
    ensures c in ToProcess(all) <==> c in all && c.isActive != Some(false)
  {
    FilterMembers(all, NotInactive, c);
  }
}
