/**
 * Marking competitions active or inactive (src/setup/update-competition-status.js):
 * a competition is active while the last event of its processed calendar is at
 * most a week in the past, and the competitions file records each status and
 * how many competitions are active.
 */
module CompetitionStatus {
  import opened Wrappers
  import opened ICal
  import opened Competitions
  import CalendarDownloader

  const MS_PER_DAY := 1000 * 60 * 60 * 24

  // --------------------------------------------------------- latest event

  /** `eventDate > latestDate` on dates: any comparison with an invalid date is false. */
  predicate Later(a: Stamp, b: Stamp) {
    a.Instant? && b.Instant? && a.ms > b.ms
  }

  /** An event with a start time, the only components the scan looks at. */
  predicate Dated(c: Component) {
    c.isEvent && c.start.Some?
  }

  /** One step of the scan: a dated event replaces the latest date when there is none yet or it is later. */
  function Step(latest: Option<Stamp>, c: Component): Option<Stamp> {
    if Dated(c) && (latest.None? || Later(c.start.value, latest.value)) then c.start else latest
  }

  /** The latest date after scanning the components in order. */
  function Latest(cs: seq<Component>): Option<Stamp>
    decreases |cs|
  {
    if cs == [] then None else Step(Latest(cs[..|cs| - 1]), cs[|cs| - 1])
  }

  /** `getLatestEventDate` on the parsed processed file. */
  method GetLatestEventDate(components: seq<Component>) returns (latestDate: Option<Stamp>)
    ensures latestDate == Latest(components)
  {
    latestDate := None;
    for i := 0 to |components|
      invariant latestDate == Latest(components[..i])
    {
      var event := components[i];
      assert components[..i + 1][..i] == components[..i];
      if event.isEvent && event.start.Some? {
        var eventDate := event.start.value;
        if latestDate.None? || Later(eventDate, latestDate.value) {
          latestDate := Some(eventDate);
        }
      }
    }
    assert components[..|components|] == components;
  }

  /** There is no latest date exactly when no event has a start time, and otherwise it is one of those start times. */
  lemma {:induction false} LatestIsSomeStart(cs: seq<Component>)
    ensures Latest(cs).None? <==> forall k :: 0 <= k < |cs| ==> !Dated(cs[k])
    ensures Latest(cs).Some? ==> exists k :: 0 <= k < |cs| && Dated(cs[k]) && cs[k].start == Latest(cs)
    decreases |cs|
  {
    if cs != [] {
      var n := |cs| - 1;
      LatestIsSomeStart(cs[..n]);
      assert forall k :: 0 <= k < n ==> cs[..n][k] == cs[k];
      if Latest(cs[..n]).Some? && Latest(cs) == Latest(cs[..n]) {
        var k :| 0 <= k < n && Dated(cs[..n][k]) && cs[..n][k].start == Latest(cs[..n]);
        assert Dated(cs[k]) && cs[k].start == Latest(cs);
      }
    }
  }

  /** All start times that are valid instants. */
  predicate AllValid(cs: seq<Component>) {
    forall k :: 0 <= k < |cs| && Dated(cs[k]) ==> cs[k].start.value.Instant?
  }

  /** When every start time is valid, the latest date is at or after every event's start. */
  lemma {:induction false} LatestIsMaximum(cs: seq<Component>)
    requires AllValid(cs)
    ensures Latest(cs).Some? ==> Latest(cs).value.Instant?
    ensures forall k :: 0 <= k < |cs| && Dated(cs[k]) ==>
      Latest(cs).Some? && cs[k].start.value.ms <= Latest(cs).value.ms
    decreases |cs|
  {
    if cs != [] {
      var n := |cs| - 1;
      assert forall k :: 0 <= k < n ==> cs[..n][k] == cs[k];
      LatestIsMaximum(cs[..n]);
      LatestIsSomeStart(cs[..n]);
    }
  }

  // ---------------------------------------------------------------- active

  /** `Math.ceil(d / divisor)` for a positive divisor. */
  function CeilDiv(d: int, divisor: int): (r: int)
    requires divisor > 0
    ensures (r - 1) * divisor < d <= r * divisor
  {
    -((-d) / divisor)
  }

  /**
   * `isCompetitionActive`. `file` is the parsed processed calendar, or `None`
   * when there is no processed file; `now` is the clock in milliseconds.
   */
  function IsCompetitionActive(file: Option<seq<Component>>, now: int): bool {
    if file.None? then true
    else
      var latestDate := Latest(file.value);
      if latestDate.None? then false
      else if latestDate.value.InvalidDate? then false
      else CeilDiv(latestDate.value.ms - now, MS_PER_DAY) >= -7
  }

  /**
   * Rounding up whole days makes the cut-off eight days, not seven: a file
   * whose last event is valid is active exactly when that event is less than
   * eight days before now.
   */
  lemma ActiveWithinEightDays(cs: seq<Component>, now: int)
    requires Latest(cs).Some? && Latest(cs).value.Instant?
    ensures IsCompetitionActive(Some(cs), now) <==> Latest(cs).value.ms > now - 8 * MS_PER_DAY
  {
    var d := Latest(cs).value.ms - now;
    var r := CeilDiv(d, MS_PER_DAY);
    if r >= -7 {
      assert d > (r - 1) * MS_PER_DAY >= -8 * MS_PER_DAY;
    } else {
      assert d <= r * MS_PER_DAY <= -8 * MS_PER_DAY;
    }
  }

  /** A missing file counts as active; a file without dated events as inactive. */
  lemma MissingOrEmptyFile(cs: seq<Component>, now: int)
    ensures IsCompetitionActive(None, now)
    ensures (forall k :: 0 <= k < |cs| ==> !Dated(cs[k])) ==> !IsCompetitionActive(Some(cs), now)
  {
    LatestIsSomeStart(cs);
  }

  // ---------------------------------------------------------------- update

  /** Where the processed calendar of a competition is written (the directory left aside). */
  function ProcessedFileName(c: Competition): string {
    CalendarDownloader.SafeName(c.name) + "_processed.ics"
  }

  /** The status computed for a competition from the processed files by name. */
  function ActiveOf(c: Competition, files: string -> Option<seq<Component>>, now: int): bool {
    IsCompetitionActive(files(ProcessedFileName(c)), now)
  }

  /** The status and its time stamp are written only when the status changed or was never set. */
  function Refresh(c: Competition, isActive: bool, stamp: string): (r: Competition)
    ensures r.isActive == Some(isActive)
    ensures r == c <==> c.isActive == Some(isActive)
    ensures r.(isActive := c.isActive, statusUpdatedAt := c.statusUpdatedAt) == c
  {
    if c.isActive != Some(isActive) then c.(isActive := Some(isActive), statusUpdatedAt := Some(stamp)) else c
  }

  /** Refreshing again with the same status changes nothing, whatever the new time stamp. */
  lemma RefreshIdempotent(c: Competition, isActive: bool, stamp: string, later: string)
    ensures Refresh(Refresh(c, isActive, stamp), isActive, later) == Refresh(c, isActive, stamp)
  {
  }

  /** How many of the competitions are active, inactive, and need their status written. */
  function ActiveCount(cs: seq<Competition>, files: string -> Option<seq<Component>>, now: int): nat
    decreases |cs|
  {
    if cs == [] then 0
    else ActiveCount(cs[..|cs| - 1], files, now) + (if ActiveOf(cs[|cs| - 1], files, now) then 1 else 0)
  }

  function InactiveCount(cs: seq<Competition>, files: string -> Option<seq<Component>>, now: int): nat
    decreases |cs|
  {
    if cs == [] then 0
    else InactiveCount(cs[..|cs| - 1], files, now) + (if ActiveOf(cs[|cs| - 1], files, now) then 0 else 1)
  }

  function ChangedCount(cs: seq<Competition>, files: string -> Option<seq<Component>>, now: int): nat
    decreases |cs|
  {
    if cs == [] then 0
    else
      var c := cs[|cs| - 1];
      ChangedCount(cs[..|cs| - 1], files, now) + (if c.isActive != Some(ActiveOf(c, files, now)) then 1 else 0)
  }

  /** Counting one more competition adds its own contribution to each count. */
  lemma CountsStep(cs: seq<Competition>, i: nat, files: string -> Option<seq<Component>>, now: int)
    requires i < |cs|
    ensures ActiveCount(cs[..i + 1], files, now) == ActiveCount(cs[..i], files, now) + (if ActiveOf(cs[i], files, now) then 1 else 0)
    ensures InactiveCount(cs[..i + 1], files, now) == InactiveCount(cs[..i], files, now) + (if ActiveOf(cs[i], files, now) then 0 else 1)
    ensures ChangedCount(cs[..i + 1], files, now)
      == ChangedCount(cs[..i], files, now) + (if cs[i].isActive != Some(ActiveOf(cs[i], files, now)) then 1 else 0)
  {
    assert cs[..i + 1][..i] == cs[..i];
  }

  /** Every competition is counted once, as active or as inactive. */
  lemma {:induction false} CountsAddUp(cs: seq<Competition>, files: string -> Option<seq<Component>>, now: int)
    ensures ActiveCount(cs, files, now) + InactiveCount(cs, files, now) == |cs|
    ensures ChangedCount(cs, files, now) <= |cs|
    decreases |cs|
  {
    if cs != [] {
      CountsAddUp(cs[..|cs| - 1], files, now);
    }
  }

  /** The numbers `updateCompetitionStatus` reports, also written as the file's metadata. */
  datatype Summary = Summary(total: nat, updated: nat, active: nat, inactive: nat)

  /**
   * `updateCompetitionStatus` on the loaded competitions. The processed
   * files, the clock and the ISO time stamp are parameters.
   */
  method UpdateCompetitionStatus(competitions: array<Competition>, files: string -> Option<seq<Component>>,
                                 now: int, stamp: string)
    returns (summary: Summary)
    modifies competitions
    ensures forall k :: 0 <= k < competitions.Length ==>
      competitions[k] == Refresh(old(competitions[k]), ActiveOf(old(competitions[k]), files, now), stamp)
    ensures summary.total == competitions.Length
    ensures summary.updated == ChangedCount(old(competitions[..]), files, now)
    ensures summary.active == ActiveCount(old(competitions[..]), files, now)
    ensures summary.inactive == InactiveCount(old(competitions[..]), files, now)
    ensures summary.active + summary.inactive == summary.total
  {
    ghost var before := competitions[..];
    var updatedCount, activeCount, inactiveCount := 0, 0, 0;
    for i := 0 to competitions.Length
      invariant forall k :: 0 <= k < i ==> competitions[k] == Refresh(before[k], ActiveOf(before[k], files, now), stamp)
      invariant forall k :: i <= k < competitions.Length ==> competitions[k] == before[k]
      invariant updatedCount == ChangedCount(before[..i], files, now)
      invariant activeCount == ActiveCount(before[..i], files, now)
      invariant inactiveCount == InactiveCount(before[..i], files, now)
    {
      CountsStep(before, i, files, now);
      var competition := competitions[i];
      var wasActive := competition.isActive;
      var isActive := ActiveOf(competition, files, now);
      ghost var prev := competitions[..];
      if wasActive != Some(isActive) {
        competitions[i] := competition.(isActive := Some(isActive), statusUpdatedAt := Some(stamp));
        updatedCount := updatedCount + 1;
      }
      assert competitions[..] == prev[i := Refresh(before[i], isActive, stamp)];
      if isActive {
        activeCount := activeCount + 1;
      } else {
        inactiveCount := inactiveCount + 1;
      }
    }
    assert before[..competitions.Length] == before;
    CountsAddUp(before, files, now);
    summary := Summary(competitions.Length, updatedCount, activeCount, inactiveCount);
  }

  /** A second run with the same files and clock writes nothing. */
  lemma {:induction false} SecondRunChangesNothing(cs: seq<Competition>, files: string -> Option<seq<Component>>,
                                                   now: int, stamp: string)
    ensures ChangedCount(seq(|cs|, k requires 0 <= k < |cs| => Refresh(cs[k], ActiveOf(cs[k], files, now), stamp)),
                         files, now) == 0
    decreases |cs|
  {
    if cs != [] {
      var n := |cs| - 1;
      var refreshed := seq(|cs|, k requires 0 <= k < |cs| => Refresh(cs[k], ActiveOf(cs[k], files, now), stamp));
      SecondRunChangesNothing(cs[..n], files, now, stamp);
      assert refreshed[..n] == seq(n, k requires 0 <= k < n => Refresh(cs[..n][k], ActiveOf(cs[..n][k], files, now), stamp));
      assert ActiveOf(refreshed[n], files, now) == ActiveOf(cs[n], files, now);
    }
  }
}
