/**
 * A competition as stored in the competitions file: one team the club follows,
 * with the links scraped for it and the Google calendar created for it.
 * JSON fields that may be missing are `Option`s.
 */
module Competitions {
  import opened Wrappers

  /** The Hockey Victoria web site. */
  const HOST := "www.hockeyvictoria.org.au"
  const ORIGIN := "https://" + HOST

  /** Page prefixes for team fixtures, ladders and rounds. */
  const FIXTURE_BASE_URL := ORIGIN + "/games/team/"
  const LADDER_BASE_URL := ORIGIN + "/pointscore/"
  const ROUND_BASE_URL := ORIGIN + "/games/"

  datatype GoogleCalendar = GoogleCalendar(
    calendarId: Option<string>,
    publicUrl: Option<string>,
    icalUrl: Option<string>)

  datatype Competition = Competition(
    name: string,
    fixtureUrl: Option<string>,
    competitionTeamId: Option<string>,
    competitionId: Option<string>,
    ladderUrl: Option<string>,
    gameDuration: Option<int>,
    googleCalendar: Option<GoogleCalendar>,
    isActive: Option<bool>,
    statusUpdatedAt: Option<string>)

  /** JavaScript truthiness of an optional string: present and not empty. */
  predicate Truthy(o: Option<string>) {
    o.Some? && o.value != ""
  }

  /** `comp.googleCalendar && comp.googleCalendar.calendarId`. */
  predicate HasCalendar(c: Competition) {
    c.googleCalendar.Some? && Truthy(c.googleCalendar.value.calendarId)
  }

  /** `comp.isActive !== false`: not marked inactive, which includes never marked at all. */
  predicate NotInactive(c: Competition) {
    c.isActive != Some(false)
  }

  /** The text a template literal prints for an optional string (`undefined` when missing). */
  function Shown(o: Option<string>): string {
    if o.Some? then o.value else "undefined"
  }
}
