/**
 * The once-a-day check-in rule of the minute-by-minute `daily_checkin` task.
 * A guild with a stored time and time zone is due when its local hour and
 * minute equal the stored `HH:MM` and `last_messages[guild]` does not yet
 * record today's local date; the date is recorded whether or not the post
 * itself succeeded.
 */
module Checkin {
  import opened Types
  import opened Text
  import opened Parsers

  /** The guild's local clock at this tick: `%Y-%m-%d`, hour and minute. */
  datatype LocalTime = LocalTime(date: string, hour: int, minute: int)

  /** `last_messages[guild]`: the last check-in message and the last date the check-in fired. */
  datatype CheckinState = CheckinState(dailyCheckin: Option<MessageId>, lastCheckinDate: Option<string>)

  /** The empty dictionary the tick creates for a guild seen for the first time. */
  const NoCheckin := CheckinState(None, None)

  function EntryOrNew(entry: Option<CheckinState>): CheckinState
  {
    if entry.Some? then entry.value else NoCheckin
  }

  /** The guild takes part in the tick: both `time` and `timezone` are present. */
  predicate Scheduled(cfg: Config)
  {
    cfg.time.Some? && cfg.timezone.Some?
  }

  /**
   * The stored time reads as an hour and a minute equal to the local clock's.
   * A time that does not read (the `except` that skips the guild) never matches.
   */
  predicate TimeMatches(cfg: Config, now: LocalTime)
  {
    && cfg.time.Some?
    && match ParseStoredTime(cfg.time.value)
       case Some((h, m)) => h == now.hour && m == now.minute
       case None => false
  }

  /** The tick calls `post_daily_checkin`: the time matches and today is not yet recorded. */
  predicate Due(entry: Option<CheckinState>, cfg: Config, now: LocalTime)
  {
    TimeMatches(cfg, now) && EntryOrNew(entry).lastCheckinDate != Some(now.date)
  }

  /** `post_daily_checkin` reaches its send only when these settings are present. */
  predicate Postable(cfg: Config)
  {
    cfg.postChannel.Some? && cfg.supportChannel.Some? && cfg.ping.Some?
  }

  /**
   * The one state change of `post_daily_checkin`: once the message is sent,
   * its id becomes `last_messages[guild]['daily_checkin']`. `sent` is the
   * platform's outcome: `None` when the guild or a channel is missing or a
   * call fails, errors the function swallows.
   */
  function AfterPost(entry: Option<CheckinState>, cfg: Config, sent: Option<MessageId>): (r: Option<CheckinState>)
    ensures r.Some? ==> r.value.lastCheckinDate == EntryOrNew(entry).lastCheckinDate
    ensures r.Some? && r != entry ==> Postable(cfg) && r.value.dailyCheckin == sent && sent.Some?
    ensures Postable(cfg) && sent.Some? ==> r.Some? && r.value.dailyCheckin == sent
  {
    if Postable(cfg) && sent.Some? then Some(EntryOrNew(entry).(dailyCheckin := sent)) else entry
  }

  /** One guild's part of a tick, at local time `now`, with `sent` the outcome of the post if one is made. */
  function AfterTick(entry: Option<CheckinState>, cfg: Config, now: LocalTime, sent: Option<MessageId>): Option<CheckinState>
  {
    if !TimeMatches(cfg, now) then entry
    else if !Due(entry, cfg, now) then Some(EntryOrNew(entry))
    else Some(AfterPost(Some(EntryOrNew(entry)), cfg, sent).value.(lastCheckinDate := Some(now.date)))
  }

  /** A scheduled guild's clock; `clock` stands for the time-zone conversion (UTC for an unknown zone). */
  function LocalNow(cfg: Config, clock: string -> LocalTime): LocalTime
    requires Scheduled(cfg)
  {
    clock(cfg.timezone.value)
  }

  /** The tick posts for this guild. */
  predicate GuildDue(entry: Option<CheckinState>, cfg: Config, clock: string -> LocalTime)
  {
    Scheduled(cfg) && Due(entry, cfg, LocalNow(cfg, clock))
  }

  /** One guild's part of a tick; an unscheduled guild is skipped. */
  function GuildTick(entry: Option<CheckinState>, cfg: Config, clock: string -> LocalTime, sent: Option<MessageId>): Option<CheckinState>
  {
    if Scheduled(cfg) then AfterTick(entry, cfg, LocalNow(cfg, clock), sent) else entry
  }

  /** A guild without a time or a time zone is neither posted to nor changed. */
  lemma UnscheduledSkipped(entry: Option<CheckinState>, cfg: Config, clock: string -> LocalTime, sent: Option<MessageId>)
    requires cfg.time.None? || cfg.timezone.None?
    ensures !GuildDue(entry, cfg, clock)
    ensures GuildTick(entry, cfg, clock, sent) == entry
  {
  }

  /** When the time matches, the tick leaves today's date recorded, posted or not. */
  lemma TickRecordsToday(entry: Option<CheckinState>, cfg: Config, now: LocalTime, sent: Option<MessageId>)
    requires TimeMatches(cfg, now)
    ensures var r := AfterTick(entry, cfg, now, sent);
      r.Some? && r.value.lastCheckinDate == Some(now.date)
  {
  }

  /** A tick that does not post changes nothing but the creation of an empty entry. */
  lemma NotDueUnchanged(entry: Option<CheckinState>, cfg: Config, now: LocalTime, sent: Option<MessageId>)
    requires !Due(entry, cfg, now)
    ensures AfterTick(entry, cfg, now, sent) == entry
      || (entry.None? && TimeMatches(cfg, now) && AfterTick(entry, cfg, now, sent) == Some(NoCheckin))
  {
  }

  /** Once a tick has matched, no later tick on the same local date posts again. */
  lemma NoSecondPostSameDay(entry: Option<CheckinState>, cfg: Config, now: LocalTime, sent: Option<MessageId>, later: LocalTime)
    requires TimeMatches(cfg, now)
    requires later.date == now.date
    ensures !Due(AfterTick(entry, cfg, now, sent), cfg, later)
  {
    TickRecordsToday(entry, cfg, now, sent);
  }

  /**
   * A failed post (`post_daily_checkin` swallows its errors) still records
   * the date, so the check-in is not retried that day; the previous message
   * id is kept.
   */
  lemma FailedPostStillRecorded(entry: Option<CheckinState>, cfg: Config, now: LocalTime)
    requires Due(entry, cfg, now)
    ensures AfterTick(entry, cfg, now, None) == Some(EntryOrNew(entry).(lastCheckinDate := Some(now.date)))
  {
  }

  /** A successful post records both the new message and today's date. */
  lemma PostRecorded(entry: Option<CheckinState>, cfg: Config, now: LocalTime, id: MessageId)
    requires Due(entry, cfg, now) && Postable(cfg)
    ensures AfterTick(entry, cfg, now, Some(id)) == Some(CheckinState(Some(id), Some(now.date)))
  {
  }

  /** A time stored by the setup wizard matches the clock exactly at that hour and minute. */
  lemma MatchesStoredTime(hour: nat, minute: nat, cfg: Config, now: LocalTime)
    requires hour < 24 && minute < 60
    requires cfg.time == Some(FormatTime(hour, minute))
    ensures TimeMatches(cfg, now) <==> now.hour == hour && now.minute == minute
  {
    ParseStoredTimeFormatted(hour, minute);
  }

  /** The number of ticks that post, for a series of ticks with their post outcomes. */
  function Posts(entry: Option<CheckinState>, cfg: Config, nows: seq<LocalTime>, sents: seq<Option<MessageId>>): nat
    requires |sents| == |nows|
    decreases |nows|
  {
    if |nows| == 0 then 0
    else
      (if Due(entry, cfg, nows[0]) then 1 else 0)
      + Posts(AfterTick(entry, cfg, nows[0], sents[0]), cfg, nows[1..], sents[1..])
  }

  lemma {:induction false} NoPostsOnceRecorded(entry: Option<CheckinState>, cfg: Config, nows: seq<LocalTime>, sents: seq<Option<MessageId>>, day: string)
    requires |sents| == |nows|
    requires EntryOrNew(entry).lastCheckinDate == Some(day)
    requires forall i :: 0 <= i < |nows| ==> nows[i].date == day
    ensures Posts(entry, cfg, nows, sents) == 0
    decreases |nows|
  {
    if |nows| > 0 {
      assert !Due(entry, cfg, nows[0]);
      NotDueUnchanged(entry, cfg, nows[0], sents[0]);
      NoPostsOnceRecorded(AfterTick(entry, cfg, nows[0], sents[0]), cfg, nows[1..], sents[1..], day);
    }
  }

  /** However many ticks fall on one local date, at most one of them posts. */
  lemma {:induction false} AtMostOncePerDay(entry: Option<CheckinState>, cfg: Config, nows: seq<LocalTime>, sents: seq<Option<MessageId>>, day: string)
    requires |sents| == |nows|
    requires forall i :: 0 <= i < |nows| ==> nows[i].date == day
    ensures Posts(entry, cfg, nows, sents) <= 1
    decreases |nows|
  {
    if |nows| > 0 {
      var next := AfterTick(entry, cfg, nows[0], sents[0]);
      if Due(entry, cfg, nows[0]) {
        TickRecordsToday(entry, cfg, nows[0], sents[0]);
        NoPostsOnceRecorded(next, cfg, nows[1..], sents[1..], day);
      } else {
        NotDueUnchanged(entry, cfg, nows[0], sents[0]);
        AtMostOncePerDay(next, cfg, nows[1..], sents[1..], day);
      }
    }
  }

  /**
   * A guild set up for 09:00 posts at its first 09:00 tick of a day, not at
   * a second 09:00 tick nor at 09:01, and again at 09:00 the next day.
   */
  lemma NineOClockScenario(id: MessageId, today: string, tomorrow: string)
    requires today != tomorrow
    ensures var cfg := Config(Some(1), Some(2), Some(3), Some(Everyone), Some("UTC"), Some(FormatTime(9, 0)));
      var nine := LocalTime(today, 9, 0);
      var first := AfterTick(None, cfg, nine, Some(id));
      && Due(None, cfg, nine)
      && first == Some(CheckinState(Some(id), Some(today)))
      && !Due(first, cfg, nine)
      && !Due(first, cfg, LocalTime(today, 9, 1))
      && Due(first, cfg, LocalTime(tomorrow, 9, 0))
  {
    var cfg := Config(Some(1), Some(2), Some(3), Some(Everyone), Some("UTC"), Some(FormatTime(9, 0)));
    var nine := LocalTime(today, 9, 0);
    MatchesStoredTime(9, 0, cfg, nine);
    MatchesStoredTime(9, 0, cfg, LocalTime(today, 9, 1));
    MatchesStoredTime(9, 0, cfg, LocalTime(tomorrow, 9, 0));
    PostRecorded(None, cfg, nine, id);
  }
}
