/**
 * The setup wizard: one session per (guild, administrator), at a step from 2
 * to 7. Steps 2 to 4 read the post, support and vent channels, step 5 the
 * ping style, the time-zone menu moves the session to step 7, and step 7
 * reads the check-in time and completes. A rejected reply leaves the session
 * as it was.
 */
module Wizard {
  import opened Types
  import opened Text
  import opened Parsers

  /** `setup_sessions[guild][user]`, without the message handle. */
  datatype Session = Session(step: int, data: Config)

  /** The session `!setup` creates. */
  const FirstSession := Session(2, EmptyConfig)

  /**
   * What a session holds at each step. A session at step 7 is only known to
   * have a time zone: the time-zone menu moves any session there. Only at
   * step 7 may it hold a time, left there by a completion that failed and
   * whose error notice failed too.
   */
  predicate WellFormedSession(s: Session)
  {
    && 2 <= s.step <= 7
    && (s.step < 7 ==> s.data.time.None?)
    && (3 <= s.step <= 6 ==> s.data.postChannel.Some?)
    && (4 <= s.step <= 6 ==> s.data.supportChannel.Some?)
    && (5 <= s.step <= 6 ==> s.data.ventChannel.Some?)
    && (s.step == 6 ==> s.data.ping.Some?)
    && (s.step == 7 ==> s.data.timezone.Some?)
  }

  type Sessions = map<GuildId, map<UserId, Session>>

  ghost predicate SessionsWellFormed(sessions: Sessions)
  {
    forall g, u :: g in sessions && u in sessions[g] ==> WellFormedSession(sessions[g][u])
  }

  predicate HasSession(sessions: Sessions, g: GuildId, u: UserId)
  {
    g in sessions && u in sessions[g]
  }

  /** The reply's effect on the session. */
  datatype Reply =
    | Advance(next: Session)   // valid input: the next step
    | Reject                   // invalid input: the session stays as it was
    | Ignore                   // a step that reads no reply (6, the time-zone menu)
    | Complete(settings: Config)  // a valid time at step 7

  /**
   * The validation of `handle_setup_response` for a reply `content` in a
   * guild with channels `guild`; the reply is stripped first.
   */
  function Respond(s: Session, content: string, guild: seq<Channel>): Reply
  {
    var c := Strip(content);
    if s.step == 2 || s.step == 3 || s.step == 4 then ChannelReply(s, ParseChannel(guild, c))
    else if s.step == 5 then PingReply(s, ParsePing(c))
    else if s.step == 7 then TimeReply(s, ParseTime(c))
    else Ignore
  }

  /** Steps 2, 3 and 4: the channel found, if any, is stored and the session advances. */
  function ChannelReply(s: Session, found: Option<Channel>): Reply
  {
    match found
    case None => Reject
    case Some(ch) =>
      if s.step == 2 then Advance(Session(3, s.data.(postChannel := Some(ch.id))))
      else if s.step == 3 then Advance(Session(4, s.data.(supportChannel := Some(ch.id))))
      else Advance(Session(5, s.data.(ventChannel := Some(ch.id))))
  }

  /** Step 5: the ping style read, if any, is stored and the session advances. */
  function PingReply(s: Session, p: Option<Ping>): Reply
  {
    match p
    case None => Reject
    case Some(p) => Advance(Session(6, s.data.(ping := Some(p))))
  }

  /** Step 7: the time read, if any, completes the session's settings. */
  function TimeReply(s: Session, t: Option<string>): Reply
  {
    match t
    case None => Reject
    case Some(t) => Complete(s.data.(time := Some(t)))
  }

  /** The time-zone menu: the choice is stored and the session moves to step 7, whatever its step. */
  function ChooseTimezone(s: Session, zone: string): Session
  {
    Session(7, s.data.(timezone := Some(zone)))
  }

  /**
   * Each valid reply moves one step forward, records exactly the value it
   * read, and keeps the session well formed; a completed session's settings
   * hold the time in `HH:MM` form and everything the session held.
   */
  lemma RespondKeepsWellFormed(s: Session, content: string, guild: seq<Channel>)
    requires WellFormedSession(s)
    ensures var r := Respond(s, content, guild);
      && (r.Advance? ==> WellFormedSession(r.next) && r.next.step == s.step + 1 && 2 <= s.step <= 5)
      && (r.Complete? ==> s.step == 7 && r.settings.time.Some? && IsClockTime(r.settings.time.value)
                          && ParseStoredTime(r.settings.time.value) == ParseStoredTime(Strip(content))
                          && r.settings == s.data.(time := r.settings.time)
                          && WellFormedSession(Session(7, r.settings)))
      && (r.Ignore? <==> s.step == 6)
  {
  }

  /** The channel steps store the id of the channel `parse_channel` found, and nothing else. */
  lemma ChannelStepStoresParsed(s: Session, content: string, guild: seq<Channel>)
    requires 2 <= s.step <= 4
    ensures var found := ParseChannel(guild, Strip(content));
      var r := Respond(s, content, guild);
      && (found.None? <==> r == Reject)
      && (found.Some? ==> r.Advance?)
      && (found.Some? && s.step == 2 ==> r.next.data == s.data.(postChannel := Some(found.value.id)))
      && (found.Some? && s.step == 3 ==> r.next.data == s.data.(supportChannel := Some(found.value.id)))
      && (found.Some? && s.step == 4 ==> r.next.data == s.data.(ventChannel := Some(found.value.id)))
  {
  }

  /** Step 5 accepts exactly the six keywords and stores the style they select. */
  lemma PingStepStoresStyle(s: Session, content: string, guild: seq<Channel>, p: Ping)
    requires s.step == 5
    ensures Respond(s, content, guild) == Advance(Session(6, s.data.(ping := Some(p))))
        <==> Lower(Strip(content)) in Aliases(p)
  {
  }

  /** Step 7 accepts a time written as two integers in range and stores it zero-padded. */
  lemma TimeStepStoresPadded(s: Session, hour: nat, minute: nat, guild: seq<Channel>)
    requires s.step == 7 && hour < 24 && minute < 60
    ensures Respond(s, FormatTime(hour, minute), guild) == Complete(s.data.(time := Some(FormatTime(hour, minute))))
  {
    var t := FormatTime(hour, minute);
    StripClockTime(t);
    ParseTimeFormatted(hour, minute);
    RespondAtStepSeven(s, t, guild);
  }

  /**
   * Step 7 accepts any reply whose stripped form is two integers in range
   * around one `:`, however spaced or padded, and stores the time padded.
   */
  lemma TimeStepStoresTyped(s: Session, content: string, guild: seq<Channel>, hour: int, minute: int)
    requires s.step == 7
    requires Count(Strip(content), ':') == 1 && ParseStoredTime(Strip(content)) == Some((hour, minute))
    requires 0 <= hour < 24 && 0 <= minute < 60
    ensures Respond(s, content, guild) == Complete(s.data.(time := Some(FormatTime(hour, minute))))
  {
    ParseTimeAccepts(Strip(content), hour, minute);
    assert !(s.step == 2 || s.step == 3 || s.step == 4) && s.step != 5;
  }

  lemma RespondAtStepSeven(s: Session, t: string, guild: seq<Channel>)
    requires s.step == 7 && Strip(t) == t && ParseTime(t) == Some(t)
    ensures Respond(s, t, guild) == Complete(s.data.(time := Some(t)))
  {
    assert !(s.step == 2 || s.step == 3 || s.step == 4) && s.step != 5;
    assert ParseTime(Strip(t)) == Some(t);
  }

  lemma PingStep(s: Session, content: string, guild: seq<Channel>, p: Ping)
    requires s.step == 5 && ParsePing(Strip(content)) == Some(p)
    ensures Respond(s, content, guild) == Advance(Session(6, s.data.(ping := Some(p))))
  {
  }

  lemma StripClockTime(t: string)
    requires |t| == 5 && IsDigit(t[0]) && IsDigit(t[4])
    ensures Strip(t) == t
  {
    assert !IsSpace(t[0]) && !IsSpace(t[4]);
    assert TrimLeft(t, Whitespace) == t;
  }

  /**
   * The whole wizard: from a fresh session, three channel replies, a ping
   * keyword, a time-zone choice and a valid time produce settings holding
   * exactly those answers.
   */
  lemma WizardRun(guild: seq<Channel>, c2: string, c3: string, c4: string, c5: string, c6: string, zone: string,
                  post: Channel, support: Channel, vent: Channel, p: Ping, hour: nat, minute: nat)
    requires ParseChannel(guild, Strip(c2)) == Some(post)
    requires ParseChannel(guild, Strip(c3)) == Some(support)
    requires ParseChannel(guild, Strip(c4)) == Some(vent)
    requires ParsePing(Strip(c5)) == Some(p)
    requires hour < 24 && minute < 60
    ensures var s3 := Session(3, Config(Some(post.id), None, None, None, None, None));
      var s4 := Session(4, Config(Some(post.id), Some(support.id), None, None, None, None));
      var s5 := Session(5, Config(Some(post.id), Some(support.id), Some(vent.id), None, None, None));
      var s6 := Session(6, Config(Some(post.id), Some(support.id), Some(vent.id), Some(p), None, None));
      && Respond(FirstSession, c2, guild) == Advance(s3)
      && Respond(s3, c3, guild) == Advance(s4)
      && Respond(s4, c4, guild) == Advance(s5)
      && Respond(s5, c5, guild) == Advance(s6)
      && Respond(s6, c6, guild) == Ignore
      && Respond(ChooseTimezone(s6, zone), FormatTime(hour, minute), guild)
         == Complete(Config(Some(post.id), Some(support.id), Some(vent.id), Some(p), Some(zone), Some(FormatTime(hour, minute))))
  {
    var s3 := Session(3, Config(Some(post.id), None, None, None, None, None));
    var s4 := Session(4, Config(Some(post.id), Some(support.id), None, None, None, None));
    var s5 := Session(5, Config(Some(post.id), Some(support.id), Some(vent.id), None, None, None));
    var s6 := Session(6, Config(Some(post.id), Some(support.id), Some(vent.id), Some(p), None, None));
    ChannelStepStoresParsed(FirstSession, c2, guild);
    ChannelStepStoresParsed(s3, c3, guild);
    ChannelStepStoresParsed(s4, c4, guild);
    PingStep(s5, c5, guild, p);
    assert Respond(s6, c6, guild) == Ignore;
    TimeStepStoresPadded(ChooseTimezone(s6, zone), hour, minute, guild);
  }

  /** The session map with `(g, u)` removed, and the guild's entry too once it is empty. */
  function WithoutSession(sessions: Sessions, g: GuildId, u: UserId): (r: Sessions)
    requires HasSession(sessions, g, u)
    ensures !HasSession(r, g, u)
    ensures g in r ==> r[g] == sessions[g] - {u} && r[g] != map[]
    ensures forall h :: h != g ==> Get(r, h) == Get(sessions, h)
  {
    var rest := sessions[g] - {u};
    if rest == map[] then sessions - {g} else sessions[g := rest]
  }

  /** Removing a session keeps the others well formed. */
  lemma WithoutSessionWellFormed(sessions: Sessions, g: GuildId, u: UserId)
    requires SessionsWellFormed(sessions) && HasSession(sessions, g, u)
    ensures SessionsWellFormed(WithoutSession(sessions, g, u))
  {
  }

  /** The session map with `(g, u)` set to `s`. */
  function WithSession(sessions: Sessions, g: GuildId, u: UserId, s: Session): (r: Sessions)
    ensures HasSession(r, g, u) && r[g][u] == s
    ensures forall v :: v != u ==> Get(GetOr(r, g, map[]), v) == Get(GetOr(sessions, g, map[]), v)
    ensures forall h :: h != g ==> Get(r, h) == Get(sessions, h)
  {
    sessions[g := GetOr(sessions, g, map[])[u := s]]
  }

  lemma WithSessionWellFormed(sessions: Sessions, g: GuildId, u: UserId, s: Session)
    requires SessionsWellFormed(sessions) && WellFormedSession(s)
    ensures SessionsWellFormed(WithSession(sessions, g, u, s))
  {
    var r := WithSession(sessions, g, u, s);
    forall h, v | h in r && v in r[h] ensures WellFormedSession(r[h][v]) {
      if h != g {
        assert Get(r, h) == Get(sessions, h);
      } else if v != u {
        assert Get(GetOr(r, g, map[]), v) == Get(GetOr(sessions, g, map[]), v);
      }
    }
  }
}
