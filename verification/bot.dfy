/**
 * The bot's state: the seven dictionaries `main.py` keeps at module level,
 * as the fields of one object, and the functions that update them in place.
 * Each method is specified by the functions of the other modules; the
 * object's invariant ties the audit log, the access codes and their grants,
 * and the setup sessions to the properties proved there.
 */
module Bot {
  import opened Types
  import opened Audit
  import opened Access
  import opened Checkin
  import opened Sticky
  import opened Wizard
  import Parsers

  /** What `!view_logs` answers. */
  datatype ViewResult =
    | NoCode                                  // no code given
    | Denied                                  // unknown or already used code
    | NoLogs                                  // nothing logged for this guild
    | Logs(total: nat, lines: seq<LogLine>)   // the count and the last ten records

  /** What `!setup` answers. */
  datatype SetupStart = NotAdmin | AlreadyRunning | StartFailed | Started

  /**
   * The effect of a reply to the wizard. `Aborted`: a platform call failed,
   * the error notice was sent and the session was dropped. `Crashed`: the
   * error notice failed too, so the exception escaped before the session
   * was dropped, and the session stays as the step left it.
   */
  datatype SetupOutcome = Ignored | Rejected | Advanced | Completed | Aborted | Crashed

  /** The outcome of a step whose platform calls failed, by whether the error notice went out. */
  function Failure(noticeOk: bool): SetupOutcome
  {
    if noticeOk then Aborted else Crashed
  }

  /**
   * The completion of step 7 goes through: the three channels, the ping and
   * the time zone are in the settings, the channels exist, the platform
   * calls succeed and the sticky message is sent.
   */
  predicate CompletionSucceeds(cfg: Config, guild: seq<Channel>, callsOk: bool, stickyId: Option<MessageId>)
  {
    && cfg.postChannel.Some? && cfg.supportChannel.Some? && cfg.ventChannel.Some? && cfg.ping.Some?
    && cfg.timezone.Some?
    && Parsers.GetChannel(guild, cfg.postChannel.value).Some?
    && Parsers.GetChannel(guild, cfg.supportChannel.value).Some?
    && Parsers.GetChannel(guild, cfg.ventChannel.value).Some?
    && callsOk && stickyId.Some?
  }

  class Bot {
    var serverSettings: map<GuildId, Config>
    var lastMessages: map<GuildId, CheckinState>
    var stickyMessages: map<GuildId, StickyRef>
    var anonLogs: map<GuildId, seq<LogEntry>>
    var accessCodes: map<GuildId, GuildCodes>
    var moderatorAccess: map<GuildId, seq<Grant>>
    var setupSessions: Sessions

    ghost predicate Valid()
      reads this
    {
      && LogsWellFormed(anonLogs)
      && AuditConsistent(accessCodes, moderatorAccess)
      && SessionsWellFormed(setupSessions)
    }

    /** The stores as loaded at start-up; there are no setup sessions yet. */
    constructor(
      settings: map<GuildId, Config>, last: map<GuildId, CheckinState>, sticky: map<GuildId, StickyRef>,
      logs: map<GuildId, seq<LogEntry>>, codes: map<GuildId, GuildCodes>, grants: map<GuildId, seq<Grant>>)
      requires LogsWellFormed(logs) && AuditConsistent(codes, grants)
      ensures Valid()
      ensures serverSettings == settings && lastMessages == last && stickyMessages == sticky
      ensures anonLogs == logs && accessCodes == codes && moderatorAccess == grants
      ensures setupSessions == map[]
    {
      serverSettings := settings;
      lastMessages := last;
      stickyMessages := sticky;
      anonLogs := logs;
      accessCodes := codes;
      moderatorAccess := grants;
      setupSessions := map[];
    }

    /* ---------- audit log ---------- */

    /**
     * `log_anonymous_message`: appends one record to the guild's log,
     * creating the log first if needed. `hexDigest` is the SHA-256 digest
     * of the content and `timestamp` the current time.
     */
    method LogAnonymousMessage(
      g: GuildId, content: seq<byte>, channel: ChannelId, user: UserId,
      username: seq<byte>, displayName: seq<byte>, timestamp: string, hexDigest: string)
      requires Valid() && |hexDigest| == 64
      modifies this`anonLogs
      ensures Valid()
      ensures anonLogs == Appended(old(anonLogs), g, NewEntry(timestamp, g, channel, user, username, displayName, content, hexDigest))
    {
      var entry := NewEntry(timestamp, g, channel, user, username, displayName, content, hexDigest);
      AppendNewEntry(anonLogs, timestamp, g, channel, user, username, displayName, content, hexDigest);
      if g !in anonLogs {
        anonLogs := anonLogs[g := []];
      }
      anonLogs := anonLogs[g := anonLogs[g] + [entry]];
    }

    /* ---------- access codes ---------- */

    /** `generate_access_code`, with `code` the fresh random code and `now` the current time. */
    method GenerateAccessCode(g: GuildId, code: string, now: string) returns (issued: string)
      requires Valid()
      requires code !in GetOr(accessCodes, g, map[])
      modifies this`accessCodes
      ensures Valid()
      ensures issued == code
      ensures accessCodes == Issued(old(accessCodes), g, code, now)
      ensures CanRedeem(accessCodes, g, issued)
    {
      IssueKeepsAudit(accessCodes, moderatorAccess, g, code, now);
      var forGuild: GuildCodes := if g in accessCodes then accessCodes[g] else map[];
      accessCodes := accessCodes[g := forGuild[code := CodeInfo(now, false, None, None)]];
      issued := code;
    }

    /**
     * `use_access_code`: succeeds exactly on a known, unused code of the
     * guild, marking it used by `user` and appending one grant; otherwise
     * nothing changes. Either way the code cannot be redeemed afterwards.
     */
    method UseAccessCode(g: GuildId, code: string, user: UserId, usedAt: string, accessedAt: string) returns (ok: bool)
      requires Valid()
      modifies this`accessCodes, this`moderatorAccess
      ensures Valid()
      ensures ok == CanRedeem(old(accessCodes), g, code)
      ensures ok ==> accessCodes == Redeemed(old(accessCodes), g, code, user, usedAt)
      ensures ok ==> moderatorAccess == WithGrant(old(moderatorAccess), g, Grant(user, accessedAt, code))
      ensures !ok ==> accessCodes == old(accessCodes) && moderatorAccess == old(moderatorAccess)
      ensures !CanRedeem(accessCodes, g, code)
    {
      if g !in accessCodes || code !in accessCodes[g] {
        return false;
      }
      if accessCodes[g][code].used {
        return false;
      }
      RedeemKeepsAudit(accessCodes, moderatorAccess, g, code, user, usedAt, accessedAt);
      ghost var codes' := Redeemed(accessCodes, g, code, user, usedAt);
      ghost var grants' := WithGrant(moderatorAccess, g, Grant(user, accessedAt, code));
      var info := accessCodes[g][code];
      accessCodes := accessCodes[g := accessCodes[g][code := info.(used := true, usedBy := Some(user), usedAt := Some(usedAt))]];
      assert accessCodes == codes';
      if g !in moderatorAccess {
        moderatorAccess := moderatorAccess[g := []];
      }
      moderatorAccess := moderatorAccess[g := moderatorAccess[g] + [Grant(user, accessedAt, code)]];
      assert moderatorAccess == grants';
      return true;
    }

    /**
     * `!view_logs code`: the code is redeemed first, so it is spent (and a
     * grant recorded) even when there is nothing to show; a refused code
     * changes nothing. Only then are the last ten records of the guild
     * shown, oldest first, none of them as a decoding error.
     */
    method ViewLogs(g: GuildId, code: string, user: UserId, usedAt: string, accessedAt: string) returns (r: ViewResult)
      requires Valid()
      modifies this`accessCodes, this`moderatorAccess
      ensures Valid()
      ensures r == NoCode <==> |code| == 0
      ensures r != NoCode && r != Denied <==> |code| > 0 && CanRedeem(old(accessCodes), g, code)
      ensures r.Logs? <==> |code| > 0 && CanRedeem(old(accessCodes), g, code) && |GetOr(anonLogs, g, [])| > 0
      ensures r.Logs? ==> r.total == |anonLogs[g]| && r.lines == ViewLines(anonLogs[g])
      ensures r.Logs? ==> forall i :: 0 <= i < |r.lines| ==> r.lines[i].Shown?
      ensures r == NoCode || r == Denied ==> accessCodes == old(accessCodes) && moderatorAccess == old(moderatorAccess)
      ensures r.Logs? || r == NoLogs ==>
        && accessCodes == Redeemed(old(accessCodes), g, code, user, usedAt)
        && moderatorAccess == WithGrant(old(moderatorAccess), g, Grant(user, accessedAt, code))
    {
      if |code| == 0 {
        return NoCode;
      }
      var ok := UseAccessCode(g, code, user, usedAt, accessedAt);
      if !ok {
        return Denied;
      }
      if g !in anonLogs || |anonLogs[g]| == 0 {
        return NoLogs;
      }
      var logs := anonLogs[g];
      WellFormedViewReadable(g, logs);
      r := Logs(|logs|, ViewLines(logs));
    }

    /* ---------- daily check-in ---------- */

    /**
     * The state change of `post_daily_checkin`: with the guild configured
     * and the message sent (`sent`), its id is remembered.
     */
    method PostDailyCheckin(g: GuildId, sent: Option<MessageId>)
      modifies this`lastMessages
      ensures g in serverSettings ==> Get(lastMessages, g) == AfterPost(Get(old(lastMessages), g), serverSettings[g], sent)
      ensures g !in serverSettings ==> lastMessages == old(lastMessages)
      ensures forall h :: h != g ==> Get(lastMessages, h) == Get(old(lastMessages), h)
    {
      if g !in serverSettings {
        return;
      }
      var cfg := serverSettings[g];
      if !Postable(cfg) || sent.None? {
        return;
      }
      if g !in lastMessages {
        lastMessages := lastMessages[g := NoCheckin];
      }
      lastMessages := lastMessages[g := lastMessages[g].(dailyCheckin := sent)];
    }

    /**
     * One tick of `daily_checkin` over every configured guild. `clock` gives
     * the local time in a time zone and `postResult` the outcome of each
     * guild's post. Every guild ends as `GuildTick` says, and the posts made
     * are exactly those to the guilds that were due.
     */
    method DailyCheckin(clock: string -> LocalTime, postResult: GuildId -> Option<MessageId>) returns (posted: set<GuildId>)
      modifies this`lastMessages
      ensures forall h ::
                Get(lastMessages, h)
                == if h in serverSettings then GuildTick(Get(old(lastMessages), h), serverSettings[h], clock, postResult(h))
                   else Get(old(lastMessages), h)
      ensures forall h :: h in posted <==> h in serverSettings && GuildDue(Get(old(lastMessages), h), serverSettings[h], clock)
    {
      var todo := serverSettings.Keys;
      posted := {};
      while todo != {}
        invariant todo <= serverSettings.Keys
        invariant forall h ::
                    Get(lastMessages, h)
                    == if h in serverSettings && h !in todo then GuildTick(Get(old(lastMessages), h), serverSettings[h], clock, postResult(h))
                       else Get(old(lastMessages), h)
        invariant forall h :: h in posted <==>
          h in serverSettings && h !in todo && GuildDue(Get(old(lastMessages), h), serverSettings[h], clock)
        decreases |todo|
      {
        var g :| g in todo;
        ghost var before := lastMessages;
        var didPost := CheckinGuild(g, clock, postResult(g));
        if didPost {
          posted := posted + {g};
        }
        todo := todo - {g};
        forall h | h != g
          ensures Get(lastMessages, h)
                  == if h in serverSettings && h !in todo then GuildTick(Get(old(lastMessages), h), serverSettings[h], clock, postResult(h))
                     else Get(old(lastMessages), h)
        {
          assert Get(lastMessages, h) == Get(before, h);
        }
      }
    }

    /** The body of the tick's loop for guild `g`, with `sent` the outcome of its post. */
    method CheckinGuild(g: GuildId, clock: string -> LocalTime, sent: Option<MessageId>) returns (didPost: bool)
      requires g in serverSettings
      modifies this`lastMessages
      ensures Get(lastMessages, g) == GuildTick(Get(old(lastMessages), g), serverSettings[g], clock, sent)
      ensures didPost == GuildDue(Get(old(lastMessages), g), serverSettings[g], clock)
      ensures forall h :: h != g ==> Get(lastMessages, h) == Get(old(lastMessages), h)
    {
      var cfg := serverSettings[g];
      didPost := false;
      if !Scheduled(cfg) {
        return;
      }
      var now := clock(cfg.timezone.value);
      if !TimeMatches(cfg, now) {
        return;
      }
      didPost := CheckinAt(g, now, sent);
    }

    /** A guild whose time matches: the due check and, when due, the post and the date. */
    method CheckinAt(g: GuildId, now: LocalTime, sent: Option<MessageId>) returns (didPost: bool)
      requires g in serverSettings && TimeMatches(serverSettings[g], now)
      modifies this`lastMessages
      ensures Get(lastMessages, g) == AfterTick(Get(old(lastMessages), g), serverSettings[g], now, sent)
      ensures didPost == Due(Get(old(lastMessages), g), serverSettings[g], now)
      ensures forall h :: h != g ==> Get(lastMessages, h) == Get(old(lastMessages), h)
    {
      if g !in lastMessages {
        lastMessages := lastMessages[g := NoCheckin];
      }
      ghost var created := lastMessages;
      didPost := lastMessages[g].lastCheckinDate != Some(now.date);
      if didPost {
        PostDailyCheckin(g, sent);
        assert forall h :: h != g ==> Get(lastMessages, h) == Get(created, h);
        lastMessages := lastMessages[g := lastMessages[g].(lastCheckinDate := Some(now.date))];
      }
      forall h | h != g ensures Get(lastMessages, h) == Get(old(lastMessages), h) {
        assert Get(created, h) == Get(old(lastMessages), h);
      }
    }

    /* ---------- sticky message ---------- */

    /** `create_new_sticky_message`: the sent sticky (`sent`) becomes the guild's entry. */
    method CreateNewStickyMessage(g: GuildId, channel: ChannelId, sent: Option<MessageId>)
      modifies this`stickyMessages
      ensures Get(stickyMessages, g) == AfterCreate(Get(old(stickyMessages), g), channel, sent)
      ensures forall h :: h != g ==> Get(stickyMessages, h) == Get(old(stickyMessages), h)
    {
      if sent.Some? {
        stickyMessages := stickyMessages[g := FullRef(sent.value, channel)];
      }
    }

    /** `setup_vent_channel`: the same update, for the sticky the wizard posts on completion. */
    method SetupVentChannel(g: GuildId, vent: ChannelId, sent: Option<MessageId>)
      modifies this`stickyMessages
      ensures Get(stickyMessages, g) == AfterCreate(Get(old(stickyMessages), g), vent, sent)
      ensures forall h :: h != g ==> Get(stickyMessages, h) == Get(old(stickyMessages), h)
    {
      CreateNewStickyMessage(g, vent, sent);
    }

    /** `handle_sticky_message` for message `msg` posted in `channel` of guild `g`. */
    method HandleStickyMessage(g: GuildId, channel: ChannelId, msg: MessageId, io: StickyIo)
      modifies this`stickyMessages
      ensures Get(stickyMessages, g) == AfterMessage(Get(old(stickyMessages), g), Get(serverSettings, g), channel, msg, io)
      ensures forall h :: h != g ==> Get(stickyMessages, h) == Get(old(stickyMessages), h)
    {
      if Decide(Get(stickyMessages, g), Get(serverSettings, g), channel, msg, io) == Repost {
        CreateNewStickyMessage(g, channel, io.repost);
      }
    }

    /* ---------- setup wizard ---------- */

    /**
     * `!setup`: an administrator without a running session gets a fresh one
     * at step 2 once the wizard's first message is sent (`sent`). The
     * guild's session map is created before the check, so it may be left
     * empty. A running session is never replaced.
     */
    method StartSetup(g: GuildId, u: UserId, isAdmin: bool, sent: bool) returns (r: SetupStart)
      requires Valid()
      modifies this`setupSessions
      ensures Valid()
      ensures r == NotAdmin <==> !isAdmin
      ensures r == AlreadyRunning <==> isAdmin && HasSession(old(setupSessions), g, u)
      ensures r == Started <==> isAdmin && !HasSession(old(setupSessions), g, u) && sent
      ensures r == Started ==> setupSessions == WithSession(old(setupSessions), g, u, FirstSession)
      ensures r == NotAdmin ==> setupSessions == old(setupSessions)
      ensures r == AlreadyRunning ==> setupSessions == old(setupSessions)
      ensures r != Started ==> forall v :: Get(GetOr(setupSessions, g, map[]), v) == Get(GetOr(old(setupSessions), g, map[]), v)
      ensures forall h :: h != g ==> Get(setupSessions, h) == Get(old(setupSessions), h)
    {
      if !isAdmin {
        return NotAdmin;
      }
      if g !in setupSessions {
        setupSessions := setupSessions[g := map[]];
      }
      if u in setupSessions[g] {
        return AlreadyRunning;
      }
      if !sent {
        return StartFailed;
      }
      WithSessionWellFormed(setupSessions, g, u, FirstSession);
      var forGuild: map<UserId, Session> := setupSessions[g];
      setupSessions := setupSessions[g := forGuild[u := FirstSession]];
      return Started;
    }

    /** `TimezoneSelect.callback`: with a session, stores the zone and moves it to step 7. */
    method SelectTimezone(g: GuildId, u: UserId, zone: string) returns (found: bool)
      requires Valid()
      modifies this`setupSessions
      ensures Valid()
      ensures found == HasSession(old(setupSessions), g, u)
      ensures found ==> setupSessions == WithSession(old(setupSessions), g, u, ChooseTimezone(old(setupSessions)[g][u], zone))
      ensures !found ==> setupSessions == old(setupSessions)
    {
      if g !in setupSessions || u !in setupSessions[g] {
        return false;
      }
      var s := ChooseTimezone(setupSessions[g][u], zone);
      WithSessionWellFormed(setupSessions, g, u, s);
      var forGuild: map<UserId, Session> := setupSessions[g];
      setupSessions := setupSessions[g := forGuild[u := s]];
      return true;
    }

    /** `setup_sessions[g][u] = s`, or the session dict updated in place. */
    method StoreSession(g: GuildId, u: UserId, s: Session)
      requires SessionsWellFormed(setupSessions) && HasSession(setupSessions, g, u) && WellFormedSession(s)
      modifies this`setupSessions
      ensures SessionsWellFormed(setupSessions)
      ensures setupSessions == WithSession(old(setupSessions), g, u, s)
    {
      WithSessionWellFormed(setupSessions, g, u, s);
      var forGuild: map<UserId, Session> := setupSessions[g];
      setupSessions := setupSessions[g := forGuild[u := s]];
    }

    /** The session removed, with the guild's map once it is empty (the wizard's two `del`s). */
    method EndSession(g: GuildId, u: UserId)
      requires SessionsWellFormed(setupSessions) && HasSession(setupSessions, g, u)
      modifies this`setupSessions
      ensures SessionsWellFormed(setupSessions)
      ensures setupSessions == WithoutSession(old(setupSessions), g, u)
    {
      WithoutSessionWellFormed(setupSessions, g, u);
      setupSessions := setupSessions[g := setupSessions[g] - {u}];
      if setupSessions[g] == map[] {
        setupSessions := setupSessions - {g};
      }
    }

    /**
     * `handle_setup_response` for user `u`'s reply `content` in guild `g`
     * with channels `guild`. `callsOk` says the platform calls of the step
     * succeed, `noticeOk` that the error notice is sent when they do not,
     * and `stickyId` is the sticky the completion posts. A valid reply
     * advances the session; an invalid one leaves it as it was; a valid
     * time writes the settings, then posts the sticky and ends the session.
     * A failure ends the session once the error notice is out; when the
     * notice fails too, the session stays as the step left it.
     */
    method HandleSetupResponse(g: GuildId, u: UserId, content: string, guild: seq<Channel>,
                               callsOk: bool, noticeOk: bool, stickyId: Option<MessageId>)
      returns (r: SetupOutcome)
      requires Valid() && HasSession(setupSessions, g, u)
      modifies this`setupSessions, this`serverSettings, this`stickyMessages
      ensures Valid()
      ensures var reply := Respond(old(setupSessions)[g][u], content, guild);
        && (reply.Ignore? ==> r == Ignored)
        && (reply.Reject? ==> r == (if callsOk then Rejected else Failure(noticeOk)))
        && (reply.Advance? ==> r == (if callsOk then Advanced else Failure(noticeOk)))
        && (reply.Complete? ==> r == (if CompletionSucceeds(reply.settings, guild, callsOk, stickyId) then Completed else Failure(noticeOk)))
        && serverSettings == (if reply.Complete? then old(serverSettings)[g := reply.settings] else old(serverSettings))
        && (r == Advanced || (r == Crashed && reply.Advance?) ==> setupSessions == WithSession(old(setupSessions), g, u, reply.next))
        && (r == Crashed && reply.Complete? ==> setupSessions == WithSession(old(setupSessions), g, u, Session(7, reply.settings)))
        && (r == Crashed && reply.Reject? ==> setupSessions == old(setupSessions))
      ensures r == Completed ==> Parsers.IsClockTime(serverSettings[g].time.value)
      ensures r == Ignored || r == Rejected ==> setupSessions == old(setupSessions)
      ensures r == Completed || r == Aborted ==> setupSessions == WithoutSession(old(setupSessions), g, u)
      ensures r == Completed ==> Get(stickyMessages, g) == Some(FullRef(stickyId.value, serverSettings[g].ventChannel.value))
      ensures r != Completed ==> stickyMessages == old(stickyMessages)
      ensures forall h :: h != g ==> Get(stickyMessages, h) == Get(old(stickyMessages), h)
    {
      var s := setupSessions[g][u];
      var reply := Respond(s, content, guild);
      RespondKeepsWellFormed(s, content, guild);
      r := ApplyReply(g, u, reply, guild, callsOk, noticeOk, stickyId);
    }

    /** The state change of `handle_setup_response` once the reply has been validated. */
    method ApplyReply(g: GuildId, u: UserId, reply: Reply, guild: seq<Channel>,
                      callsOk: bool, noticeOk: bool, stickyId: Option<MessageId>)
      returns (r: SetupOutcome)
      requires Valid() && HasSession(setupSessions, g, u)
      requires reply.Advance? ==> WellFormedSession(reply.next)
      requires reply.Complete? ==>
        reply.settings.time.Some? && Parsers.IsClockTime(reply.settings.time.value) && WellFormedSession(Session(7, reply.settings))
      modifies this`setupSessions, this`serverSettings, this`stickyMessages
      ensures Valid()
      ensures reply.Ignore? ==> r == Ignored
      ensures reply.Reject? ==> r == (if callsOk then Rejected else Failure(noticeOk))
      ensures reply.Advance? ==> r == (if callsOk then Advanced else Failure(noticeOk))
      ensures reply.Complete? ==> r == (if CompletionSucceeds(reply.settings, guild, callsOk, stickyId) then Completed else Failure(noticeOk))
      ensures serverSettings == (if reply.Complete? then old(serverSettings)[g := reply.settings] else old(serverSettings))
      ensures r == Completed ==> Parsers.IsClockTime(serverSettings[g].time.value)
      ensures r == Ignored || r == Rejected || (r == Crashed && reply.Reject?) ==> setupSessions == old(setupSessions)
      ensures r == Advanced || (r == Crashed && reply.Advance?) ==> setupSessions == WithSession(old(setupSessions), g, u, reply.next)
      ensures r == Crashed && reply.Complete? ==> setupSessions == WithSession(old(setupSessions), g, u, Session(7, reply.settings))
      ensures r == Completed || r == Aborted ==> setupSessions == WithoutSession(old(setupSessions), g, u)
      ensures r == Completed ==> Get(stickyMessages, g) == Some(FullRef(stickyId.value, serverSettings[g].ventChannel.value))
      ensures r != Completed ==> stickyMessages == old(stickyMessages)
      ensures forall h :: h != g ==> Get(stickyMessages, h) == Get(old(stickyMessages), h)
    {
      match reply
      case Ignore =>
        r := Ignored;
      case Reject =>
        if callsOk {
          r := Rejected;
        } else if noticeOk {
          EndSession(g, u);
          r := Aborted;
        } else {
          r := Crashed;
        }
      case Advance(next) =>
        // The step is recorded before the wizard message is edited.
        if callsOk || !noticeOk {
          StoreSession(g, u, next);
          r := if callsOk then Advanced else Crashed;
        } else {
          EndSession(g, u);
          r := Aborted;
        }
      case Complete(cfg) =>
        r := CompleteSetup(g, u, cfg, guild, callsOk, noticeOk, stickyId);
    }

    /**
     * The end of step 7: the time is stored in the session and the settings
     * are written first; the sticky is posted only if the rest goes through.
     * The session ends on success and on a reported failure; when the error
     * notice fails, it stays at step 7 holding the settings.
     */
    method CompleteSetup(g: GuildId, u: UserId, cfg: Config, guild: seq<Channel>,
                         callsOk: bool, noticeOk: bool, stickyId: Option<MessageId>)
      returns (r: SetupOutcome)
      requires SessionsWellFormed(setupSessions) && HasSession(setupSessions, g, u)
      requires WellFormedSession(Session(7, cfg))
      modifies this`setupSessions, this`serverSettings, this`stickyMessages
      ensures SessionsWellFormed(setupSessions)
      ensures serverSettings == old(serverSettings)[g := cfg]
      ensures r == (if CompletionSucceeds(cfg, guild, callsOk, stickyId) then Completed else Failure(noticeOk))
      ensures r == Completed || r == Aborted ==> setupSessions == WithoutSession(old(setupSessions), g, u)
      ensures r == Crashed ==> setupSessions == WithSession(old(setupSessions), g, u, Session(7, cfg))
      ensures r == Completed ==> Get(stickyMessages, g) == Some(FullRef(stickyId.value, cfg.ventChannel.value))
      ensures r != Completed ==> stickyMessages == old(stickyMessages)
      ensures forall h :: h != g ==> Get(stickyMessages, h) == Get(old(stickyMessages), h)
    {
      serverSettings := serverSettings[g := cfg];
      if CompletionSucceeds(cfg, guild, callsOk, stickyId) {
        SetupVentChannel(g, cfg.ventChannel.value, stickyId);
        EndSession(g, u);
        r := Completed;
      } else if noticeOk {
        EndSession(g, u);
        r := Aborted;
      } else {
        StoreSession(g, u, Session(7, cfg));
        r := Crashed;
      }
    }
  }

  /**
   * Redeeming the same code twice: the second attempt is refused and adds
   * no grant.
   */
  method RedeemTwice(bot: Bot, g: GuildId, code: string, user: UserId, other: UserId, t1: string, t2: string)
    returns (first: bool, second: bool)
    requires bot.Valid()
    modifies bot`accessCodes, bot`moderatorAccess
    ensures !second
    ensures first == CanRedeem(old(bot.accessCodes), g, code)
    ensures |GetOr(bot.moderatorAccess, g, [])| == |GetOr(old(bot.moderatorAccess), g, [])| + (if first then 1 else 0)
  {
    first := bot.UseAccessCode(g, code, user, t1, t1);
    second := bot.UseAccessCode(g, code, other, t2, t2);
  }
}
