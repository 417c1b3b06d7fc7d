# Mood check-in bot: a verified model of its state-keeping core

The bot serves several communities (Discord guilds). It posts a daily mood
check-in, runs an anonymous vent channel, and gives moderators a
re-identifying audit trail. The trail is gated by single-use access codes.
This project models the part of `main.py` that keeps the bot's state, and
proves properties of that model in Dafny.

- **Audit log** (`audit.dfy`, `base64.dfy`). `log_anonymous_message` appends
  one record per vent. The record keeps the submitter's id in plaintext and
  the username, display name and text Base64-encoded (RFC 4648, section 4).
  It also keeps a 16-character fingerprint. `!view_logs` shows the last ten
  records, with the text cut to 100 units.
- **Access codes** (`access.dfy`). Codes are issued per guild and are
  redeemable once. Each redemption appends one grant to `moderator_access`.
  The invariant `AuditConsistent` ties the two stores together: the grants
  name exactly the used codes, each code once, each with its redeemer.
- **Daily check-in** (`checkin.dfy`). On each one-minute tick, a guild
  posts when its local hour and minute equal its stored `HH:MM` and
  `last_checkin_date` is not yet today. The date is recorded whether or
  not the post succeeded.
- **Sticky message** (`sticky.dfy`). The vent channel's call-to-action
  message is reposted when it is missing or buried. A stored entry is either
  a legacy bare id or an `{message_id, channel_id}` pair.
- **Setup wizard** (`wizard.dfy`). There is one session per (guild,
  administrator). Steps 2 to 7 read the post, support and vent channels, the
  ping style, the time zone (from a menu) and the check-in time.
- **Parsers** (`parsers.dfy`, `text.dfy`). These cover the ping aliases, the
  `HH:MM` check with zero padding, and `parse_channel`. They rest on the
  Python string operations they use: `strip`, `lstrip`, `lower`, `split`,
  `int` and `{:02d}`.
- **The bot object** (`bot.dfy`). `class Bot` holds the seven module-level
  dictionaries as fields. Its methods are the source functions that mutate
  them in place. Each method is specified by the functions above, and
  `Valid()` is kept by every method that needs it.

Platform calls are parameters of the methods:

- whether a message was sent, and the id it got;
- the fetched sticky, and the channel's recent history (newest first);
- whether the calls of a wizard step succeeded, and whether the error notice sent after a failure went out;
- the local clock, as a function from a time-zone name to `(date, hour, minute)`;
- the SHA-256 digest;
- the random code.

Behaviour of the code worth knowing, which the model keeps:

- A legacy sticky entry is not converted to the pair form when it is read.
  It is replaced by a pair only when the sticky is reposted (`main.py:491-501`,
  `main.py:553-556`). `Sticky.LegacyReadsAsPair` proves that reading a legacy
  entry behaves exactly like reading its pair form.
- The check-in date is recorded even when the post fails, because
  `post_daily_checkin` swallows its own errors (`main.py:413-414`,
  `main.py:476-477`).
- At step 7 the settings are written before the three channels are looked
  up. A completion that then fails keeps the new settings but posts no
  sticky (`main.py:749-757`, `main.py:824-838`).
- The wizard's error handler sends its notice before it drops the session
  (`main.py:824-838`). If that notice fails as well, the session survives in
  the state the failed step left: advanced past a valid reply, or at step 7
  holding the time it was about to complete with (`Bot.SetupOutcome.Crashed`).
- The time-zone menu does not check the session's step. A stale menu moves
  a session at any step to step 7 (`main.py:230-238`). For this reason
  `Wizard.WellFormedSession` promises only a time zone at step 7.

## Model

| member | source | states |
|---|---|---|
| Text.TrimLeftSplits | main.py:606 | `lstrip('#')` and the leading half of `strip()` remove a maximal run of characters of the stripped class: everything removed is of the class, and what is kept is a suffix of the input starting outside it |
| Text.TrimRightSplits | main.py:627 | the trailing half of `strip()`: everything removed is whitespace, and what is kept is a prefix of the input ending in a non-space |
| Text.Split | main.py:733 | `split(':')` gives one more part than there are separators; joining the parts with the separator gives the input back; no part contains the separator |
| Text.Pad2 | main.py:739 | `{:02d}` of a number below 100 is exactly two decimal digits |
| Text.ParseIntPad2 | main.py:736 | `int()` reads a zero-padded two-digit field back as the number it was written from |
| Text.ParseInt | main.py:736 | `int()`: surrounding whitespace, an optional sign and ASCII digits, `None` for the `ValueError`; `ParseIntPad2` and `ParseTimeAccepts` state its properties |
| Text.Strip | main.py:627 | `strip()`: both trims by whitespace, whose properties `TrimLeftSplits` and `TrimRightSplits` state |
| Text.StripHashes | main.py:606 | `lstrip('#')`, whose properties `TrimLeftSplits` states |
| Text.Lower | main.py:708 | `lower()` on ASCII letters, length kept; `ParsePingIgnoresCase` states that lowering a reply first does not change the style it selects |
| Base64.Symbol | main.py:117-121 | each 6-bit value has a symbol of the alphabet, which is never the padding `=`, and reading the symbol back gives the value |
| Base64.Encode | main.py:117-121 | the encoding of n bytes is 4·⌈n/3⌉ characters long, all from the alphabet or `=` |
| Base64.Decode | main.py:1095-1096 | strict RFC 4648 decoding, `None` on malformed input; `DecodeEncode` states that it inverts `Encode` |
| Base64.DecodeEncode | main.py:1095-1096 | decoding the encoding of any byte string gives back exactly those bytes |
| Base64.EncodeInjective | main.py:117-121 | two different byte strings never share an encoding |
| Base64.RfcVectors | main.py:117-121 | the encoder gives the test vectors of section 10 of RFC 4648 (`f` is `Zg==`, ..., `foobar` is `Zm9vYmFy`), so alphabet, bit order and padding are the standard ones |
| Audit.Fingerprint | main.py:114 | the fingerprint is the first 16 characters of the hex digest |
| Audit.NewEntry | main.py:109-132 | the record keeps the timestamp, guild, channel and user id as given and the 16-character fingerprint of the digest; each encoded field decodes to exactly the submitted bytes |
| Audit.AppendNewEntry | main.py:134-137 | appending adds exactly one record, the new one, at the end of that guild's log (created if absent); earlier records and other guilds' logs are unchanged; every log stays well formed |
| Audit.Appended | main.py:134-137 | `setdefault(g, []).append(e)`; `AppendNewEntry` states what it changes and keeps |
| Audit.Prefix | main.py:1099-1100 | Python's `s[:n]`: a prefix of the input, of length min(|s|, n) |
| Audit.RecentEntries | main.py:1093 | `logs[-10:]`: the last min(|logs|, 10) records, in order |
| Audit.ViewLines | main.py:1093-1108 | one line per recent record, in the same order, each showing that record |
| Audit.ShowEntry | main.py:1094-1108 | the field for one record: name, id and 100-unit preview, or the error line when a field does not decode; `ShowNewEntry` and `WellFormedViewReadable` state which it is |
| Audit.ShowNewEntry | main.py:1094-1101 | a record the bot wrote is shown with the submitter's name and id and the first 100 units of the text, flagged when the text was longer |
| Audit.WellFormedViewReadable | main.py:1094-1108 | in a well-formed log no line of the view is the decoding-error line |
| Audit.ViewShowsNewest | main.py:1093 | after a vent is logged, the last line of the view shows that vent |
| Access.Issued | main.py:144-150 | the new code is in the guild's map and unused; the guild keeps its other codes unchanged and gains no other key; other guilds are unchanged |
| Access.CanRedeem | main.py:157-161 | the code is known to the guild and unused; `Bot.Bot.UseAccessCode` states that redemption succeeds exactly then |
| Access.Redeemed | main.py:163-166 | the code marked used with its redeemer and time; `RedeemKeepsAudit` states its effect |
| Access.WithGrant | main.py:168-176 | one grant appended to the guild's list, created if absent; `RedeemKeepsAudit` states its effect |
| Access.IssueKeepsAudit | main.py:140-153 | issuing a code the guild does not know makes it redeemable and keeps the codes and grants consistent |
| Access.RedeemKeepsAudit | main.py:155-179 | redeeming a redeemable code keeps the stores consistent, adds exactly that code to the guild's used codes, appends exactly one grant naming user and code, and leaves the code unredeemable |
| Access.GrantsCountRedemptions | main.py:163-176 | in consistent stores a guild has exactly as many grants as used codes: one log access per redemption |
| Parsers.ParsePing | main.py:699-709 | a reply selects ping style p exactly when its lower-cased form is one of p's two aliases; anything else is rejected |
| Parsers.Aliases | main.py:699-706 | the two keywords of each ping style in `ping_options`; `ParsePing` states the lookup over them |
| Types.Ping.Text | main.py:699-706 | the value `ping_options` stores for each style (`@everyone`, `@here`, `none`); `ParsePingText` states that each reads back as its own style |
| Parsers.ParsePingText | main.py:699-706 | each stored ping text (`@everyone`, `@here`, `none`) is itself accepted as that style |
| Parsers.ParsePingIgnoresCase | main.py:708 | lower-casing a reply first does not change the style it selects |
| Parsers.FormatTime | main.py:739 | `f"{hour:02d}:{minute:02d}"`; `FormatTimeIsClockTime`, `ParseTimeFormatted` and `ParseStoredTimeFormatted` state its properties |
| Parsers.FormatTimeIsClockTime | main.py:739 | a zero-padded hour below 24 and minute below 60 form a valid `HH:MM` clock time |
| Parsers.ParseTime | main.py:731-747 | an accepted time is stored as a valid zero-padded `HH:MM` holding the hour and minute typed (both read back equal); a reply without exactly one `:` is rejected |
| Parsers.ParseTimeAccepts | main.py:733-739 | conversely, every reply with one `:` between two integers in range is accepted, however spaced or padded, and stored as those numbers zero-padded |
| Parsers.ParseTimePadsShortFields | main.py:733-739 | `9:5` is stored as `09:05` |
| Parsers.ParseTimeFormatted | main.py:733-739 | every time the wizard stores is accepted again unchanged |
| Parsers.ParseStoredTimeFormatted | main.py:391-393 | the check-in reads back exactly the hour and minute the wizard stored |
| Parsers.ParseStoredTime | main.py:391-393 | the check-in's reading of the stored time: the first two `:`-separated fields as integers, `None` where Python raises; `ParseStoredTimeFormatted` and `ParseTime` state its properties |
| Parsers.GetChannel | main.py:599 | `get_channel(id)` returns a channel of the guild with that id, or `None` only when the guild has none |
| Parsers.FirstTextNamedBehind | main.py:607 | the first matching text channel after a non-matching one is the first of the whole list |
| Parsers.TextChannelNamed | main.py:607 | the name lookup returns the earliest text channel of the guild with that name (`FirstTextNamed`), or `None` only when there is none |
| Parsers.MentionedId | main.py:596-598 | the id inside a `<#...>` mention, read by `int()`; `ParseChannel` states how it is used |
| Parsers.ParseChannel | main.py:591-608 | a result is a text channel of the guild, found by the mentioned id or by the name with leading `#` removed; a mention of an existing text channel always resolves to it; when the mention resolves to no text channel, the result is the earliest text channel with that name; `None` only when no text channel has that name |
| Checkin.AfterPost | main.py:469-471 | the post never changes the recorded date; it records the sent message exactly when the settings are complete and the message was sent, and changes nothing otherwise |
| Checkin.Scheduled | main.py:386-387 | the guild has both a time and a time zone; `UnscheduledSkipped` states the skip |
| Checkin.TimeMatches | main.py:391-405 | the stored time reads as the local hour and minute, and a time that does not read never matches; `MatchesStoredTime` states it for wizard-written times |
| Checkin.Postable | main.py:427-451 | the settings the post reads are present; `AfterPost` and `PostRecorded` state its role |
| Checkin.Due | main.py:405-412 | the tick posts: the time matches and today is not yet recorded; `NoSecondPostSameDay` and `AtMostOncePerDay` state its consequences |
| Checkin.AfterTick | main.py:405-415 | one matching guild's entry after the tick; `TickRecordsToday`, `NotDueUnchanged`, `FailedPostStillRecorded` and `PostRecorded` state it |
| Checkin.GuildTick | main.py:385-415 | one guild's iteration, skipping unscheduled guilds; `UnscheduledSkipped` and `Bot.Bot.DailyCheckin` state it |
| Checkin.GuildDue | main.py:386-412 | the tick posts for a guild exactly when it has a time and a zone, the zone's local hour and minute equal the stored time, and today's date is not yet recorded; `UnscheduledSkipped`, `NoSecondPostSameDay` and `Bot.Bot.CheckinGuild` state it |
| Checkin.UnscheduledSkipped | main.py:386-387 | a guild without a time or a time zone is neither posted to nor changed |
| Checkin.MatchesStoredTime | main.py:391-405 | a guild set up for HH:MM matches the clock exactly at that hour and minute |
| Checkin.TickRecordsToday | main.py:405-414 | when the time matches, the tick leaves today's date recorded, whether it posted or not |
| Checkin.NotDueUnchanged | main.py:405-412 | a tick that does not post changes nothing, except creating an empty entry for a new guild whose time matches |
| Checkin.NoSecondPostSameDay | main.py:408-414 | once a tick has matched, no later tick on the same local date is due |
| Checkin.FailedPostStillRecorded | main.py:413-414 | a failed post still records today's date and keeps the previous message id |
| Checkin.PostRecorded | main.py:412-414 | a due post that is sent records both the new message and today's date |
| Checkin.NoPostsOnceRecorded | main.py:412 | once today is recorded, no tick on that date posts |
| Checkin.AtMostOncePerDay | main.py:385-415 | however many ticks fall on one local date, at most one posts |
| Checkin.NineOClockScenario | main.py:385-415 | a guild set up for 09:00 posts at its first 09:00 tick, not at a second 09:00 tick or at 09:01, and again at 09:00 the next day |
| Sticky.LegacyReadsAsPair | main.py:491-501 | with a vent channel configured, a legacy entry resolves, decides and is rewritten exactly as the pair naming that channel |
| Sticky.LegacyWithoutVentIgnored | main.py:492-495 | a legacy entry in a guild without a vent channel is left alone |
| Sticky.OtherChannelIgnored | main.py:503-505 | a message outside the sticky's channel changes nothing |
| Sticky.StickyItselfIgnored | main.py:507-509 | the sticky message itself changes nothing |
| Sticky.RepostOnlyWhenBuried | main.py:511-542 | the handler reposts only for another message in the sticky's channel, and only when the sticky is gone or not the newest message |
| Sticky.BuriedIsReposted | main.py:518-542 | conversely, a sticky that is gone, or found below another message, is reposted |
| Sticky.ChangeIsFullRef | main.py:547-556 | any change stores the new sticky as a pair naming the channel the old one was in |
| Sticky.RepostSettles | main.py:526-534 | after a repost, later messages leave the entry alone while the new sticky is the newest message |
| Sticky.Resolve | main.py:491-501 | the sticky's message and channel for either stored format, a legacy entry taking the vent channel; `LegacyReadsAsPair` and `LegacyWithoutVentIgnored` state it |
| Sticky.Decide | main.py:480-542 | whether the handler reposts; `RepostOnlyWhenBuried` and `BuriedIsReposted` state exactly when |
| Sticky.AfterCreate | main.py:547-556 | a sent sticky stored as a pair naming its channel; `ChangeIsFullRef` states it |
| Sticky.AfterMessage | main.py:480-556 | the entry after the handler; `OtherChannelIgnored`, `StickyItselfIgnored`, `LegacyWithoutVentIgnored`, `ChangeIsFullRef` and `RepostSettles` state it |
| Wizard.RespondKeepsWellFormed | main.py:627-747 | a valid reply moves one step forward and keeps the session well formed; a completion happens only at step 7, with a valid clock time holding the hour and minute typed, and the session's data; only step 6 ignores replies |
| Wizard.Respond | main.py:622-747 | the validation of a reply, dispatched by step; the lemmas of this section state it |
| Wizard.ChannelReply | main.py:631-688 | steps 2-4; `ChannelStepStoresParsed` states it |
| Wizard.PingReply | main.py:698-719 | step 5; `PingStepStoresStyle` states it |
| Wizard.TimeReply | main.py:731-752 | step 7; `TimeStepStoresTyped` and `TimeStepStoresPadded` state it |
| Wizard.ChooseTimezone | main.py:236-238 | the time-zone menu stores the zone and moves the session to step 7; `Bot.Bot.SelectTimezone` states it |
| Wizard.ChannelStepStoresParsed | main.py:631-688 | steps 2-4 reject exactly when `parse_channel` finds nothing, and otherwise store that channel's id in that step's field and nothing else |
| Wizard.PingStepStoresStyle | main.py:698-719 | step 5 advances with style p exactly when the stripped, lower-cased reply is one of p's aliases |
| Wizard.TimeStepStoresPadded | main.py:731-749 | step 7 accepts any in-range time written `HH:MM` and completes with it stored |
| Wizard.TimeStepStoresTyped | main.py:731-752 | step 7 accepts any reply whose stripped form is two in-range integers around one `:`, and completes with that time stored zero-padded |
| Wizard.WizardRun | main.py:631-752 | from a fresh session, three channel replies, a ping keyword, a time-zone choice and a valid time give settings holding exactly those answers |
| Wizard.HasSession | main.py:947-951 | the guard `guild_id in setup_sessions and user_id in setup_sessions[guild_id]`, also used at `main.py:230`, `main.py:576` and `main.py:835`; `WithSession` and `WithoutSession` state that it holds after storing and fails after ending a session |
| Wizard.WithSession | main.py:966-970 | the session is set; other users' sessions in that guild and other guilds are unchanged |
| Wizard.WithSessionWellFormed | main.py:966-970 | storing a well-formed session keeps all sessions well formed |
| Wizard.WithoutSession | main.py:818-822 | the session is gone, with the guild's entry once it is empty; every other session is unchanged |
| Wizard.WithoutSessionWellFormed | main.py:818-822 | removing a session keeps the others well formed |
| Bot.Bot.constructor | main.py:24-75 | the stores start as loaded, with no setup sessions, and the object invariant holds |
| Bot.Bot.LogAnonymousMessage | main.py:109-138 | the log becomes `Appended(old log, g, NewEntry(...))`, and the object stays valid |
| Bot.Bot.GenerateAccessCode | main.py:140-153 | returns the code, records it as `Issued`, leaves it redeemable, and keeps the object valid |
| Bot.Bot.UseAccessCode | main.py:155-179 | succeeds exactly on a known, unused code, and then applies `Redeemed` and `WithGrant`; otherwise changes nothing; either way the code is not redeemable afterwards |
| Bot.Bot.ViewLogs | main.py:1065-1108 | no code, a refused code and an empty log are answered as such, and the first two change no store; otherwise it returns the record count and the view of the last ten records, all readable; whenever the code is accepted it is spent and its grant recorded, even when there are no logs |
| Bot.RedeemTwice | main.py:155-179 | a second redemption of a code is refused, and the grant count rises by one only if the first succeeded |
| Bot.Bot.PostDailyCheckin | main.py:424-477 | the guild's entry becomes `AfterPost` of the old one; other guilds are unchanged |
| Bot.Bot.DailyCheckin | main.py:379-422 | after the loop every configured guild's entry is its `GuildTick` and every other entry is unchanged; the guilds posted to are exactly those that were due |
| Bot.Bot.CheckinGuild | main.py:385-415 | one guild's iteration: its entry becomes `GuildTick`, it posts exactly when `GuildDue`, and other guilds are unchanged |
| Bot.Bot.CheckinAt | main.py:408-415 | with the time matching: the entry becomes `AfterTick`, it posts exactly when `Due`, and other guilds are unchanged |
| Bot.Bot.CreateNewStickyMessage | main.py:547-557 | the guild's entry becomes the pair naming the sent sticky and its channel; other guilds are unchanged |
| Bot.Bot.SetupVentChannel | main.py:610-620 | the same update for the sticky posted when setup completes |
| Bot.Bot.HandleStickyMessage | main.py:480-545 | the guild's entry becomes `AfterMessage` of the old entry and settings; other guilds are unchanged |
| Bot.Bot.StartSetup | main.py:936-970 | refuses non-administrators without touching the sessions, and anyone with a running session, which it never replaces; when it starts, the session is `FirstSession`; other guilds are unchanged |
| Bot.Bot.SelectTimezone | main.py:226-238 | with a session, stores the zone and moves the session to step 7; without one, nothing changes |
| Bot.Bot.StoreSession | main.py:642-643 | the session map becomes `WithSession` with the updated session, and stays well formed |
| Bot.Bot.EndSession | main.py:818-822 | the session map becomes `WithoutSession` and stays well formed |
| Bot.Bot.HandleSetupResponse | main.py:622-838 | the outcome follows `Respond`: ignored and rejected replies keep the session; valid ones advance it; a valid time writes the settings and ends the session; a completed setup stores the new sticky; a failure ends the session once the error notice is sent, and otherwise leaves the session as the step left it (advanced, or at step 7 holding the settings) |
| Bot.Bot.ApplyReply | main.py:631-838 | the state change for each kind of validated reply, as above: the session is updated before the step's message calls, so a failure whose notice also fails keeps the update |
| Bot.CompletionSucceeds | main.py:749-816 | step 7 goes through: channels, ping and time zone set, the channels found, the calls and the sticky's send succeed; `Bot.Bot.CompleteSetup` states its role |
| Bot.Bot.CompleteSetup | main.py:749-838 | settings written first; the sticky is stored only when the channels, the ping and the time zone are set, the channels exist and the calls succeed; the session ends on success or once the error notice is sent, and when the notice fails it stays at step 7 holding the settings |

## Left out

- Platform I/O is replaced by the parameters listed above: sends, edits, deletes, `fetch_message`, `history`, reactions, embeds, views, modals and every user-facing text. This includes deleting the previous check-in message and adding emoji reactions, which change no state.
- `save_data` and the JSON loading are not modelled. Persistence is a no-op, and the constructor takes the loaded stores.
- Bot.Bot.constructor: the loaded JSON files are assumed to have been written by this bot, so every log record is well formed (`LogsWellFormed`) and the codes and grants agree (`AuditConsistent`). Records edited by hand, which `view_logs` guards against with its `try`/`except`, are not covered; this assumption is what makes every line of `Bot.Bot.ViewLogs` readable.
- `datetime.now()` and the `pytz` conversion are parameters. Timestamps are strings passed in, and the clock maps a zone name to the local date, hour and minute. An unknown zone is the clock's concern.
- Bot.Bot.LogAnonymousMessage: SHA-256 is not computed. The 64-character hex digest is a parameter, and its first 16 characters are the fingerprint.
- Bot.Bot.GenerateAccessCode: requires that the code is new to the guild. `secrets.token_hex(16)` is a parameter. The source would overwrite an existing code on the (negligible) collision.
- UTF-8 is not modelled: texts are byte strings. The 100-unit preview therefore counts bytes where Python counts code points, and a decoding error caused by invalid UTF-8 is not modelled.
- Base64.Decode is the strict RFC 4648 decoder. Python's `b64decode` also discards characters outside the alphabet, which the bot never writes.
- Text.ParseInt: `int()` is modelled as surrounding whitespace, an optional sign and ASCII digits. Underscores between digits and non-ASCII digits are not accepted.
- Text.Lower: `str.lower()` is modelled on ASCII letters only. Among non-ASCII characters, only U+0130 and U+212A lower into ASCII, and no ping alias contains `i` or `k`.
- The `on_message` dispatch is not modelled. That covers ignoring bots and direct messages, deleting the vent submission, and handling the sticky before the wizard.
- Not modelled: the vent modal, the check-in view's vent button and its configuration check, and the display-only or permission-only commands (`help`, `settings`, `stats`, `ping`, error handlers). The `!force` command (`force_checkin`) itself is not modelled either; the state it changes is `post_daily_checkin`'s, which `Bot.Bot.PostDailyCheckin` models.
- `dismissed_users` is not modelled: it is stored but never read.
- temp_setup.py is not part of this model: it is an unused older copy of the wizard.
- Concurrency at `await` points is not modelled. Each handler runs to completion, and one tick is a single call over all guilds.
- Bot.Bot.StartSetup: the session does not keep its message handle, which serves only for editing the wizard's message.
- Bot.Bot.CompleteSetup: in the code, a session kept after a failed error notice shares its data dictionary with `server_settings[guild]`. Later changes through that session, such as another time-zone choice, also change the settings. The model keeps the two as separate values.
- Bot.Bot.HandleSetupResponse: the exception that escapes when the error notice fails, and what the event loop does with it, are not modelled. `Crashed` records only the state it leaves.
- Sticky.Decide: of the channel history, only the newest id matters, so the `limit=10` bound is not modelled.
- Bot.Bot.DailyCheckin: settings are values the wizard writes, so the `KeyError` and `ValueError` paths for a malformed stored channel id are not modelled. A malformed stored time is modelled: it never matches.
