/**
 * The anonymous-vent audit log: one record per vent, per guild, in append
 * order. The submitter's id is kept in plaintext for moderators; the
 * username, display name and text are kept Base64-encoded; a 16-character
 * fingerprint identifies the text. `view_logs` shows the last ten records.
 */
module Audit {
  import opened Types
  import Base64

  /** The record `log_anonymous_message` appends. */
  datatype LogEntry = LogEntry(
    timestamp: string,
    guildId: GuildId,
    channelId: ChannelId,
    userId: UserId,
    encodedUsername: string,
    encodedDisplayName: string,
    messageHash: string,
    encodedContent: string)

  const FingerprintLength := 16

  /** `hashlib.sha256(content).hexdigest()[:16]`, given the 64-character hex digest. */
  function Fingerprint(hexDigest: string): (r: string)
    requires |hexDigest| == 64
    ensures |r| == FingerprintLength && r <= hexDigest
  {
    hexDigest[..FingerprintLength]
  }

  /**
   * The record for one vent. Each encoded field decodes to exactly the
   * submitted bytes; the time, the ids and the fingerprint are kept as given.
   */
  function NewEntry(
    timestamp: string, guild: GuildId, channel: ChannelId, user: UserId,
    username: seq<byte>, displayName: seq<byte>, content: seq<byte>, hexDigest: string): (e: LogEntry)
    requires |hexDigest| == 64
    ensures e.timestamp == timestamp && e.guildId == guild && e.channelId == channel && e.userId == user
    ensures e.messageHash == Fingerprint(hexDigest) && |e.messageHash| == FingerprintLength
    ensures Base64.Decode(e.encodedContent) == Some(content)
    ensures Base64.Decode(e.encodedUsername) == Some(username)
    ensures Base64.Decode(e.encodedDisplayName) == Some(displayName)
  {
    Base64.DecodeEncode(content);
    Base64.DecodeEncode(username);
    Base64.DecodeEncode(displayName);
    LogEntry(timestamp, guild, channel, user,
      Base64.Encode(username), Base64.Encode(displayName),
      Fingerprint(hexDigest), Base64.Encode(content))
  }

  /** What every record in guild `g`'s log satisfies. */
  predicate WellFormed(g: GuildId, e: LogEntry)
  {
    && e.guildId == g
    && |e.messageHash| == FingerprintLength
    && Base64.Decode(e.encodedContent).Some?
    && Base64.Decode(e.encodedUsername).Some?
    && Base64.Decode(e.encodedDisplayName).Some?
  }

  ghost predicate LogsWellFormed(logs: map<GuildId, seq<LogEntry>>)
  {
    forall g, i :: g in logs && 0 <= i < |logs[g]| ==> WellFormed(g, logs[g][i])
  }

  /** `anon_logs.setdefault(g, []).append(e)` */
  function Appended(logs: map<GuildId, seq<LogEntry>>, g: GuildId, e: LogEntry): map<GuildId, seq<LogEntry>>
  {
    logs[g := GetOr(logs, g, []) + [e]]
  }

  /**
   * Appending a record adds exactly one entry at the end of that guild's
   * log; earlier entries and other guilds' logs are untouched, and every
   * log stays well formed.
   */
  lemma AppendNewEntry(
    logs: map<GuildId, seq<LogEntry>>, timestamp: string, g: GuildId, channel: ChannelId, user: UserId,
    username: seq<byte>, displayName: seq<byte>, content: seq<byte>, hexDigest: string)
    requires |hexDigest| == 64
    requires LogsWellFormed(logs)
    ensures var e := NewEntry(timestamp, g, channel, user, username, displayName, content, hexDigest);
      var logs' := Appended(logs, g, e);
      && LogsWellFormed(logs')
      && logs'.Keys == logs.Keys + {g}
      && |logs'[g]| == |GetOr(logs, g, [])| + 1
      && logs'[g][..|logs'[g]| - 1] == GetOr(logs, g, [])
      && logs'[g][|logs'[g]| - 1] == e
      && forall h :: h in logs && h != g ==> logs'[h] == logs[h]
  {
    var e := NewEntry(timestamp, g, channel, user, username, displayName, content, hexDigest);
    var logs' := Appended(logs, g, e);
    forall h, i | h in logs' && 0 <= i < |logs'[h]| ensures WellFormed(h, logs'[h][i]) {
      if h == g && i == |logs'[g]| - 1 {
        assert logs'[h][i] == e;
      } else {
        assert h in logs && logs'[h][i] == logs[h][i];
      }
    }
  }

  /* ---------- view_logs ---------- */

  const ViewLimit := 10
  const PreviewLimit := 100
  const StampWidth := 16

  /** One field of the moderator's log view: a decoded record, or the decoding-error line. */
  datatype LogLine =
    | Shown(stamp: string, username: seq<byte>, userId: UserId, preview: seq<byte>, truncated: bool)
    | Unreadable(stamp: string)

  /** Python's `s[:n]` */
  function Prefix<T>(s: seq<T>, n: nat): (r: seq<T>)
    ensures |r| == if |s| < n then |s| else n
    ensures r <= s
  {
    if |s| <= n then s else s[..n]
  }

  /** `logs[-10:]` */
  function RecentEntries(logs: seq<LogEntry>): (r: seq<LogEntry>)
    ensures |r| == if |logs| < ViewLimit then |logs| else ViewLimit
    ensures r == logs[|logs| - |r|..]
  {
    if |logs| <= ViewLimit then logs else logs[|logs| - ViewLimit..]
  }

  /** The field `view_logs` builds for one record. */
  function ShowEntry(e: LogEntry): LogLine
  {
    var stamp := Prefix(e.timestamp, StampWidth);
    match (Base64.Decode(e.encodedContent), Base64.Decode(e.encodedUsername))
    case (Some(content), Some(name)) =>
      Shown(stamp, name, e.userId, Prefix(content, PreviewLimit), |content| > PreviewLimit)
    case _ => Unreadable(stamp)
  }

  /** The fields of the view, oldest first: one per record among the last ten. */
  function ViewLines(logs: seq<LogEntry>): (r: seq<LogLine>)
    ensures |r| == |RecentEntries(logs)|
    ensures forall i :: 0 <= i < |r| ==> r[i] == ShowEntry(logs[|logs| - |r| + i])
  {
    var recent := RecentEntries(logs);
    seq(|recent|, i requires 0 <= i < |recent| => ShowEntry(recent[i]))
  }

  /**
   * A record the bot wrote is shown with the submitter's name and id and
   * the first 100 bytes of the text, flagged when the text was longer.
   */
  lemma ShowNewEntry(
    timestamp: string, g: GuildId, channel: ChannelId, user: UserId,
    username: seq<byte>, displayName: seq<byte>, content: seq<byte>, hexDigest: string)
    requires |hexDigest| == 64
    ensures ShowEntry(NewEntry(timestamp, g, channel, user, username, displayName, content, hexDigest))
      == Shown(Prefix(timestamp, StampWidth), username, user, Prefix(content, PreviewLimit), |content| > PreviewLimit)
  {
  }

  /** In a well-formed log every shown field decodes: no line reads as a decoding error. */
  lemma WellFormedViewReadable(g: GuildId, logs: seq<LogEntry>)
    requires forall i :: 0 <= i < |logs| ==> WellFormed(g, logs[i])
    ensures forall i :: 0 <= i < |ViewLines(logs)| ==> ViewLines(logs)[i].Shown?
  {
    var r := ViewLines(logs);
    forall i | 0 <= i < |r| ensures r[i].Shown? {
      assert WellFormed(g, logs[|logs| - |r| + i]);
    }
  }

  /** After a vent is logged, the view ends with that vent's line. */
  lemma ViewShowsNewest(logs: seq<LogEntry>, e: LogEntry)
    ensures var r := ViewLines(logs + [e]);
      |r| > 0 && r[|r| - 1] == ShowEntry(e)
  {
    var s := logs + [e];
    var r := ViewLines(s);
    assert s[|s| - |r| + (|r| - 1)] == e;
  }
}
