/**
 * The vent channel's sticky call-to-action message. `sticky_messages[guild]`
 * is either a legacy bare message id, whose channel is the configured vent
 * channel, or a `{message_id, channel_id}` pair. On each message in that
 * channel the handler decides whether the sticky is still the newest
 * message; when it is missing or buried it is deleted and posted again, and
 * the entry is rewritten as a pair.
 */
module Sticky {
  import opened Types

  /** `sticky_messages[guild]`: the old string format or the dictionary format. */
  datatype StickyRef =
    | LegacyRef(messageId: MessageId)
    | FullRef(messageId: MessageId, channelId: ChannelId)

  /**
   * The sticky's message and channel, one format for both: a legacy entry
   * takes its channel from the guild's `vent_channel` and is unusable
   * without one.
   */
  function Resolve(ref: StickyRef, cfg: Option<Config>): Option<(MessageId, ChannelId)>
  {
    match ref
    case FullRef(m, c) => Some((m, c))
    case LegacyRef(m) =>
      if cfg.Some? && cfg.value.ventChannel.Some? then Some((m, cfg.value.ventChannel.value)) else None
  }

  /**
   * Reading a legacy entry is reading its pair form: with a vent channel
   * configured, the handler decides exactly as for the pair naming that
   * channel, and a repost stores the same new entry.
   */
  lemma LegacyReadsAsPair(m: MessageId, cfg: Config, channel: ChannelId, msg: MessageId, io: StickyIo)
    requires cfg.ventChannel.Some?
    ensures Resolve(LegacyRef(m), Some(cfg)) == Resolve(FullRef(m, cfg.ventChannel.value), Some(cfg))
    ensures Decide(Some(LegacyRef(m)), Some(cfg), channel, msg, io) == Decide(Some(FullRef(m, cfg.ventChannel.value)), Some(cfg), channel, msg, io)
    ensures Decide(Some(LegacyRef(m)), Some(cfg), channel, msg, io) == Repost && io.repost.Some? ==>
      AfterMessage(Some(LegacyRef(m)), Some(cfg), channel, msg, io) == AfterMessage(Some(FullRef(m, cfg.ventChannel.value)), Some(cfg), channel, msg, io)
  {
  }

  /** The result of fetching the sticky: found, `NotFound`, or another error (caught, nothing done). */
  datatype Fetch = Found | NotFound | FetchFailed

  /**
   * What the platform answers while the handler runs: whether the channel is
   * found, the fetch of the sticky, the channel's recent history newest first
   * (`None` if reading it fails), whether deleting the old sticky succeeds
   * (a `NotFound` counts as success), and the id of the reposted sticky
   * (`None` if the send fails).
   */
  datatype StickyIo = StickyIo(
    channelFound: bool,
    fetch: Fetch,
    history: Option<seq<MessageId>>,
    deleteOk: bool,
    repost: Option<MessageId>)

  datatype Action = Ignore | Repost

  /**
   * `handle_sticky_message` for a message `msg` posted in `channel`:
   * whether it reposts the sticky.
   */
  function Decide(entry: Option<StickyRef>, cfg: Option<Config>, channel: ChannelId, msg: MessageId, io: StickyIo): Action
  {
    if entry.None? then Ignore
    else match Resolve(entry.value, cfg)
      case None => Ignore
      case Some((sticky, expected)) =>
        if expected != channel || msg == sticky || !io.channelFound then Ignore
        else match io.fetch
          case NotFound => Repost
          case FetchFailed => Ignore
          case Found =>
            match io.history
            case None => Ignore
            case Some(recent) =>
              if |recent| > 0 && recent[0] != sticky && io.deleteOk then Repost else Ignore
  }

  /** `create_new_sticky_message`: a posted sticky is stored as a pair naming its channel. */
  function AfterCreate(entry: Option<StickyRef>, channel: ChannelId, sent: Option<MessageId>): Option<StickyRef>
  {
    if sent.Some? then Some(FullRef(sent.value, channel)) else entry
  }

  /** `sticky_messages[guild]` after the handler. */
  function AfterMessage(entry: Option<StickyRef>, cfg: Option<Config>, channel: ChannelId, msg: MessageId, io: StickyIo): Option<StickyRef>
  {
    if Decide(entry, cfg, channel, msg, io) == Repost then AfterCreate(entry, channel, io.repost) else entry
  }

  /** A message outside the sticky's channel changes nothing. */
  lemma OtherChannelIgnored(entry: Option<StickyRef>, cfg: Option<Config>, channel: ChannelId, msg: MessageId, io: StickyIo)
    requires entry.Some?
    requires forall s :: Resolve(entry.value, cfg) != Some((s, channel))
    ensures Decide(entry, cfg, channel, msg, io) == Ignore
    ensures AfterMessage(entry, cfg, channel, msg, io) == entry
  {
  }

  /** The sticky message itself changes nothing: the bot does not re-stick its own post. */
  lemma StickyItselfIgnored(ref: StickyRef, cfg: Option<Config>, channel: ChannelId, io: StickyIo)
    ensures AfterMessage(Some(ref), cfg, channel, ref.messageId, io) == Some(ref)
  {
  }

  /** A legacy entry in a guild without a configured vent channel is ignored. */
  lemma LegacyWithoutVentIgnored(m: MessageId, cfg: Option<Config>, channel: ChannelId, msg: MessageId, io: StickyIo)
    requires cfg.None? || cfg.value.ventChannel.None?
    ensures AfterMessage(Some(LegacyRef(m)), cfg, channel, msg, io) == Some(LegacyRef(m))
  {
  }

  /**
   * Any change the handler makes stores the reposted sticky in the pair
   * format, naming the channel the message was posted in, which is where
   * the old sticky was.
   */
  lemma ChangeIsFullRef(entry: Option<StickyRef>, cfg: Option<Config>, channel: ChannelId, msg: MessageId, io: StickyIo)
    requires AfterMessage(entry, cfg, channel, msg, io) != entry
    ensures entry.Some?
    ensures exists old_ :: Resolve(entry.value, cfg) == Some((old_, channel))
    ensures io.repost.Some? && AfterMessage(entry, cfg, channel, msg, io) == Some(FullRef(io.repost.value, channel))
  {
    var sticky := Resolve(entry.value, cfg).value.0;
    assert Resolve(entry.value, cfg) == Some((sticky, channel));
  }

  /**
   * The handler reposts only when the sticky is missing or is not the newest
   * message of the channel, and only for another message in the sticky's
   * own channel.
   */
  lemma RepostOnlyWhenBuried(entry: Option<StickyRef>, cfg: Option<Config>, channel: ChannelId, msg: MessageId, io: StickyIo)
    requires Decide(entry, cfg, channel, msg, io) == Repost
    ensures entry.Some? && Resolve(entry.value, cfg).Some?
    ensures var (sticky, expected) := Resolve(entry.value, cfg).value;
      && expected == channel && msg != sticky
      && (io.fetch == NotFound || (io.history.Some? && |io.history.value| > 0 && io.history.value[0] != sticky))
  {
  }

  /** Conversely a sticky that is gone, or found below another message, is reposted. */
  lemma BuriedIsReposted(ref: StickyRef, cfg: Option<Config>, channel: ChannelId, msg: MessageId, io: StickyIo)
    requires Resolve(ref, cfg) == Some((ref.messageId, channel)) && msg != ref.messageId && io.channelFound
    requires io.fetch == NotFound
      || (io.fetch == Found && io.deleteOk && io.history.Some? && |io.history.value| > 0 && io.history.value[0] != ref.messageId)
    ensures Decide(Some(ref), cfg, channel, msg, io) == Repost
  {
  }

  /**
   * After a repost the new sticky is recognised in the same channel, with or
   * without a vent channel configured: while it is still the newest message,
   * later messages leave the entry alone.
   */
  lemma RepostSettles(entry: Option<StickyRef>, cfg: Option<Config>, channel: ChannelId, msg: MessageId, io: StickyIo,
                      cfg2: Option<Config>, msg2: MessageId, io2: StickyIo)
    requires Decide(entry, cfg, channel, msg, io) == Repost && io.repost.Some?
    requires io2.fetch == Found && io2.history.Some? && |io2.history.value| > 0 && io2.history.value[0] == io.repost.value
    ensures var after := AfterMessage(entry, cfg, channel, msg, io);
      AfterMessage(after, cfg2, channel, msg2, io2) == after
  {
  }
}
