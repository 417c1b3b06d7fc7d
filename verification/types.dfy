/** Values shared by every part of the bot's state-keeping core. */
module Types {

  datatype Option<T> = None | Some(value: T)

  /** One octet of UTF-8 encoded text. */
  type byte = x: int | 0 <= x < 256

  /** Discord snowflakes; the bot keeps them as decimal strings of these numbers. */
  type GuildId = nat
  type UserId = nat
  type ChannelId = nat
  type MessageId = nat

  /** `m.get(k)` */
  function Get<K, V>(m: map<K, V>, k: K): Option<V>
  {
    if k in m then Some(m[k]) else None
  }

  /** `m.get(k, d)` */
  function GetOr<K, V>(m: map<K, V>, k: K, d: V): V
  {
    if k in m then m[k] else d
  }

  /** The three ping styles a community can choose for its daily check-in. */
  datatype Ping = Everyone | Here | Silent
  {
    /** The text stored in the settings and substituted into the check-in message. */
    function Text(): string
    {
      match this
      case Everyone => "@everyone"
      case Here => "@here"
      case Silent => "none"
    }
  }

  /**
   * The settings dictionary of one community. The setup wizard fills it one
   * key at a time, and the finished dictionary becomes `server_settings[guild]`,
   * so every key is optional: a missing key is `None`.
   */
  datatype Config = Config(
    postChannel: Option<ChannelId>,
    supportChannel: Option<ChannelId>,
    ventChannel: Option<ChannelId>,
    ping: Option<Ping>,
    timezone: Option<string>,
    time: Option<string>)

  const EmptyConfig := Config(None, None, None, None, None, None)

  /** A channel of a guild as the platform reports it. */
  datatype Channel = Channel(id: ChannelId, name: string, isText: bool)
}
