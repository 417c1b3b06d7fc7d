/**
 * The setup wizard's readers of administrator input: the ping keyword
 * (step 5), the check-in time (step 7), and `parse_channel` (steps 2 to 4).
 * The daily check-in reads the stored time back with `ParseStoredTime`.
 */
module Parsers {
  import opened Types
  import opened Text

  /* ---------- ping keyword ---------- */

  /** The keywords that select a ping style, as `content.lower()` must spell them. */
  function Aliases(p: Ping): set<string>
  {
    match p
    case Everyone => {"@everyone", "everyone"}
    case Here => {"@here", "here"}
    case Silent => {"none", "no"}
  }

  /**
   * `ping_options.get(content.lower())`: each of the six keywords selects
   * exactly one ping style, whatever its case; anything else is rejected.
   */
  function ParsePing(content: string): (r: Option<Ping>)
    ensures forall p :: r == Some(p) <==> Lower(content) in Aliases(p)
  {
    var key := Lower(content);
    if key == "@everyone" || key == "everyone" then Some(Everyone)
    else if key == "@here" || key == "here" then Some(Here)
    else if key == "none" || key == "no" then Some(Silent)
    else None
  }

  lemma LowerIdempotent(s: string)
    ensures Lower(Lower(s)) == Lower(s)
  {
  }

  /** The text a ping style is stored as is itself accepted, as that same style. */
  lemma ParsePingText(p: Ping)
    ensures ParsePing(p.Text()) == Some(p)
  {
    var t := p.Text();
    assert Lower(t) == t by {
      forall i | 0 <= i < |t| ensures LowerChar(t[i]) == t[i] {
      }
    }
  }

  /** The keyword match ignores case: lower-casing the reply first changes nothing. */
  lemma ParsePingIgnoresCase(content: string)
    ensures ParsePing(Lower(content)) == ParsePing(content)
  {
    LowerIdempotent(content);
  }

  /* ---------- check-in time ---------- */

  /** `f"{hour:02d}:{minute:02d}"` */
  function FormatTime(hour: nat, minute: nat): (t: string)
    requires hour < 24 && minute < 60
  {
    Pad2(hour) + ":" + Pad2(minute)
  }

  /** A 24-hour clock time written `HH:MM` with both fields zero-padded. */
  predicate IsClockTime(t: string)
  {
    && |t| == 5 && t[2] == ':'
    && IsDigit(t[0]) && IsDigit(t[1]) && IsDigit(t[3]) && IsDigit(t[4])
    && 10 * DigitValue(t[0]) + DigitValue(t[1]) <= 23
    && 10 * DigitValue(t[3]) + DigitValue(t[4]) <= 59
  }

  lemma FormatTimeIsClockTime(hour: nat, minute: nat)
    requires hour < 24 && minute < 60
    ensures IsClockTime(FormatTime(hour, minute))
  {
  }

  /**
   * Step 7 of the wizard: exactly two `:`-separated integers, an hour in
   * 0..23 and a minute in 0..59, stored zero-padded; anything else is the
   * "Invalid Time" rejection.
   */
  function ParseTime(content: string): (r: Option<string>)
    ensures r.Some? ==> IsClockTime(r.value)
    ensures Count(content, ':') != 1 ==> r.None?
    ensures r.Some? ==> ParseStoredTime(r.value) == ParseStoredTime(content)
  {
    var parts := Split(content, ':');
    if |parts| != 2 then None
    else
      match (ParseInt(parts[0]), ParseInt(parts[1]))
      case (Some(h), Some(m)) =>
        if 0 <= h <= 23 && 0 <= m <= 59 then
          FormatTimeIsClockTime(h, m);
          ParseStoredTimeFormatted(h, m);
          Some(FormatTime(h, m))
        else None
      case _ => None
  }

  /** `FormatTime(h, m).split(':')` is the two padded fields. */
  lemma SplitFormatTime(hour: nat, minute: nat)
    requires hour < 24 && minute < 60
    ensures Split(FormatTime(hour, minute), ':') == [Pad2(hour), Pad2(minute)]
  {
    var t := FormatTime(hour, minute);
    var parts := Split(t, ':');
    assert ':' !in Pad2(minute);
    CountAbsent(Pad2(minute), ':');
    assert Count(t[2..], ':') == 1 by {
      assert t[2..] == [':'] + Pad2(minute);
      assert t[2..][1..] == Pad2(minute);
    }
    assert Count(t, ':') == 1 by {
      assert t[1..] == t[1..2] + t[2..];
      assert t[1..][1..] == t[2..];
    }
    assert |parts| == 2;
    assert Join(parts, ':') == parts[0] + [':'] + parts[1];
    assert ':' !in parts[0] && ':' !in parts[1];
    // The only colon of t is at index 2, so it separates the two parts.
    assert |parts[0]| == 2;
    assert parts[0] == t[..2] == Pad2(hour);
    assert parts[1] == t[3..] == Pad2(minute);
  }

  /** A stored time is accepted again unchanged: the stored form is a fixed point. */
  lemma ParseTimeFormatted(hour: nat, minute: nat)
    requires hour < 24 && minute < 60
    ensures ParseTime(FormatTime(hour, minute)) == Some(FormatTime(hour, minute))
  {
    SplitFormatTime(hour, minute);
    ParseIntPad2(hour);
    ParseIntPad2(minute);
  }

  /**
   * The daily check-in's reading of `settings['time']`: the first two
   * `:`-separated fields as integers, no range check; `None` where Python
   * raises (fewer than two fields, or a field that is not an integer).
   */
  function ParseStoredTime(t: string): Option<(int, int)>
  {
    var parts := Split(t, ':');
    if |parts| < 2 then None
    else
      match (ParseInt(parts[0]), ParseInt(parts[1]))
      case (Some(h), Some(m)) => Some((h, m))
      case _ => None
  }

  /** The check-in reads back exactly the hour and minute the wizard stored. */
  lemma ParseStoredTimeFormatted(hour: nat, minute: nat)
    requires hour < 24 && minute < 60
    ensures ParseStoredTime(FormatTime(hour, minute)) == Some((hour, minute))
  {
    SplitFormatTime(hour, minute);
    ParseIntPad2(hour);
    ParseIntPad2(minute);
  }

  /**
   * Conversely, any reply with one `:` between two integers in range is
   * accepted, however it is spaced or padded, and stored zero-padded.
   */
  lemma ParseTimeAccepts(content: string, hour: int, minute: int)
    requires Count(content, ':') == 1
    requires ParseStoredTime(content) == Some((hour, minute))
    requires 0 <= hour < 24 && 0 <= minute < 60
    ensures ParseTime(content) == Some(FormatTime(hour, minute))
  {
  }

  /** `9:5` is stored as `09:05`. */
  lemma ParseTimePadsShortFields()
    ensures ParseTime("9:5") == Some("09:05")
  {
    SplitNineFive();
    OneDigit('9');
    OneDigit('5');
    assert Count("9:5", ':') == 1;
    ParseTimeAccepts("9:5", 9, 5);
    FormatNineFive();
  }

  lemma SplitNineFive()
    ensures Split("9:5", ':') == ["9", "5"]
  {
    var t := "9:5";
    assert t[1..] == ":5" && t[1..][1..] == "5" && "5"[1..] == "";
    assert Split("5", ':') == ["5"];
    assert Split(":5", ':') == ["", "5"];
    assert t[0] == '9' && [t[0]] + "" == "9" && ["", "5"][1..] == ["5"];
    assert Split(t, ':') == [[t[0]] + Split(t[1..], ':')[0]] + Split(t[1..], ':')[1..];
  }

  lemma FormatNineFive()
    ensures FormatTime(9, 5) == "09:05"
  {
    assert Pad2(9) == "09" && Pad2(5) == "05";
  }

  /** `int()` of a single ASCII digit. */
  lemma OneDigit(c: char)
    requires IsDigit(c)
    ensures ParseInt([c]) == Some(DigitValue(c))
  {
    assert !IsSpace(c);
    assert TrimLeft([c], Whitespace) == [c];
    assert TrimRight([c], Whitespace) == [c];
    assert Strip([c]) == [c];
    assert AllDigits([c]) && [c][..0] == [];
    assert DigitsValue([c]) == DigitValue(c);
  }

  /* ---------- channel reference ---------- */

  /** `guild.get_channel(id)`: the channel with that id, of any kind. */
  function GetChannel(guild: seq<Channel>, id: int): (r: Option<Channel>)
    ensures r.Some? ==> r.value in guild && r.value.id == id
    ensures r.None? ==> forall c :: c in guild ==> c.id != id
  {
    if |guild| == 0 then None
    else if guild[0].id == id then Some(guild[0])
    else GetChannel(guild[1..], id)
  }

  /** `ch` is the earliest text channel of `guild` called `name`. */
  ghost predicate FirstTextNamed(guild: seq<Channel>, name: string, ch: Channel)
  {
    exists i :: 0 <= i < |guild| && guild[i] == ch && ch.isText && ch.name == name
      && forall j :: 0 <= j < i ==> !(guild[j].isText && guild[j].name == name)
  }

  /** Being first among the later channels, behind one that does not match, is being first. */
  lemma FirstTextNamedBehind(guild: seq<Channel>, name: string, ch: Channel)
    requires |guild| > 0 && !(guild[0].isText && guild[0].name == name)
    requires FirstTextNamed(guild[1..], name, ch)
    ensures FirstTextNamed(guild, name, ch)
  {
    var i :| 0 <= i < |guild[1..]| && guild[1..][i] == ch && ch.isText && ch.name == name
      && forall j :: 0 <= j < i ==> !(guild[1..][j].isText && guild[1..][j].name == name);
    assert guild[i + 1] == ch;
    forall j | 0 <= j < i + 1
      ensures !(guild[j].isText && guild[j].name == name)
    {
      if j > 0 {
        assert guild[j] == guild[1..][j - 1];
      }
    }
  }

  /** `discord.utils.get(guild.text_channels, name=name)`: the first text channel so named. */
  function TextChannelNamed(guild: seq<Channel>, name: string): (r: Option<Channel>)
    ensures r.Some? ==> r.value in guild && r.value.isText && r.value.name == name
    ensures r.Some? ==> FirstTextNamed(guild, name, r.value)
    ensures r.None? ==> forall c :: c in guild && c.isText ==> c.name != name
  {
    if |guild| == 0 then None
    else if guild[0].isText && guild[0].name == name then Some(guild[0])
    else
      var r := TextChannelNamed(guild[1..], name);
      if r.Some? then FirstTextNamedBehind(guild, name, r.value); r else r
  }

  /** The id written in a `<#id>` mention, if the (stripped) reply is one. */
  function MentionedId(c: string): Option<int>
  {
    if |c| >= 3 && c[..2] == "<#" && c[|c| - 1] == '>' then ParseInt(c[2..|c| - 1]) else None
  }

  /** The channel name a reply stands for when it is not a usable mention. */
  function NamedIn(c: string): string
  {
    StripHashes(c)
  }

  /**
   * `parse_channel`: a `<#id>` mention of a text channel resolves to it;
   * otherwise the reply, with its leading `#` characters removed, is looked
   * up as the name of a text channel.
   */
  function ParseChannel(guild: seq<Channel>, content: string): (r: Option<Channel>)
    ensures r.Some? ==> r.value in guild && r.value.isText
    ensures r.Some? ==> MentionedId(Strip(content)) == Some(r.value.id) || r.value.name == NamedIn(Strip(content))
    ensures r.None? ==> forall ch :: ch in guild && ch.isText ==> ch.name != NamedIn(Strip(content))
    ensures forall id, ch :: MentionedId(Strip(content)) == Some(id) && GetChannel(guild, id) == Some(ch) && ch.isText ==> r == Some(ch)
    ensures (forall id, ch :: MentionedId(Strip(content)) == Some(id) && GetChannel(guild, id) == Some(ch) ==> !ch.isText) ==>
      r.Some? ==> FirstTextNamed(guild, NamedIn(Strip(content)), r.value)
  {
    var c := Strip(content);
    var mentioned := match MentionedId(c)
      case Some(id) => GetChannel(guild, id)
      case None => None;
    if mentioned.Some? && mentioned.value.isText then mentioned
    else TextChannelNamed(guild, NamedIn(c))
  }
}
