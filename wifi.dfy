/** The wifi service's access point helpers (core/services/wifi): the hostapd
    hardware mode chosen from a channel, the channel parsed from the output of
    `iw <interface> info`, the configuration file hostapd is started with, and
    HotspotManager's running/stop logic. The two source files, Hotspot.py and
    the run_ap.py script, carry the same helpers; each is defined once here. */
module Hostapd {
  import opened Base

  /** HostapdFrequency: the hostapd hw_mode for the 2.4 GHz and the 5 GHz band. */
  datatype HostapdFrequency = HW_2_4 | HW_5_0

  /** The enum's value, which the configuration file receives. */
  function FrequencyValue(f: HostapdFrequency): (r: string)
    ensures |r| == 1 && r[0] != '\n'
  {
    match f
    case HW_2_4 => "g"
    case HW_5_0 => "a"
  }

  /** The channels of the 2.4 GHz band: range(1, 15). */
  function Valid24Channels(): (r: seq<int>)
    ensures |r| == 14 && forall k :: 0 <= k < 14 ==> r[k] == k + 1
  {
    seq(14, k => k + 1)
  }

  /** mode_from_channel: the 2.4 GHz mode for a listed channel, 5 GHz for
      every other number, 0 and negative ones included. */
  function ModeFromChannel(channel: int): HostapdFrequency
  {
    if channel in Valid24Channels() then HW_2_4 else HW_5_0
  }

  /** The band test is the range 1..14, and the two modes write different
      values. */
  lemma ModeFromChannelBands(channel: int)
    ensures ModeFromChannel(channel) == HW_2_4 <==> 1 <= channel <= 14
    ensures FrequencyValue(ModeFromChannel(channel)) == (if 1 <= channel <= 14 then "g" else "a")
  {
    if 1 <= channel <= 14 {
      assert Valid24Channels()[channel - 1] == channel;
    }
  }

  // ------------------------------------------------------- channel from iw

  const ChannelTag := "channel "

  /** The first position at which `tag` occurs in `text`. */
  function FirstOccurrence(text: string, tag: string): Option<nat>
    decreases |text|
  {
    if |text| < |tag| then None
    else if text[..|tag|] == tag then Some(0)
    else
      match FirstOccurrence(text[1..], tag)
      case None => None
      case Some(k) => Some(k + 1)
  }

  /** The position found is an occurrence and no earlier one exists; None
      means there is no occurrence at all. */
  lemma {:induction false} FirstOccurrenceIsFirst(text: string, tag: string)
    ensures var r := FirstOccurrence(text, tag);
      && (r.Some? ==> r.value <= |text| - |tag| && StartsWith(text[r.value..], tag))
      && (r.Some? ==> forall j :: 0 <= j < r.value ==> !StartsWith(text[j..], tag))
      && (r.None? ==> forall j :: 0 <= j <= |text| ==> !StartsWith(text[j..], tag))
    decreases |text|
  {
    if |text| >= |tag| && text[..|tag|] != tag {
      FirstOccurrenceIsFirst(text[1..], tag);
      forall j | 1 <= j <= |text|
        ensures StartsWith(text[j..], tag) == StartsWith(text[1..][j - 1..], tag)
      {
        assert text[j..] == text[1..][j - 1..];
      }
      assert text[0..] == text;
    }
  }

  /** Where the first match of the pattern `channel \d*` starts: the first
      occurrence of "channel " (the digits may be none). */
  function FindChannel(text: string): (r: Option<nat>)
    ensures r.Some? ==> r.value <= |text| - |ChannelTag| && StartsWith(text[r.value..], ChannelTag)
    ensures r.Some? ==> forall j :: 0 <= j < r.value ==> !StartsWith(text[j..], ChannelTag)
    ensures r.None? ==> forall j :: 0 <= j <= |text| ==> !StartsWith(text[j..], ChannelTag)
  {
    FirstOccurrenceIsFirst(text, ChannelTag);
    FirstOccurrence(text, ChannelTag)
  }

  /** The longest run of ASCII digits at the start of s. */
  function LeadingDigits(s: string): (r: string)
    ensures |r| <= |s| && r == s[..|r|] && AllDigits(r)
    ensures |r| < |s| ==> !IsDigit(s[|r|])
  {
    if s == [] || !IsDigit(s[0]) then [] else [s[0]] + LeadingDigits(s[1..])
  }

  /** base_interface_channel / interface_running_channel on the text of the
      iw output: take the first `channel \d*` match, split it on white
      space and convert the second word. No match, or a match without
      digits, leaves no such word: IndexError. */
  function ParseChannel(text: string): (r: Result<nat>)
    ensures FindChannel(text).None? ==> r == Err(IndexError)
    ensures r.Err? ==> r.error == IndexError
  {
    match FindChannel(text)
    case None => Err(IndexError)
    case Some(k) =>
      var digits := LeadingDigits(text[k + |ChannelTag|..]);
      if digits == [] then Err(IndexError) else Ok(ParseDigits(digits))
  }

  lemma {:induction false} FirstOccurrenceExtends(a: string, b: string, tag: string, k: nat)
    requires FirstOccurrence(a, tag) == Some(k)
    ensures FirstOccurrence(a + b, tag) == Some(k)
    decreases |a|
  {
    assert (a + b)[..|tag|] == a[..|tag|];
    if a[..|tag|] != tag {
      assert (a + b)[1..] == a[1..] + b;
      FirstOccurrenceExtends(a[1..], b, tag, k - 1);
    }
  }

  lemma FindChannelExtends(a: string, b: string, k: nat)
    requires FindChannel(a) == Some(k)
    ensures FindChannel(a + b) == Some(k)
  {
    FirstOccurrenceExtends(a, b, ChannelTag, k);
  }

  lemma {:induction false} LeadingDigitsOf(d: string, after: string)
    requires AllDigits(d) && (after == [] || !IsDigit(after[0]))
    ensures LeadingDigits(d + after) == d
    decreases |d|
  {
    if d == [] {
      assert d + after == after;
    } else {
      assert (d + after)[0] == d[0] && (d + after)[1..] == d[1..] + after;
      LeadingDigitsOf(d[1..], after);
    }
  }

  /** A channel written after the first "channel " of the text, and ended by
      anything but a digit, is the channel read back. */
  lemma ParseChannelRoundTrip(before: string, n: nat, after: string)
    requires FindChannel(before + ChannelTag) == Some(|before|)
    requires after == [] || !IsDigit(after[0])
    ensures ParseChannel(before + ChannelTag + NatToString(n) + after) == Ok(n)
  {
    var digits := NatToString(n);
    FirstMatchKept(before, digits + after);
    assert before + ChannelTag + digits + after == before + ChannelTag + (digits + after);
    NatToStringDigits(n);
    ParseNatToString(n);
    ParseChannelFrom(before + ChannelTag + (digits + after), |before|, digits, after);
  }

  /** Text after the first "channel " keeps that match, and follows it. */
  lemma FirstMatchKept(before: string, tail: string)
    requires FindChannel(before + ChannelTag) == Some(|before|)
    ensures FindChannel(before + ChannelTag + tail) == Some(|before|)
    ensures (before + ChannelTag + tail)[|before| + |ChannelTag|..] == tail
  {
    FindChannelExtends(before + ChannelTag, tail, |before|);
  }

  /** ParseChannel when the first match is at k and is followed by a run of
      digits that ends at a non-digit. */
  lemma ParseChannelFrom(text: string, k: nat, digits: string, after: string)
    requires FindChannel(text) == Some(k) && text[k + |ChannelTag|..] == digits + after
    requires digits != [] && AllDigits(digits) && (after == [] || !IsDigit(after[0]))
    ensures ParseChannel(text) == Ok(ParseDigits(digits))
  {
    LeadingDigitsOf(digits, after);
  }

  /** desired_channel and run_ap.py's `desired_channel`: the parsed channel,
      or 1 when it is 0 (or None); a failed parse propagates. */
  function DesiredChannel(parsed: Result<Option<nat>>): (r: Result<nat>)
    ensures parsed.Err? <==> r.Err?
    ensures parsed.Err? ==> r.error == parsed.error
    ensures r.Ok? ==> r.value >= 1
    ensures parsed.Ok? && parsed.value.Some? && parsed.value.value != 0 ==> r == Ok(parsed.value.value)
  {
    match parsed
    case Err(e) => Err(e)
    case Ok(None) => Ok(1)
    case Ok(Some(c)) => if c == 0 then Ok(1) else Ok(c)
  }

  /** The channel the hotspot asks for on an iw output that reports channel
      0 is 1, a 2.4 GHz channel. */
  lemma ChannelZeroFallsBackTo24(before: string, after: string)
    requires FindChannel(before + ChannelTag) == Some(|before|)
    requires after == [] || !IsDigit(after[0])
    ensures var c := ParseChannel(before + ChannelTag + "0" + after);
      && DesiredChannel(if c.Ok? then Ok(Some(c.value)) else Err(c.error)) == Ok(1)
      && ModeFromChannel(1) == HW_2_4
  {
    assert NatToString(0) == "0";
    ParseChannelRoundTrip(before, 0, after);
    ModeFromChannelBands(1);
  }

  // ------------------------------------------------------ configuration file

  /** A line of the hostapd configuration: a `# ` comment or a `key=value`
      setting. */
  datatype ConfigLine = Comment(text: string) | Setting(key: string, value: string)

  function LineText(line: ConfigLine): string
  {
    match line
    case Comment(text) => "# " + text
    case Setting(key, value) => key + "=" + value
  }

  /** The template's lines, in order. */
  function ConfigEntries(iface: string, channel: int, ssid: string, passphrase: string,
                         hwMode: HostapdFrequency): seq<ConfigLine>
  {
    [ Comment("WiFi interface to be used (in this case a virtual one)"),
      Setting("interface", iface),
      Comment("Channel (frequency) of the access point"),
      Setting("channel", IntToString(channel)),
      Comment("SSID broadcasted by the access point"),
      Setting("ssid", ssid),
      Comment("Passphrase for the access point"),
      Setting("wpa_passphrase", passphrase),
      Comment("Use the 2.4GHz band"),
      Setting("hw_mode", FrequencyValue(hwMode)),
      Comment("Accept all MAC addresses"),
      Setting("macaddr_acl", "0"),
      Comment("Use WPA authentication"),
      Setting("auth_algs", "1"),
      Comment("Require clients to know the network name"),
      Setting("ignore_broadcast_ssid", "0"),
      Comment("Use WPA2"),
      Setting("wpa", "2"),
      Comment("Use a pre-shared key"),
      Setting("wpa_key_mgmt", "WPA-PSK"),
      Setting("wpa_pairwise", "TKIP"),
      Setting("rsn_pairwise", "CCMP") ]
  }

  /** Each line of the configuration after the template's indentation. */
  function IndentedLines(indent: string, entries: seq<ConfigLine>): (r: seq<string>)
    ensures |r| == |entries| && forall k :: 0 <= k < |entries| ==> r[k] == indent + LineText(entries[k])
  {
    if entries == [] then [] else [indent + LineText(entries[0])] + IndentedLines(indent, entries[1..])
  }

  /** The triple-quoted template: a line break, each line after the
      template's indentation, and the indentation of the closing quotes. */
  function HostapdConfig(indent: string, entries: seq<ConfigLine>): string
  {
    Join([""] + IndentedLines(indent, entries) + [indent], '\n')
  }

  /** run_ap.py's hostapd_config: its five parameters in a template indented
      by four spaces. */
  function RunApHostapdConfig(apInterface: string, apChannel: int, apSsid: string, apPassphrase: string,
                              apHwMode: HostapdFrequency): string
  {
    HostapdConfig("    ", ConfigEntries(apInterface, apChannel, apSsid, apPassphrase, apHwMode))
  }

  /** The value of the first line starting with `prefix`. */
  function FirstSetting(lines: seq<string>, prefix: string): (r: Option<string>)
    ensures r.Some? ==> exists k :: 0 <= k < |lines| && lines[k] == prefix + r.value
    ensures r.None? ==> forall k :: 0 <= k < |lines| ==> !StartsWith(lines[k], prefix)
  {
    if lines == [] then None
    else if StartsWith(lines[0], prefix) then
      assert lines[0] == prefix + lines[0][|prefix|..];
      Some(lines[0][|prefix|..])
    else
      var r := FirstSetting(lines[1..], prefix);
      if r.Some? then
        var k :| 0 <= k < |lines[1..]| && lines[1..][k] == prefix + r.value;
        assert lines[k + 1] == prefix + r.value;
        r
      else r
  }

  /** What hostapd reads for a key: the value of the key's first line. */
  function ReadSetting(config: string, indent: string, key: string): Option<string>
  {
    FirstSetting(Split(config, '\n'), indent + key + "=")
  }

  /** The value of the first setting of a key among the entries. */
  function Lookup(entries: seq<ConfigLine>, key: string): (r: Option<string>)
    ensures r.Some? ==> exists k :: 0 <= k < |entries| && entries[k] == Setting(key, r.value)
    ensures r.None? ==> forall k :: 0 <= k < |entries| ==> !(entries[k].Setting? && entries[k].key == key)
  {
    if entries == [] then None
    else if entries[0].Setting? && entries[0].key == key then Some(entries[0].value)
    else
      var r := Lookup(entries[1..], key);
      if r.Some? then
        var k :| 0 <= k < |entries[1..]| && entries[1..][k] == Setting(key, r.value);
        assert entries[k + 1] == Setting(key, r.value);
        r
      else r
  }

  /** A key hostapd can tell apart: not empty, no '=' and not a comment. */
  predicate PlainKey(key: string)
  {
    |key| > 0 && '=' !in key && key[0] != '#'
  }

  /** An entry that renders as one text line, with a plain key. */
  predicate LineOk(line: ConfigLine)
  {
    '\n' !in LineText(line) && (line.Setting? ==> PlainKey(line.key))
  }

  predicate OneLineEach(entries: seq<ConfigLine>)
  {
    forall k :: 0 <= k < |entries| ==> LineOk(entries[k])
  }

  /** The line of a setting starts with `key=` exactly for its own key. */
  lemma {:induction false} SettingPrefix(line: ConfigLine, key: string)
    requires PlainKey(key) && (line.Setting? ==> PlainKey(line.key))
    ensures StartsWith(LineText(line), key + "=") <==> line.Setting? && line.key == key
  {
    var t := LineText(line);
    var p := key + "=";
    if line.Comment? {
      assert t[0] == '#' && p[0] == key[0];
    } else {
      var k := line.key;
      assert t == k + "=" + line.value;
      if k == key {
        assert t[..|p|] == p;
      } else if |k| < |key| {
        assert key[|k|] in key;
        assert t[|k|] == '=' && p[|k|] == key[|k|] != '=';
      } else if |k| > |key| {
        assert k[|key|] in k;
        if |t| >= |p| {
          assert t[|key|] == k[|key|] != '=' && p[|key|] == '=';
        }
      } else {
        var i :| 0 <= i < |k| && k[i] != key[i];
        assert t[i] == k[i] && p[i] == key[i];
      }
    }
  }

  lemma {:induction false} StartsWithIndented(indent: string, line: string, prefix: string)
    ensures StartsWith(indent + line, indent + prefix) <==> StartsWith(line, prefix)
    ensures StartsWith(indent + line, indent + prefix) ==> (indent + line)[|indent + prefix|..] == line[|prefix|..]
  {
    if StartsWith(line, prefix) {
      assert (indent + line)[..|indent + prefix|] == indent + line[..|prefix|];
    }
    if StartsWith(indent + line, indent + prefix) {
      assert line[..|prefix|] == (indent + line)[..|indent + prefix|][|indent|..];
    }
  }

  lemma {:induction false} FirstSettingIsLookup(indent: string, entries: seq<ConfigLine>, key: string)
    requires OneLineEach(entries) && PlainKey(key)
    ensures FirstSetting(IndentedLines(indent, entries) + [indent], indent + key + "=") == Lookup(entries, key)
    decreases |entries|
  {
    var prefix := indent + key + "=";
    assert prefix == indent + (key + "=");
    var lines := IndentedLines(indent, entries) + [indent];
    if entries == [] {
      assert lines == [indent];
      assert !StartsWith(indent, prefix);
    } else {
      var line := entries[0];
      assert lines[0] == indent + LineText(line);
      assert lines[1..] == IndentedLines(indent, entries[1..]) + [indent];
      SettingPrefix(line, key);
      StartsWithIndented(indent, LineText(line), key + "=");
      if line.Setting? && line.key == key {
        assert LineText(line)[|key + "="|..] == line.value;
      } else {
        FirstSettingIsLookup(indent, entries[1..], key);
      }
    }
  }

  /** Reading a key from the rendered configuration gives the value of the
      key's first entry, and nothing for a key with no entry. */
  lemma {:induction false} ReadSettingIsLookup(indent: string, entries: seq<ConfigLine>, key: string)
    requires '\n' !in indent && OneLineEach(entries) && PlainKey(key)
    ensures ReadSetting(HostapdConfig(indent, entries), indent, key) == Lookup(entries, key)
  {
    var parts := [""] + IndentedLines(indent, entries) + [indent];
    forall k | 0 <= k < |parts|
      ensures '\n' !in parts[k]
    {
      if 0 < k <= |entries| {
        assert parts[k] == indent + LineText(entries[k - 1]);
      }
    }
    SplitJoin(parts, '\n');
    assert parts[1..] == IndentedLines(indent, entries) + [indent];
    assert !StartsWith(parts[0], indent + key + "=");
    FirstSettingIsLookup(indent, entries, key);
  }

  lemma IntToStringOneLine(i: int)
    ensures '\n' !in IntToString(i)
  {
    if i < 0 {
      NatToStringDigits(-i);
      assert IntToString(i)[1..] == NatToString(-i);
    } else {
      NatToStringDigits(i);
    }
  }

  // One lemma per comment of the template: none holds a line break.

  lemma InterfaceCommentOneLine()
    ensures '\n' !in "WiFi interface to be used (in this case a virtual one)"
  {
    var head, tail := "WiFi interface to be used (in this case ", "a virtual one)";
    assert '\n' !in head && '\n' !in tail;
    assert head + tail == "WiFi interface to be used (in this case a virtual one)";
  }

  lemma ChannelCommentOneLine()
    ensures '\n' !in "Channel (frequency) of the access point"
  {
  }

  lemma SsidCommentOneLine()
    ensures '\n' !in "SSID broadcasted by the access point"
  {
  }

  lemma PassphraseCommentOneLine()
    ensures '\n' !in "Passphrase for the access point"
  {
  }

  lemma BandCommentOneLine()
    ensures '\n' !in "Use the 2.4GHz band"
  {
  }

  lemma MacCommentOneLine()
    ensures '\n' !in "Accept all MAC addresses"
  {
  }

  lemma AuthCommentOneLine()
    ensures '\n' !in "Use WPA authentication"
  {
  }

  lemma BroadcastCommentOneLine()
    ensures '\n' !in "Require clients to know the network name"
  {
  }

  lemma Wpa2CommentOneLine()
    ensures '\n' !in "Use WPA2"
  {
  }

  lemma PskCommentOneLine()
    ensures '\n' !in "Use a pre-shared key"
  {
  }

  lemma KeysPlainA()
    ensures PlainKey("interface") && '\n' !in "interface" && PlainKey("channel") && '\n' !in "channel"
    ensures PlainKey("ssid") && '\n' !in "ssid" && PlainKey("wpa") && '\n' !in "wpa"
  {
  }

  lemma KeysPlainB()
    ensures PlainKey("wpa_passphrase") && '\n' !in "wpa_passphrase" && PlainKey("hw_mode") && '\n' !in "hw_mode"
  {
  }

  lemma KeysPlainC()
    ensures PlainKey("macaddr_acl") && '\n' !in "macaddr_acl" && PlainKey("auth_algs") && '\n' !in "auth_algs"
  {
  }

  lemma KeysPlainD()
    ensures PlainKey("ignore_broadcast_ssid") && '\n' !in "ignore_broadcast_ssid"
  {
  }

  lemma KeysPlainE()
    ensures PlainKey("wpa_key_mgmt") && '\n' !in "wpa_key_mgmt" && PlainKey("wpa_pairwise") && '\n' !in "wpa_pairwise"
  {
  }

  lemma KeysPlainF()
    ensures PlainKey("rsn_pairwise") && '\n' !in "rsn_pairwise"
    ensures '\n' !in "0" && '\n' !in "1" && '\n' !in "2" && '\n' !in "WPA-PSK" && '\n' !in "TKIP" && '\n' !in "CCMP"
  {
  }

  lemma ConfigEntriesOneLine(iface: string, channel: int, ssid: string, passphrase: string, hwMode: HostapdFrequency)
    requires '\n' !in iface && '\n' !in ssid && '\n' !in passphrase
    ensures OneLineEach(ConfigEntries(iface, channel, ssid, passphrase, hwMode))
  {
    IntToStringOneLine(channel);
    InterfaceCommentOneLine();
    ChannelCommentOneLine();
    SsidCommentOneLine();
    PassphraseCommentOneLine();
    BandCommentOneLine();
    MacCommentOneLine();
    AuthCommentOneLine();
    BroadcastCommentOneLine();
    Wpa2CommentOneLine();
    PskCommentOneLine();
    KeysPlainA();
    KeysPlainB();
    KeysPlainC();
    KeysPlainD();
    KeysPlainE();
    KeysPlainF();
    var e := ConfigEntries(iface, channel, ssid, passphrase, hwMode);
    forall k | 0 <= k < |e|
      ensures LineOk(e[k])
    {
    }
  }

  /** The first setting of a key decides its value. */
  lemma {:induction false} LookupAt(entries: seq<ConfigLine>, key: string, i: nat, value: string)
    requires i < |entries| && entries[i] == Setting(key, value)
    requires forall k :: 0 <= k < i ==> entries[k].Comment? || entries[k].key != key
    ensures Lookup(entries, key) == Some(value)
    decreases i
  {
    if i > 0 {
      LookupAt(entries[1..], key, i - 1, value);
    }
  }

  /** A setting of the template reads back as its value, when no earlier
      setting has its key. */
  lemma ReadsBackKey(indent: string, iface: string, channel: int, ssid: string, passphrase: string,
                     hwMode: HostapdFrequency, key: string, i: nat, value: string)
    requires '\n' !in indent && '\n' !in iface && '\n' !in ssid && '\n' !in passphrase && PlainKey(key)
    requires i < 10 && ConfigEntries(iface, channel, ssid, passphrase, hwMode)[i] == Setting(key, value)
    requires forall k :: 0 <= k < i ==>
      ConfigEntries(iface, channel, ssid, passphrase, hwMode)[k].Comment?
      || ConfigEntries(iface, channel, ssid, passphrase, hwMode)[k].key != key
    ensures ReadSetting(HostapdConfig(indent, ConfigEntries(iface, channel, ssid, passphrase, hwMode)), indent, key)
         == Some(value)
  {
    var entries := ConfigEntries(iface, channel, ssid, passphrase, hwMode);
    ConfigEntriesOneLine(iface, channel, ssid, passphrase, hwMode);
    LookupAt(entries, key, i, value);
    ReadSettingIsLookup(indent, entries, key);
  }

  // One lemma per key keeps each proof small.

  lemma ReadsInterface(indent: string, iface: string, channel: int, ssid: string, passphrase: string, hwMode: HostapdFrequency)
    requires '\n' !in indent && '\n' !in iface && '\n' !in ssid && '\n' !in passphrase
    ensures ReadSetting(HostapdConfig(indent, ConfigEntries(iface, channel, ssid, passphrase, hwMode)), indent, "interface") == Some(iface)
  {
    KeysPlainA();
    KeysPlainB();
    ReadsBackKey(indent, iface, channel, ssid, passphrase, hwMode, "interface", 1, iface);
  }

  lemma ReadsChannel(indent: string, iface: string, channel: int, ssid: string, passphrase: string, hwMode: HostapdFrequency)
    requires '\n' !in indent && '\n' !in iface && '\n' !in ssid && '\n' !in passphrase
    ensures ReadSetting(HostapdConfig(indent, ConfigEntries(iface, channel, ssid, passphrase, hwMode)), indent, "channel") == Some(IntToString(channel))
  {
    KeysPlainA();
    KeysPlainB();
    ReadsBackKey(indent, iface, channel, ssid, passphrase, hwMode, "channel", 3, IntToString(channel));
  }

  lemma ReadsSsid(indent: string, iface: string, channel: int, ssid: string, passphrase: string, hwMode: HostapdFrequency)
    requires '\n' !in indent && '\n' !in iface && '\n' !in ssid && '\n' !in passphrase
    ensures ReadSetting(HostapdConfig(indent, ConfigEntries(iface, channel, ssid, passphrase, hwMode)), indent, "ssid") == Some(ssid)
  {
    KeysPlainA();
    KeysPlainB();
    ReadsBackKey(indent, iface, channel, ssid, passphrase, hwMode, "ssid", 5, ssid);
  }

  lemma ReadsPassphrase(indent: string, iface: string, channel: int, ssid: string, passphrase: string, hwMode: HostapdFrequency)
    requires '\n' !in indent && '\n' !in iface && '\n' !in ssid && '\n' !in passphrase
    ensures ReadSetting(HostapdConfig(indent, ConfigEntries(iface, channel, ssid, passphrase, hwMode)), indent, "wpa_passphrase") == Some(passphrase)
  {
    KeysPlainA();
    KeysPlainB();
    ReadsBackKey(indent, iface, channel, ssid, passphrase, hwMode, "wpa_passphrase", 7, passphrase);
  }

  lemma ReadsHwMode(indent: string, iface: string, channel: int, ssid: string, passphrase: string, hwMode: HostapdFrequency)
    requires '\n' !in indent && '\n' !in iface && '\n' !in ssid && '\n' !in passphrase
    ensures ReadSetting(HostapdConfig(indent, ConfigEntries(iface, channel, ssid, passphrase, hwMode)), indent, "hw_mode") == Some(FrequencyValue(hwMode))
  {
    KeysPlainA();
    KeysPlainB();
    ReadsBackKey(indent, iface, channel, ssid, passphrase, hwMode, "hw_mode", 9, FrequencyValue(hwMode));
  }

  /** Reading the configuration back gives each parameter: the interface,
      the channel as str(int), the SSID, the passphrase and the band's
      hw_mode value, whatever text the parameters hold as long as it stays on
      one line. */
  lemma HostapdConfigReadsBack(indent: string, iface: string, channel: int, ssid: string,
                               passphrase: string, hwMode: HostapdFrequency)
    requires '\n' !in indent && '\n' !in iface && '\n' !in ssid && '\n' !in passphrase
    ensures var config := HostapdConfig(indent, ConfigEntries(iface, channel, ssid, passphrase, hwMode));
      && ReadSetting(config, indent, "interface") == Some(iface)
      && ReadSetting(config, indent, "channel") == Some(IntToString(channel))
      && ReadSetting(config, indent, "ssid") == Some(ssid)
      && ReadSetting(config, indent, "wpa_passphrase") == Some(passphrase)
      && ReadSetting(config, indent, "hw_mode") == Some(FrequencyValue(hwMode))
  {
    ReadsInterface(indent, iface, channel, ssid, passphrase, hwMode);
    ReadsChannel(indent, iface, channel, ssid, passphrase, hwMode);
    ReadsSsid(indent, iface, channel, ssid, passphrase, hwMode);
    ReadsPassphrase(indent, iface, channel, ssid, passphrase, hwMode);
    ReadsHwMode(indent, iface, channel, ssid, passphrase, hwMode);
  }
}

/** HotspotManager (core/services/wifi/Hotspot.py): the hostapd child process
    and the DHCP server that hands out addresses on the access point. */
module Hotspot {
  import opened Base
  import opened Processes
  import opened Hostapd
  import DHCPServer

  const ApInterfaceName := "uap0"
  const ApSsid := "BlueOS"
  const ApPassphrase := "blueosbr"
  /** The indentation of the hostapd template's lines. */
  const TemplateIndent := "        "

  lemma IndentOneLine()
    ensures '\n' !in TemplateIndent
  {
  }

  lemma InterfaceNameOneLine()
    ensures '\n' !in ApInterfaceName
  {
  }

  lemma SsidOneLine()
    ensures '\n' !in ApSsid
  {
  }

  lemma PassphraseOneLine()
    ensures '\n' !in ApPassphrase
  {
  }

  /** __init__ as written: a missing base interface raises ValueError; past
      that check, the statement meant to clear the DHCP server assigns to a
      subscript of typing.Optional, which raises TypeError, so no manager is
      ever built. */
  function HotspotInitAsWritten(baseInterfaceExists: bool, binaryFound: bool, binaryWorks: bool): (r: Outcome)
    ensures !baseInterfaceExists ==> r == Fail(ValueError)
  {
    if !baseInterfaceExists then Fail(ValueError) else Fail(TypeError)
  }

  lemma HotspotNeverConstructed(baseInterfaceExists: bool, binaryFound: bool, binaryWorks: bool)
    ensures HotspotInitAsWritten(baseInterfaceExists, binaryFound, binaryWorks).Fail?
    ensures baseInterfaceExists ==> HotspotInitAsWritten(baseInterfaceExists, binaryFound, binaryWorks) == Fail(TypeError)
  {
  }

  /** __init__ with the DHCP server cleared: the base interface must
      exist, hostapd must be on the PATH (ValueError) and answer `--help`
      (AssertionError); last, writing the configuration file first builds
      its path from `tempfile.tempdir`, which is None until something in
      the process has asked for the temporary directory (`tempdirSet`;
      None is a TypeError), then reads the channel from `iw`, whose output
      `iwOutput` must hold a channel number (IndexError). */
  function HotspotInit(baseInterfaceExists: bool, binaryFound: bool, binaryWorks: bool, tempdirSet: bool,
                       iwOutput: string): (r: Outcome)
    ensures r.Pass? <==> baseInterfaceExists && binaryFound && binaryWorks && tempdirSet && ParseChannel(iwOutput).Ok?
    ensures !baseInterfaceExists || !binaryFound ==> r == Fail(ValueError)
    ensures baseInterfaceExists && binaryFound && !binaryWorks ==> r == Fail(AssertionError)
    ensures baseInterfaceExists && binaryFound && binaryWorks && !tempdirSet ==> r == Fail(TypeError)
    ensures baseInterfaceExists && binaryFound && binaryWorks && tempdirSet && FindChannel(iwOutput).None? ==>
      r == Fail(IndexError)
  {
    if !baseInterfaceExists then Fail(ValueError)
    else if !binaryFound then Fail(ValueError)
    else if !binaryWorks then Fail(AssertionError)
    else if !tempdirSet then Fail(TypeError)
    else if ParseChannel(iwOutput).Err? then Fail(IndexError)
    else Pass
  }

  class HotspotManager {
    const baseInterface: string
    const ipv4Gateway: DHCPServer.IPv4
    var subprocess: Option<Process>
    var dhcpServer: DHCPServer.Dnsmasq?

    constructor(baseInterface: string, ipv4Gateway: DHCPServer.IPv4)
      ensures this.baseInterface == baseInterface && this.ipv4Gateway == ipv4Gateway
      ensures subprocess.None? && dhcpServer == null
    {
      this.baseInterface := baseInterface;
      this.ipv4Gateway := ipv4Gateway;
      subprocess := None;
      dhcpServer := null;
    }

    /** is_running: hostapd was started and poll() shows no exit code. */
    predicate IsRunning()
      reads this
    {
      Running(subprocess)
    }

    /** desired_channel on one `iw` output. */
    function DesiredChannelOf(iwOutput: string): (r: Result<nat>)
      ensures r.Ok? ==> r.value >= 1
      ensures r.Err? ==> r == Err(IndexError)
    {
      var c := ParseChannel(iwOutput);
      DesiredChannel(if c.Ok? then Ok(Some(c.value)) else Err(c.error))
    }

    /** hostapd_config on one `iw` output: the uap0 interface, the desired
        channel, the fixed SSID and passphrase, and the band of that channel,
        under an eight-space template indentation. */
    function HotspotConfig(iwOutput: string): (r: Result<string>)
      ensures DesiredChannelOf(iwOutput).Err? <==> r.Err?
    {
      match DesiredChannelOf(iwOutput)
      case Err(e) => Err(e)
      case Ok(channel) =>
        Ok(HostapdConfig(TemplateIndent, ConfigEntries(ApInterfaceName, channel, ApSsid, ApPassphrase, ModeFromChannel(channel))))
    }

    /** stop: only a running hostapd is killed; after it the DHCP server is
        stopped, when there is one. */
    method Stop()
      modifies this, dhcpServer
      ensures old(IsRunning()) ==> subprocess == Killed(old(subprocess))
      ensures !old(IsRunning()) ==> subprocess == old(subprocess)
      ensures dhcpServer == old(dhcpServer)
      ensures dhcpServer != null && old(IsRunning()) && old(dhcpServer.IsRunning()) ==>
        dhcpServer.subprocess == Killed(old(dhcpServer.subprocess))
      ensures dhcpServer != null && !(old(IsRunning()) && old(dhcpServer.IsRunning())) ==>
        dhcpServer.subprocess == old(dhcpServer.subprocess)
      ensures dhcpServer != null ==> dhcpServer.interfaces == old(dhcpServer.interfaces)
                                      && dhcpServer.launches == old(dhcpServer.launches)
    {
      if IsRunning() {
        subprocess := Killed(subprocess);
        if dhcpServer == null {
          return;
        }
        dhcpServer.Stop();
      }
    }
  }

  /** The hotspot configuration: interface uap0, SSID BlueOS, passphrase
      blueosbr, the channel read from iw (1 for channel 0), and a hw_mode
      that is "g" exactly for channels 1 to 14. */
  lemma HotspotConfigSettings(h: HotspotManager, iwOutput: string)
    requires h.HotspotConfig(iwOutput).Ok?
    ensures var config := h.HotspotConfig(iwOutput).value;
      var channel := h.DesiredChannelOf(iwOutput).value;
      && ReadSetting(config, TemplateIndent, "interface") == Some(ApInterfaceName)
      && ReadSetting(config, TemplateIndent, "ssid") == Some(ApSsid)
      && ReadSetting(config, TemplateIndent, "wpa_passphrase") == Some(ApPassphrase)
      && ReadSetting(config, TemplateIndent, "channel") == Some(NatToString(channel))
      && ReadSetting(config, TemplateIndent, "hw_mode") == Some(if channel <= 14 then "g" else "a")
  {
    var channel := h.DesiredChannelOf(iwOutput).value;
    assert h.HotspotConfig(iwOutput).value
        == HostapdConfig(TemplateIndent, ConfigEntries(ApInterfaceName, channel, ApSsid, ApPassphrase, ModeFromChannel(channel)));
    assert IntToString(channel) == NatToString(channel);
    IndentOneLine();
    InterfaceNameOneLine();
    SsidOneLine();
    PassphraseOneLine();
    HostapdConfigReadsBack(TemplateIndent, ApInterfaceName, channel, ApSsid, ApPassphrase, ModeFromChannel(channel));
    ModeFromChannelBands(channel);
  }
}
