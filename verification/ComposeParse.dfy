// Which strings are single-port Compose entries, what they say, and how they are written
// back, told by how the strings are put together.
module ComposeParse {
  import opened Wrappers
  import opened Chars
  import opened CharsSpec
  import opened Lines
  import opened Compose
  import opened Decimal

  // `c`, `h:c`, `:c`, `ip:h:c`, `ip::c`, `:h:c` or `::c`, with `/tcp` or `/udp` behind it or
  // not. What stands before a colon may be empty.
  datatype Parts = Parts(ip: Option<string>, host: Option<string>, container: string, suffix: string)

  function Text(p: Parts): string {
    (if p.ip.Some? then p.ip.value + ":" else "") + (if p.host.Some? then p.host.value + ":" else "")
    + p.container + p.suffix
  }

  ghost predicate Digits(s: string) {
    s != "" && forall k :: 0 <= k < |s| ==> '0' <= s[k] <= '9'
  }

  ghost predicate WellPut(p: Parts) {
    && Digits(p.container)
    && (p.host.Some? ==> p.host.value == "" || Digits(p.host.value))
    && (p.ip.Some? ==> p.host.Some? && ':' !in p.ip.value)
    && (p.suffix == "" || ((p.suffix == "/tcp" || p.suffix == "/udp") && (p.ip.Some? ==> '\n' !in p.ip.value)))
  }

  // Each part as written; an empty address or host is none.
  ghost predicate Says(p: Parts, e: ShortPort) {
    && e.ip == (if p.ip == Some("") then None else p.ip)
    && e.host == (if p.host == Some("") then None else p.host)
    && IsNumeral(p.container) && e.container == Decimal.Parse(p.container)
    && e.protocol == if p.suffix == "" then "tcp" else p.suffix[1..]
  }

  /* From the parts to the parse. */

  function Front(p: Parts): string {
    (if p.ip.Some? then p.ip.value + ":" else "") + (if p.host.Some? then p.host.value + ":" else "") + p.container
  }

  lemma NumeralFree(s: string)
    requires IsNumeral(s)
    ensures ':' !in s && '\n' !in s && '/' !in s
  {
  }

  lemma FrontFree(p: Parts)
    requires WellPut(p)
    ensures Front(p) != "" && IsDigit(Front(p)[|Front(p)| - 1])
    ensures p.suffix != "" ==> '\n' !in Front(p)
  {
    var f, c := Front(p), p.container;
    NumeralFree(c);
    if p.host.Some? && p.host.value != "" {
      NumeralFree(p.host.value);
    }
    assert f[|f| - 1] == c[|c| - 1];
  }

  lemma SuffixFound(p: Parts)
    requires WellPut(p)
    ensures Body(Text(p)) == Front(p) && ProtocolOf(Text(p)) == if p.suffix == "" then "tcp" else p.suffix[1..]
    ensures HasSuffix(Text(p)) <==> p.suffix != ""
  {
    hide IsNumeral, Front;
    FrontFree(p);
    TextIs(p);
    SuffixOfText(Front(p), p.suffix);
  }

  lemma TextIs(p: Parts)
    ensures Text(p) == Front(p) + p.suffix
  {
  }

  lemma SuffixOfText(f: string, suffix: string)
    requires f != "" && IsDigit(f[|f| - 1])
    requires suffix == "" || ((suffix == "/tcp" || suffix == "/udp") && '\n' !in f)
    ensures Body(f + suffix) == f && ProtocolOf(f + suffix) == if suffix == "" then "tcp" else suffix[1..]
    ensures HasSuffix(f + suffix) <==> suffix != ""
  {
    var v := f + suffix;
    if suffix == "" {
      assert v == f;
    } else {
      assert v[..|v| - 4] == f && v[|v| - 4..] == suffix && v[|v| - 3..] == suffix[1..];
    }
  }

  lemma SplitFront(p: Parts)
    requires WellPut(p)
    ensures Split(Front(p), COLON) ==
      (if p.ip.Some? then [p.ip.value] else []) + (if p.host.Some? then [p.host.value] else []) + [p.container]
  {
    hide Split, Contains;
    NumeralFree(p.container);
    NoColon(p.container);
    SplitOne(p.container, COLON);
    if p.host.Some? {
      if p.host.value != "" {
        NumeralFree(p.host.value);
      }
      NoColon(p.host.value);
      SplitCons(p.host.value, COLON, p.container);
      assert p.ip == None ==> Front(p) == p.host.value + COLON + p.container;
    } else {
      assert Front(p) == p.container;
    }
    if p.ip.Some? {
      NoColon(p.ip.value);
      SplitCons(p.ip.value, COLON, p.host.value + COLON + p.container);
      assert Front(p) == p.ip.value + COLON + (p.host.value + COLON + p.container);
    }
  }

  lemma PartsParse(p: Parts, e: ShortPort)
    requires WellPut(p)
    ensures ParseStripped(Text(p)) == Some(e) <==> Says(p, e)
  {
    hide Split, Body, ProtocolOf, HasSuffix, Text, Front;
    SuffixFound(p);
    SplitFront(p);
  }

  /* From the parse to the parts. */

  function PartsOf(v: string): Parts {
    var parts := Split(Body(v), COLON);
    Parts(if |parts| == 3 then Some(parts[0]) else None, if |parts| >= 2 then Some(parts[|parts| - 2]) else None,
          parts[|parts| - 1], if HasSuffix(v) then v[|v| - 4..] else "")
  }

  lemma {:induction false} ColonContained(s: string)
    requires ':' in s
    ensures Contains(s, COLON)
  {
    if s[0] == ':' {
      assert COLON <= s;
    } else {
      ColonContained(s[1..]);
    }
  }

  lemma BodyAndSuffix(v: string)
    ensures v == Body(v) + PartsOf(v).suffix
    ensures HasSuffix(v) ==> '\n' !in Body(v)
    ensures var suffix := PartsOf(v).suffix; suffix == "" || suffix == "/tcp" || suffix == "/udp"
    ensures HasSuffix(v) <==> PartsOf(v).suffix != ""
  {
    hide Split;
  }

  lemma FirstPart(s: string)
    ensures var parts := Split(s, COLON); ':' !in parts[0] && parts[0] <= s
  {
    hide Split, Contains;
    SplitUnbroken(s, COLON);
    var part := Split(s, COLON)[0];
    if ':' in part {
      ColonContained(part);
    }
  }

  lemma PrefixFree(a: string, s: string)
    requires a <= s && '\n' !in s
    ensures '\n' !in a
  {
    assert forall k :: 0 <= k < |a| ==> a[k] == s[k];
  }

  // The split parts of a parsed body, put together again.
  lemma FrontOfParts(v: string)
    requires |Split(Body(v), COLON)| <= 3
    ensures Front(PartsOf(v)) == Body(v) && Text(PartsOf(v)) == v
  {
    hide Split, HasSuffix, Body, Join;
    BodyAndSuffix(v);
    JoinSplit(Body(v), COLON);
    JoinedThree(Split(Body(v), COLON));
    TextIs(PartsOf(v));
  }

  lemma ParsedParts(v: string)
    requires ParseStripped(v).Some?
    ensures WellPut(PartsOf(v)) && Text(PartsOf(v)) == v
  {
    hide Split, HasSuffix, Body, ProtocolOf, Join, Text, Front;
    FrontOfParts(v);
    BodyAndSuffix(v);
    FirstPart(Body(v));
    if PartsOf(v).suffix != "" {
      PrefixFree(Split(Body(v), COLON)[0], Body(v));
    }
  }

  lemma JoinedThree(parts: seq<string>)
    requires 1 <= |parts| <= 3
    ensures Join(parts, COLON) ==
      if |parts| == 1 then parts[0]
      else if |parts| == 2 then parts[0] + COLON + parts[1]
      else parts[0] + COLON + (parts[1] + COLON + parts[2])
  {
    if |parts| == 3 {
      assert parts[1..][1..] == [parts[2]];
    }
  }

  // Exactly these strings are single-port entries, and this is what they say.
  lemma ShortIff(value: string, e: ShortPort)
    ensures ParseShort(value) == Some(e) <==>
      exists v, p :: Trims(value, v) && WellPut(p) && v == Text(p) && Says(p, e)
  {
    hide Trims, Strip, ParseStripped, WellPut, Text, Says, PartsOf;
    var v := Strip(value);
    StripIff(value, v);
    if ParseShort(value) == Some(e) {
      ParsedParts(v);
      PartsParse(PartsOf(v), e);
      assert Trims(value, v) && WellPut(PartsOf(v)) && v == Text(PartsOf(v)) && Says(PartsOf(v), e);
    }
    forall u, p | Trims(value, u) && WellPut(p) && u == Text(p) && Says(p, e) ensures ParseShort(value) == Some(e) {
      StripIff(value, u);
      PartsParse(p, e);
    }
  }

  // Everything else, a range of ports for instance, is no candidate for any mapping.
  lemma NoneIff(value: string)
    ensures ParseShort(value) == None <==> !exists p :: WellPut(p) && Trims(value, Text(p))
  {
    hide Trims, Strip, ParseStripped, WellPut, Text, PartsOf;
    var v := Strip(value);
    StripIff(value, v);
    if ParseShort(value).Some? {
      ParsedParts(v);
      assert WellPut(PartsOf(v)) && Trims(value, Text(PartsOf(v)));
    }
    forall p | WellPut(p) && Trims(value, Text(p)) ensures ParseShort(value).Some? {
      StripIff(value, Text(p));
      TextParses(p);
    }
  }

  lemma TextParses(p: Parts)
    requires WellPut(p)
    ensures ParseStripped(Text(p)).Some?
  {
    hide ParseStripped, Text;
    var e := ShortPort(if p.ip == Some("") then None else p.ip, if p.host == Some("") then None else p.host,
                       Decimal.Parse(p.container), if p.suffix == "" then "tcp" else p.suffix[1..]);
    assert Says(p, e);
    PartsParse(p, e);
  }

  /* Entries. */

  // The text of an entry published on a port.
  function Published(ip: Option<string>, port: nat, container: nat, suffix: string): string {
    (if ip.Some? && ip.value != "" then ip.value + ":" else "") + Decimal.Print(port) + ":"
    + Decimal.Print(container) + suffix
  }

  // A rewritten entry keeps its address and what protocol it spells out.
  lemma RewrittenText(value: string, v: string, p: Parts, port: nat)
    requires Trims(value, v) && WellPut(p) && v == Text(p)
    ensures ParseShort(value).Some?
    ensures RewriteShort(value, port) == Published(p.ip, port, Decimal.Parse(p.container), p.suffix)
  {
    hide Trims, Strip, ParseStripped, WellPut, Text, HasSuffix, Decimal.Print;
    StripIff(value, v);
    TextParses(p);
    PartsParse(p, ParseStripped(v).value);
    SuffixFound(p);
    if p.suffix != "" {
      WholeSuffix(p);
    }
  }

  lemma WholeSuffix(p: Parts)
    requires WellPut(p) && p.suffix != ""
    ensures "/" + p.suffix[1..] == p.suffix
  {
  }

  // What a short entry says when it is trimmed to `v` and put together from `p`.
  ghost predicate Written(text: string, v: string, p: Parts) {
    Trims(text, v) && WellPut(p) && v == Text(p)
  }

  // The container port and protocol of an entry: as written, TCP without a protocol.
  ghost predicate HasKey(e: Entry, k: Key) {
    match e
    case Short(text) =>
      exists v, p :: Written(text, v, p) && k.container == Decimal.Parse(p.container) &&
        k.protocol == if p.suffix == "" then "tcp" else p.suffix[1..]
    case Long(target, protocol, _, _) =>
      target == Some(k.container) && (protocol == Some(k.protocol) || (protocol == None && k.protocol == "tcp"))
    case Other(_) => false
  }

  // The host side of an entry, if it has one.
  ghost predicate HasHost(e: Entry, h: string) {
    match e
    case Short(text) => h != "" && exists v, p :: Written(text, v, p) && p.host == Some(h)
    case Long(_, _, published, _) => published == Some(h)
    case Other(_) => false
  }

  // `now` is `e` published on a port: only the host side is another.
  ghost predicate Republished(e: Entry, port: nat, now: Entry) {
    match e
    case Short(text) =>
      exists v, p :: Written(text, v, p) &&
        now == Short(Published(p.ip, port, Decimal.Parse(p.container), p.suffix))
    case Long(target, protocol, _, rest) => now == Long(target, protocol, Some(Decimal.Print(port)), rest)
    case Other(_) => false
  }

  lemma WrittenParses(text: string, v: string, p: Parts)
    requires Written(text, v, p)
    ensures ParseShort(text).Some? && Says(p, ParseShort(text).value)
  {
    hide Trims, Strip, ParseStripped, WellPut, Text, Says;
    StripIff(text, v);
    TextParses(p);
    PartsParse(p, ParseStripped(v).value);
  }

  lemma ParsedIsWritten(text: string) returns (v: string, p: Parts)
    requires ParseShort(text).Some?
    ensures Written(text, v, p) && Says(p, ParseShort(text).value)
  {
    hide Trims, Strip, ParseStripped, WellPut, Text, Says, PartsOf;
    v := Strip(text);
    p := PartsOf(v);
    StripIff(text, v);
    ParsedParts(v);
    PartsParse(p, ParseStripped(v).value);
  }

  lemma KeyIff(e: Entry, k: Key)
    ensures KeyOf(e) == Some(k) <==> HasKey(e, k)
  {
    hide ParseShort, Written;
    if e.Short? {
      if ParseShort(e.text).Some? {
        var v, p := ParsedIsWritten(e.text);
      }
      forall v, p | Written(e.text, v, p) ensures ParseShort(e.text).Some? && Says(p, ParseShort(e.text).value) {
        WrittenParses(e.text, v, p);
      }
    }
  }

  lemma HostIff(e: Entry, h: string)
    ensures HostOf(e) == Some(h) <==> HasHost(e, h)
  {
    hide ParseShort, Written;
    if e.Short? {
      if ParseShort(e.text).Some? {
        var v, p := ParsedIsWritten(e.text);
      }
      forall v, p | Written(e.text, v, p) ensures ParseShort(e.text).Some? && Says(p, ParseShort(e.text).value) {
        WrittenParses(e.text, v, p);
      }
    }
  }

  // Setting the host side of an entry sets nothing else.
  lemma SetHostIs(e: Entry, port: nat)
    requires KeyOf(e).Some?
    ensures Republished(e, port, SetHost(e, port))
  {
    hide ParseShort, Published, RewriteShort, Trims, WellPut, Text;
    if e.Short? {
      var v, p := ParsedIsWritten(e.text);
      RewrittenText(e.text, v, p, port);
      assert Written(e.text, v, p);
    }
  }

  // A new entry is `host:container`, with the protocol behind it unless it is TCP.
  lemma NewEntryIs(k: WantedKey, port: nat)
    ensures NewEntry(k, port) ==
      Short(Decimal.Print(port) + ":" + Decimal.Print(k.container) + if k.protocol == "udp" then "/udp" else "")
  {
    assert k.protocol == "udp" ==> "/" + k.protocol == "/udp";
    assert "" + Decimal.Print(port) == Decimal.Print(port);
  }
}
