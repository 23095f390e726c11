// Compose port entries: parsing the short syntax, and rewriting its host side.
module Compose {
  import opened Wrappers
  import opened Chars
  import opened Lines
  import opened Decimal

  datatype ShortPort = ShortPort(ip: Option<string>, host: Option<string>, container: nat, protocol: string)

  const COLON := ":"

  /* ^(?P<body>.+)/(?P<protocol>tcp|udp)$ on a stripped value. */

  predicate HasSuffix(v: string) {
    && |v| > 4 && (v[|v| - 4..] == "/tcp" || v[|v| - 4..] == "/udp")
    && '\n' !in v[..|v| - 4]
  }

  function Body(v: string): string {
    if HasSuffix(v) then v[..|v| - 4] else v
  }

  function ProtocolOf(v: string): string {
    if HasSuffix(v) then v[|v| - 3..] else "tcp"
  }

  function Given(s: string): Option<string> {
    if s == "" then None else Some(s)
  }

  // HOST:CONTAINER, where the host may be missing.
  function Pair(ip: Option<string>, host: string, container: string, protocol: string): Option<ShortPort> {
    if !IsNumeral(container) || (host != "" && !IsNumeral(host)) then None
    else Some(ShortPort(ip, Given(host), Decimal.Parse(container), protocol))
  }

  // The number of colons decides the shape; None is no single-port entry.
  function ParseStripped(v: string): Option<ShortPort> {
    var parts := Split(Body(v), COLON);
    if |parts| == 1 then
      if IsNumeral(parts[0]) then Some(ShortPort(None, None, Decimal.Parse(parts[0]), ProtocolOf(v))) else None
    else if |parts| == 2 then Pair(None, parts[0], parts[1], ProtocolOf(v))
    else if |parts| == 3 then Pair(Given(parts[0]), parts[1], parts[2], ProtocolOf(v))
    else None
  }

  function ParseShort(value: string): Option<ShortPort> {
    ParseStripped(Strip(value))
  }

  function Unparsed(ip: Option<string>, port: nat, container: nat, suffix: string): string {
    (if ip.Some? then ip.value + COLON else "") + Decimal.Print(port) + COLON + Decimal.Print(container) + suffix
  }

  function RewriteShort(value: string, port: nat): string
    requires ParseShort(value).Some?
  {
    var parsed := ParseShort(value).value;
    Unparsed(parsed.ip, port, parsed.container, if HasSuffix(Strip(value)) then "/" + parsed.protocol else "")
  }

  /* Round trip. */

  // An address as a parsed entry can have it.
  ghost predicate ValidIp(ip: string) {
    ip != "" && !Contains(ip, COLON) && !IsSpace(ip[0])
  }

  lemma {:induction false} NoColon(s: string)
    requires !(':' in s)
    ensures !Contains(s, COLON)
  {
    if s != "" {
      assert s[0] in s;
      NoColon(s[1..]);
    }
  }

  lemma NumeralHasNoColon(n: nat)
    ensures !Contains(Decimal.Print(n), COLON)
  {
    PrintIsNumeral(n);
    NoColon(Decimal.Print(n));
  }

  lemma {:induction false} SplitPair(host: nat, container: nat)
    ensures Split(Decimal.Print(host) + COLON + Decimal.Print(container), COLON) ==
        [Decimal.Print(host), Decimal.Print(container)]
  {
    NumeralHasNoColon(host);
    NumeralHasNoColon(container);
    SplitCons(Decimal.Print(host), COLON, Decimal.Print(container));
    SplitOne(Decimal.Print(container), COLON);
  }

  lemma SplitTriple(ip: string, host: nat, container: nat)
    requires !Contains(ip, COLON)
    ensures Split(ip + COLON + (Decimal.Print(host) + COLON + Decimal.Print(container)), COLON) ==
            [ip, Decimal.Print(host), Decimal.Print(container)]
  {
    SplitPair(host, container);
    SplitCons(ip, COLON, Decimal.Print(host) + COLON + Decimal.Print(container));
  }

  function Head(ip: Option<string>, port: nat, container: nat): string {
    (if ip.Some? then ip.value + COLON else "") + (Decimal.Print(port) + COLON + Decimal.Print(container))
  }

  predicate ValidSuffix(suffix: string) {
    suffix == "" || suffix == "/tcp" || suffix == "/udp"
  }

  lemma UnparsedIs(ip: Option<string>, port: nat, container: nat, suffix: string)
    ensures Unparsed(ip, port, container, suffix) == Head(ip, port, container) + suffix
    ensures var h := Head(ip, port, container); h != "" && IsDigit(h[|h| - 1])
  {
    PrintIsNumeral(container);
    var h, t := Head(ip, port, container), Decimal.Print(container);
    assert h[|h| - 1] == t[|t| - 1];
  }

  lemma StripNothing(s: string)
    requires s != "" && !IsSpace(s[0]) && !IsSpace(s[|s| - 1])
    ensures Strip(s) == s
  {
    assert s[0..] == s;
  }

  lemma HeadStart(ip: Option<string>, port: nat, container: nat)
    requires ip.Some? ==> ValidIp(ip.value)
    ensures !IsSpace(Head(ip, port, container)[0])
  {
    PrintIsNumeral(port);
    var h := Head(ip, port, container);
    if ip.Some? {
      assert h[0] == ip.value[0];
    } else {
      assert h[0] == Decimal.Print(port)[0];
    }
  }

  lemma UnparsedStripped(ip: Option<string>, port: nat, container: nat, suffix: string)
    requires (ip.Some? ==> ValidIp(ip.value)) && ValidSuffix(suffix)
    requires suffix != "" ==> '\n' !in Head(ip, port, container)
    ensures var v := Unparsed(ip, port, container, suffix);
      && Strip(v) == v
      && (HasSuffix(v) <==> suffix != "")
      && Body(v) == Head(ip, port, container)
      && ProtocolOf(v) == if suffix == "" then "tcp" else suffix[1..]
  {
    UnparsedIs(ip, port, container, suffix);
    HeadStart(ip, port, container);
    var h, v := Head(ip, port, container), Unparsed(ip, port, container, suffix);
    assert v == h + suffix && v[0] == h[0];
    if suffix == "" {
      assert v[|v| - 1] == h[|h| - 1];
    } else {
      assert v[|v| - 1] == suffix[3] && v[..|v| - 4] == h && v[|v| - 4..] == suffix;
      assert v[|v| - 3..] == suffix[1..];
    }
    StripNothing(v);
  }

  lemma HeadSplits(ip: Option<string>, port: nat, container: nat)
    requires ip.Some? ==> ValidIp(ip.value)
    ensures Split(Head(ip, port, container), COLON) ==
            (if ip.Some? then [ip.value] else []) + [Decimal.Print(port), Decimal.Print(container)]
  {
    SplitPair(port, container);
    var pair := Decimal.Print(port) + COLON + Decimal.Print(container);
    if ip.Some? {
      SplitTriple(ip.value, port, container);
      assert Head(ip, port, container) == ip.value + COLON + pair;
    } else {
      assert Head(ip, port, container) == pair;
    }
  }

  lemma PairOfNumerals(ip: Option<string>, port: nat, container: nat, protocol: string)
    ensures Pair(ip, Decimal.Print(port), Decimal.Print(container), protocol) ==
            Some(ShortPort(ip, Some(Decimal.Print(port)), container, protocol))
  {
    Decimal.ParsePrint(port);
    Decimal.ParsePrint(container);
  }

  // Printing then parsing gives back every part.
  lemma ParseUnparsed(ip: Option<string>, port: nat, container: nat, suffix: string)
    requires (ip.Some? ==> ValidIp(ip.value)) && ValidSuffix(suffix)
    requires suffix != "" ==> '\n' !in Head(ip, port, container)
    ensures ParseShort(Unparsed(ip, port, container, suffix)) ==
            Some(ShortPort(ip, Some(Decimal.Print(port)), container, if suffix == "" then "tcp" else suffix[1..]))
  {
    hide Unparsed, Head, Strip, Split, HasSuffix, Body, ProtocolOf, Pair;
    UnparsedStripped(ip, port, container, suffix);
    HeadSplits(ip, port, container);
    PairOfNumerals(ip, port, container, if suffix == "" then "tcp" else suffix[1..]);
  }

  lemma {:induction false} StrippedStart(s: string)
    ensures Strip(s) != "" ==> !IsSpace(Strip(s)[0])
  {
    RightPrefix(s[SkipSpace(s)..]);
  }

  lemma {:induction false} RightPrefix(s: string)
    ensures StripRight(s) <= s
  {
    if s != "" && IsSpace(s[|s| - 1]) {
      RightPrefix(s[..|s| - 1]);
    }
  }

  lemma ParsedIp(value: string)
    requires ParseShort(value).Some? && ParseShort(value).value.ip.Some?
    ensures ValidIp(ParseShort(value).value.ip.value)
    ensures HasSuffix(Strip(value)) ==> '\n' !in ParseShort(value).value.ip.value
  {
    var v := Strip(value);
    var parts := Split(Body(v), COLON);
    SplitUnbroken(Body(v), COLON);
    StrippedStart(value);
    assert parts[0] <= Body(v) && Body(v) <= v;
  }

  lemma NoNewlineInHead(ip: Option<string>, port: nat, container: nat)
    requires ip.Some? ==> '\n' !in ip.value
    ensures '\n' !in Head(ip, port, container)
  {
    PrintIsNumeral(port);
    PrintIsNumeral(container);
  }

  // The protocol part a rewrite writes back.
  function SuffixOf(value: string): string
    requires ParseShort(value).Some?
  {
    if HasSuffix(Strip(value)) then "/" + ParseShort(value).value.protocol else ""
  }

  lemma RewriteIs(value: string, port: nat)
    requires ParseShort(value).Some?
    ensures var parsed, suffix := ParseShort(value).value, SuffixOf(value);
      && ValidSuffix(suffix) && parsed.protocol == (if suffix == "" then "tcp" else suffix[1..])
      && RewriteShort(value, port) == Unparsed(parsed.ip, port, parsed.container, suffix)
  {
    hide Strip, Split, Decimal.Print, Unparsed;
    var v := Strip(value);
    assert HasSuffix(v) ==> SuffixOf(value) == v[|v| - 4..];
  }

  // Rewriting replaces the host side and nothing else: address, container and protocol
  // parse back as they were, and the protocol is spelled out exactly if it was before.
  lemma RewriteParsesBack(value: string, port: nat)
    requires ParseShort(value).Some?
    ensures ParseShort(RewriteShort(value, port)) == Some(ParseShort(value).value.(host := Some(Decimal.Print(port))))
    ensures HasSuffix(Strip(RewriteShort(value, port))) <==> HasSuffix(Strip(value))
  {
    hide ParseShort, RewriteShort, Unparsed, Strip, HasSuffix, Head, ValidIp, ValidSuffix;
    var parsed, suffix := ParseShort(value).value, SuffixOf(value);
    RewriteIs(value, port);
    if parsed.ip.Some? {
      ParsedIp(value);
    }
    if suffix != "" {
      NoNewlineInHead(parsed.ip, port, parsed.container);
    }
    ParseUnparsed(parsed.ip, port, parsed.container, suffix);
    UnparsedStripped(parsed.ip, port, parsed.container, suffix);
  }

  // Of successive rewrites only the last counts.
  lemma RewritesCollapse(value: string, port: nat, again: nat)
    requires ParseShort(value).Some?
    ensures ParseShort(RewriteShort(value, port)).Some?
    ensures RewriteShort(RewriteShort(value, port), again) == RewriteShort(value, again)
  {
    RewriteParsesBack(value, port);
  }

  /* Entries. */

  // `published` of a long entry as text; a target that is no integer is None. Anything
  // else, such as an unquoted number, is left alone.
  datatype Entry =
    | Short(text: string)
    | Long(target: Option<int>, protocol: Option<string>, published: Option<string>, rest: map<string, string>)
    | Other(node: string)

  datatype Key = Key(container: int, protocol: string)

  function KeyOf(e: Entry): Option<Key> {
    match e
    case Short(text) =>
      (match ParseShort(text)
       case None => None
       case Some(parsed) => Some(Key(parsed.container, parsed.protocol)))
    case Long(target, protocol, _, _) =>
      if target == None then None
      else Some(Key(target.value, if protocol.Some? then protocol.value else "tcp"))
    case Other(_) => None
  }

  function HostOf(e: Entry): Option<string> {
    match e
    case Short(text) => if ParseShort(text).Some? then ParseShort(text).value.host else None
    case Long(_, _, published, _) => published
    case Other(_) => None
  }

  function SetHost(e: Entry, port: nat): Entry
    requires KeyOf(e).Some?
  {
    match e
    case Short(text) => Short(RewriteShort(text, port))
    case Long(_, _, _, _) => e.(published := Some(Decimal.Print(port)))
  }

  // What a manifest may name: a container port, tcp or udp.
  predicate ValidWanted(k: Key) {
    1 <= k.container <= 65535 && (k.protocol == "tcp" || k.protocol == "udp")
  }

  type WantedKey = k: Key | ValidWanted(k) witness Key(1, "tcp")

  function NewEntry(k: WantedKey, port: nat): Entry {
    Short(Unparsed(None, port, k.container, if k.protocol == "tcp" then "" else "/" + k.protocol))
  }

  lemma SetHostSpec(e: Entry, port: nat)
    requires KeyOf(e).Some?
    ensures KeyOf(SetHost(e, port)) == KeyOf(e) && HostOf(SetHost(e, port)) == Some(Decimal.Print(port))
    ensures forall again: nat :: SetHost(SetHost(e, port), again) == SetHost(e, again)
  {
    if e.Short? {
      RewriteParsesBack(e.text, port);
      forall again: nat {
        RewritesCollapse(e.text, port, again);
      }
    }
  }

  lemma NewEntrySpec(k: WantedKey, port: nat)
    ensures KeyOf(NewEntry(k, port)) == Some(k) && HostOf(NewEntry(k, port)) == Some(Decimal.Print(port))
    ensures forall again: nat :: SetHost(NewEntry(k, port), again) == NewEntry(k, again)
  {
    var suffix := if k.protocol == "tcp" then "" else "/" + k.protocol;
    NoNewlineInHead(None, port, k.container);
    ParseUnparsed(None, port, k.container, suffix);
    UnparsedStripped(None, port, k.container, suffix);
    assert ("/" + k.protocol)[1..] == k.protocol;
  }
}
