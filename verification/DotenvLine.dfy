// One line of a dotenv file: which key it assigns, and how its value is replaced.
module DotenvLine {
  import opened Wrappers
  import opened Chars

  predicate IsKeyChar(c: char) {
    'A' <= c <= 'Z' || 'a' <= c <= 'z' || '0' <= c <= '9' || c == '_'
  }

  // The names a manifest accepts: [A-Za-z_][A-Za-z0-9_]*.
  predicate ValidKey(key: string) {
    key != "" && !('0' <= key[0] <= '9') && forall k :: 0 <= k < |key| ==> IsKeyChar(key[k])
  }

  // The values the planner writes are decimal port numbers.
  predicate PlainValue(value: string) {
    value != "" && forall k :: 0 <= k < |value| ==> '0' <= value[k] <= '9'
  }

  /* The assignment pattern ^(\s*(?:export\s+)?)KEY=(.*)$, declaratively. */

  const EXPORT := "export"

  ghost predicate IsPrefix(p: string) {
    AllSpace(p) || exists a :: IsExportPrefix(p, a)
  }

  predicate IsExportPrefix(p: string, a: int) {
    && 0 <= a && a + |EXPORT| < |p|
    && AllSpace(p[..a]) && p[a..a + |EXPORT|] == EXPORT && AllSpace(p[a + |EXPORT|..])
  }

  datatype Match = Match(prefix: string, rest: string)

  // `.` stops at "\n", and `$` also matches before one final "\n".
  ghost predicate RegexMatches(line: string, key: string, m: Match) {
    && IsPrefix(m.prefix)
    && '\n' !in m.rest
    && (line == m.prefix + key + "=" + m.rest || line == m.prefix + key + "=" + m.rest + "\n")
  }

  /* The same pattern, computed. */

  function PrefixLength(line: string): (n: nat)
    ensures n <= |line|
  {
    var a := SkipSpace(line);
    var b := a + |EXPORT|;
    if b < |line| && line[a..b] == EXPORT && IsSpace(line[b]) then b + SkipSpace(line[b..]) else a
  }

  function RestOf(tail: string): Option<string> {
    if '\n' !in tail then Some(tail)
    else if '\n' !in tail[..|tail| - 1] then Some(tail[..|tail| - 1])
    else None
  }

  function MatchKey(line: string, key: string): Option<Match> {
    var n := PrefixLength(line);
    if key + "=" <= line[n..] then
      match RestOf(line[n + |key| + 1..])
      case None => None
      case Some(rest) => Some(Match(line[..n], rest))
    else None
  }

  predicate Assigns(line: string, key: string) {
    MatchKey(line, key).Some?
  }

  lemma {:induction false} SkipExactly(a: string, b: string)
    requires AllSpace(a) && (b != "" ==> !IsSpace(b[0]))
    ensures SkipSpace(a + b) == |a|
  {
    if a == "" {
      assert a + b == b;
    } else {
      assert (a + b)[1..] == a[1..] + b;
      SkipExactly(a[1..], b);
    }
  }

  lemma PrefixIsPrefix(line: string)
    ensures IsPrefix(line[..PrefixLength(line)])
  {
    var a := SkipSpace(line);
    var b := a + |EXPORT|;
    var p := line[..PrefixLength(line)];
    if b < |line| && line[a..b] == EXPORT && IsSpace(line[b]) {
      assert p[..a] == line[..a] && p[a..b] == line[a..b] && p[b..] == line[b..][..SkipSpace(line[b..])];
      assert IsExportPrefix(p, a);
    }
  }

  lemma KeyIsNoExport(key: string, tail: string)
    requires ValidKey(key)
    ensures var s := key + "=" + tail;
      !(|EXPORT| < |s| && s[..|EXPORT|] == EXPORT && IsSpace(s[|EXPORT|]))
  {
    var s := key + "=" + tail;
    assert s[|key|] == '=';
    if |key| > |EXPORT| {
      assert s[|EXPORT|] == key[|EXPORT|];
    } else if |key| < |EXPORT| {
      assert EXPORT[|key|] != '=';
    }
  }

  // The pattern leaves the engine no choice: any prefix it can take is the one computed.
  lemma PrefixDetermined(p: string, key: string, tail: string)
    requires IsPrefix(p) && ValidKey(key)
    ensures PrefixLength(p + key + "=" + tail) == |p|
  {
    var s := key + "=" + tail;
    var line := p + key + "=" + tail;
    assert line == p + s && s[0] == key[0];
    KeyIsNoExport(key, tail);
    if AllSpace(p) {
      SkipExactly(p, s);
      assert line[|p|..] == s;
      assert |p| + |EXPORT| < |line| ==>
          line[|p|..|p| + |EXPORT|] == s[..|EXPORT|] && line[|p| + |EXPORT|] == s[|EXPORT|];
    } else {
      var a :| IsExportPrefix(p, a);
      var b := a + |EXPORT|;
      ExportPrefixLength(p, a, s);
    }
  }

  lemma Slices(p: string, a: nat, b: nat, s: string)
    requires a < b < |p|
    ensures p + s == p[..a] + (p[a..] + s)
    ensures (p[a..] + s)[0] == p[a..b][0]
    ensures (p + s)[a..b] == p[a..b] && (p + s)[b] == p[b..][0] && (p + s)[b..] == p[b..] + s
  {
  }

  lemma ExportPrefixLength(p: string, a: nat, s: string)
    requires IsExportPrefix(p, a) && s != "" && !IsSpace(s[0])
    ensures PrefixLength(p + s) == |p|
  {
    hide SkipSpace, IsSpace;
    var b := a + |EXPORT|;
    Slices(p, a, b, s);
    LetterIsNoSpace();
    SkipExactly(p[..a], p[a..] + s);
    SkipExactly(p[b..], s);
  }

  lemma LetterIsNoSpace()
    ensures EXPORT[0] == 'e' && !IsSpace('e')
  {
  }

  lemma RestDetermined(tail: string, rest: string)
    requires '\n' !in rest
    ensures RestOf(tail) == Some(rest) <==> tail == rest || tail == rest + "\n"
  {
    if tail == rest + "\n" {
      assert tail[..|tail| - 1] == rest && tail[|tail| - 1] == '\n';
    }
    if '\n' in tail && '\n' !in tail[..|tail| - 1] {
      assert tail == tail[..|tail| - 1] + [tail[|tail| - 1]];
    }
  }

  lemma RestIsOneLine(tail: string)
    ensures RestOf(tail).Some? ==> '\n' !in RestOf(tail).value
  {
  }

  lemma ComputedMatches(line: string, key: string)
    requires Assigns(line, key)
    ensures RegexMatches(line, key, MatchKey(line, key).value)
  {
    hide PrefixLength, IsPrefix, RestOf;
    var n, m := PrefixLength(line), MatchKey(line, key).value;
    PrefixIsPrefix(line);
    var tail := line[n + |key| + 1..];
    assert line[n..] == key + "=" + tail;
    assert line == line[..n] + key + "=" + tail;
    RestIsOneLine(tail);
    RestDetermined(tail, m.rest);
    if tail != m.rest {
      assert line == m.prefix + key + "=" + m.rest + "\n";
    }
  }

  lemma MatchesComputed(line: string, key: string, m: Match)
    requires ValidKey(key) && RegexMatches(line, key, m)
    ensures MatchKey(line, key) == Some(m)
  {
    hide PrefixLength;
    var n := PrefixLength(line);
    var tail := if line == m.prefix + key + "=" + m.rest then m.rest else m.rest + "\n";
    assert line == m.prefix + key + "=" + tail;
    PrefixDetermined(m.prefix, key, tail);
    assert line[n..] == key + "=" + tail && line[..n] == m.prefix;
    assert line[n + |key| + 1..] == tail;
    RestDetermined(tail, m.rest);
  }

  // What the editor computes is what the pattern matches, and the match is unique.
  lemma MatchesPattern(line: string, key: string, m: Match)
    requires ValidKey(key)
    ensures MatchKey(line, key) == Some(m) <==> RegexMatches(line, key, m)
  {
    if MatchKey(line, key) == Some(m) {
      ComputedMatches(line, key);
    }
    if RegexMatches(line, key, m) {
      MatchesComputed(line, key, m);
    }
  }

  // A line assigns at most one key.
  lemma AtMostOneKey(line: string, key: string, other: string)
    requires ValidKey(key) && ValidKey(other) && Assigns(line, key) && Assigns(line, other)
    ensures key == other
  {
    var t := line[PrefixLength(line)..];
    assert t[|key|] == '=' && t[|other|] == '=';
    assert key == t[..|key|] && other == t[..|other|];
    assert forall k :: 0 <= k < |key| ==> t[k] == key[k] && t[k] != '=';
    assert forall k :: 0 <= k < |other| ==> t[k] == other[k] && t[k] != '=';
  }

  /* Values and comments. */

  // Index of the first '#' outside quotes, or the end.
  function CommentStart(rest: string, i: nat, inSingle: bool, inDouble: bool): (n: nat)
    requires i <= |rest|
    ensures i <= n <= |rest| && (n < |rest| ==> rest[n] == '#')
    decreases |rest| - i
  {
    if i == |rest| then i
    else if rest[i] == '\'' && !inDouble then CommentStart(rest, i + 1, !inSingle, inDouble)
    else if rest[i] == '"' && !inSingle then CommentStart(rest, i + 1, inSingle, !inDouble)
    else if rest[i] == '#' && !inSingle && !inDouble then i
    else CommentStart(rest, i + 1, inSingle, inDouble)
  }

  function ValuePart(rest: string): string {
    rest[..CommentStart(rest, 0, false, false)]
  }

  function CommentPart(rest: string): string {
    rest[CommentStart(rest, 0, false, false)..]
  }

  method SplitValueAndComment(rest: string) returns (value: string, comment: string)
    ensures value == ValuePart(rest) && comment == CommentPart(rest)
  {
    var inSingle, inDouble := false, false;
    for i := 0 to |rest|
      invariant CommentStart(rest, 0, false, false) == CommentStart(rest, i, inSingle, inDouble)
    {
      var ch := rest[i];
      if ch == '\'' && !inDouble {
        inSingle := !inSingle;
      } else if ch == '"' && !inSingle {
        inDouble := !inDouble;
      } else if ch == '#' && !inSingle && !inDouble {
        return rest[..i], rest[i..];
      }
    }
    return rest, "";
  }

  /* Rewriting. */

  function Suffix(rest: string): string {
    if CommentPart(rest) == "" then "" else "  " + CommentPart(rest)
  }

  function Rewrite(m: Match, key: string, value: string): string {
    m.prefix + key + "=" + value + Suffix(m.rest)
  }

  function ReadBack(line: string, key: string): Option<string> {
    match MatchKey(line, key)
    case None => None
    case Some(m) => Some(Strip(ValuePart(m.rest)))
  }

  // Digits before a point of the line change neither quotes nor comments.
  lemma {:induction false} SkipPlain(rest: string, i: nat, j: nat)
    requires i <= j <= |rest|
    requires forall k :: i <= k < j ==> rest[k] !in {'\'', '"', '#'}
    ensures CommentStart(rest, i, false, false) == CommentStart(rest, j, false, false)
    decreases j - i
  {
    if i < j {
      SkipPlain(rest, i + 1, j);
    }
  }

  lemma StripPadded(value: string)
    requires PlainValue(value)
    ensures Strip(value + "  ") == Strip(value) == value
  {
    assert !IsSpace(value[|value| - 1]) && !IsSpace(value[0]);
    assert value[0..] == value;
    assert (value + "  ")[0..] == value + "  ";
    assert (value + "  ")[..|value| + 1] == value + " ";
    assert (value + " ")[..|value|] == value;
    assert StripRight(value + " ") == value;
    assert StripRight(value + "  ") == StripRight(value + " ");
  }

  lemma NewRest(value: string, rest: string)
    requires PlainValue(value)
    ensures var now := value + Suffix(rest);
      CommentPart(now) == CommentPart(rest) && Strip(ValuePart(now)) == value
  {
    hide CommentStart, Strip;
    var comment, now := CommentPart(rest), value + Suffix(rest);
    StripPadded(value);
    if comment == "" {
      SkipPlain(now, 0, |now|);
      CommentHere(now, |now|);
      assert now[..|now|] == value;
    } else {
      var n := |value| + 2;
      assert now[n] == '#' && now[n..] == comment;
      SkipPlain(now, 0, n);
      CommentHere(now, n);
      assert now[..n] == value + "  ";
    }
  }

  lemma CommentHere(rest: string, n: nat)
    requires n <= |rest| && (n < |rest| ==> rest[n] == '#')
    ensures CommentStart(rest, n, false, false) == n
  {
  }

  // The rewritten line assigns the same key behind the same prefix, reads back as the new
  // value, keeps the comment, and is left alone by a second rewrite.
  lemma RewriteReadsBack(line: string, key: string, value: string)
    requires ValidKey(key) && PlainValue(value) && Assigns(line, key)
    ensures var m := MatchKey(line, key).value;
      var now := Rewrite(m, key, value);
      && MatchKey(now, key) == Some(Match(m.prefix, value + Suffix(m.rest)))
      && CommentPart(value + Suffix(m.rest)) == CommentPart(m.rest)
      && ReadBack(now, key) == Some(value)
      && Rewrite(MatchKey(now, key).value, key, value) == now
  {
    hide MatchKey, IsPrefix, CommentStart, ValidKey, Strip;
    var m := MatchKey(line, key).value;
    MatchesPattern(line, key, m);
    var rest := value + Suffix(m.rest);
    assert '\n' !in rest by {
      assert forall k :: 0 <= k < |m.rest| ==> m.rest[k] != '\n';
      assert forall k :: 0 <= k < |Suffix(m.rest)| ==> Suffix(m.rest)[k] != '\n';
    }
    assert Rewrite(m, key, value) == m.prefix + key + "=" + rest;
    MatchesPattern(Rewrite(m, key, value), key, Match(m.prefix, rest));
    NewRest(value, m.rest);
  }

  function Assignment(key: string, value: string): string {
    key + "=" + value
  }

  lemma AppendedReadsBack(key: string, value: string)
    requires ValidKey(key) && PlainValue(value)
    ensures MatchKey(Assignment(key, value), key) == Some(Match("", value))
    ensures ReadBack(Assignment(key, value), key) == Some(value)
    ensures Rewrite(Match("", value), key, value) == Assignment(key, value)
  {
    assert AllSpace("") && '\n' !in value;
    assert Assignment(key, value) == "" + key + "=" + value;
    MatchesPattern(Assignment(key, value), key, Match("", value));
    SkipPlain(value, 0, |value|);
    assert value[|value|..] == "" && value[..|value|] == value;
    assert !IsSpace(value[|value| - 1]) && !IsSpace(value[0]);
  }
}
