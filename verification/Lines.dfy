// Splitting text at a separator and joining it again; text lines for "\n" and "\r\n".
module Lines {

  const LF := "\n"
  const CRLF := "\r\n"

  predicate IsNewline(sep: string) {
    sep == LF || sep == CRLF
  }

  predicate IsSeparator(sep: string) {
    |sep| == 1 || sep == CRLF
  }

  predicate Contains(s: string, sub: string) {
    sub <= s || (s != "" && Contains(s[1..], sub))
  }

  predicate EndsWith(s: string, suffix: string) {
    |suffix| <= |s| && s[|s| - |suffix|..] == suffix
  }

  // str.split: leftmost separators first.
  function Split(s: string, sep: string): (lines: seq<string>)
    requires sep != ""
    ensures |lines| > 0 && lines[0] <= s
  {
    if |s| < |sep| then [s]
    else if sep <= s then [""] + Split(s[|sep|..], sep)
    else
      var rest := Split(s[1..], sep);
      [[s[0]] + rest[0]] + rest[1..]
  }

  function Join(lines: seq<string>, sep: string): string {
    if lines == [] then ""
    else if |lines| == 1 then lines[0]
    else lines[0] + sep + Join(lines[1..], sep)
  }

  ghost predicate Unbroken(lines: seq<string>, sep: string) {
    forall k :: 0 <= k < |lines| ==> !Contains(lines[k], sep)
  }

  lemma {:induction false} ContainsMiddle(a: string, b: string, c: string)
    ensures Contains(a + b + c, b)
  {
    if a == "" {
      assert a + b + c == b + c;
    } else {
      assert (a + b + c)[1..] == a[1..] + b + c;
      ContainsMiddle(a[1..], b, c);
    }
  }

  // A separator never starts inside an unbroken line or across its end.
  lemma NoEarlySeparator(l: string, sep: string, s: string)
    requires IsSeparator(sep) && l != "" && !Contains(l, sep)
    ensures !(sep <= l + sep + s) && !(sep <= l)
  {
    var t := l + sep + s;
    assert t[0] == l[0];
    assert |l| > 1 ==> t[1] == l[1];
    assert |l| == 1 ==> t[1] == sep[0];
  }

  lemma {:induction false} SplitCons(l: string, sep: string, s: string)
    requires IsSeparator(sep) && !Contains(l, sep)
    ensures Split(l + sep + s, sep) == [l] + Split(s, sep)
  {
    var t := l + sep + s;
    if l == "" {
      assert t == sep + s && t[|sep|..] == s;
    } else {
      NoEarlySeparator(l, sep, s);
      assert t[1..] == l[1..] + sep + s;
      SplitCons(l[1..], sep, s);
      assert [t[0]] + l[1..] == l;
    }
  }

  lemma {:induction false} SplitOne(l: string, sep: string)
    requires IsSeparator(sep) && !Contains(l, sep)
    ensures Split(l, sep) == [l]
  {
    if |l| >= |sep| {
      NoEarlySeparator(l, sep, "");
      SplitOne(l[1..], sep);
      assert [l[0]] + l[1..] == l;
    }
  }

  // Splitting inverts joining for lines that hold no separator.
  lemma {:induction false} SplitJoin(lines: seq<string>, sep: string)
    requires IsSeparator(sep) && lines != [] && Unbroken(lines, sep)
    ensures Split(Join(lines, sep), sep) == lines
  {
    if |lines| == 1 {
      SplitOne(lines[0], sep);
    } else {
      SplitCons(lines[0], sep, Join(lines[1..], sep));
      SplitJoin(lines[1..], sep);
    }
  }

  lemma JoinGrown(c: char, lines: seq<string>, sep: string)
    requires lines != []
    ensures Join([[c] + lines[0]] + lines[1..], sep) == [c] + Join(lines, sep)
  {
    var grown := [[c] + lines[0]] + lines[1..];
    assert grown[1..] == lines[1..];
    if |lines| > 1 {
      assert [c] + lines[0] + sep + Join(lines[1..], sep) == [c] + (lines[0] + sep + Join(lines[1..], sep));
    }
  }

  // Joining inverts splitting.
  lemma {:induction false} JoinSplit(s: string, sep: string)
    requires sep != ""
    ensures Join(Split(s, sep), sep) == s
  {
    if |s| < |sep| {
    } else if sep <= s {
      JoinSplit(s[|sep|..], sep);
      assert Split(s, sep)[1..] == Split(s[|sep|..], sep);
      assert s == "" + sep + s[|sep|..];
    } else {
      var rest := Split(s[1..], sep);
      JoinSplit(s[1..], sep);
      JoinGrown(s[0], rest, sep);
      assert s == [s[0]] + s[1..];
    }
  }

  // Split lines hold no separator.
  lemma {:induction false} SplitUnbroken(s: string, sep: string)
    requires IsSeparator(sep)
    ensures Unbroken(Split(s, sep), sep)
  {
    var lines := Split(s, sep);
    if |s| < |sep| {
      ShortLine(s, sep);
    } else if sep <= s {
      SplitUnbroken(s[|sep|..], sep);
      ShortLine("", sep);
    } else {
      var rest := Split(s[1..], sep);
      SplitUnbroken(s[1..], sep);
      assert lines[0][1..] == rest[0];
      assert lines[0] <= s;
    }
  }

  lemma ShortLine(l: string, sep: string)
    requires |l| < |sep| && IsSeparator(sep)
    ensures !Contains(l, sep)
  {
    if l != "" {
      assert !Contains(l[1..], sep);
    }
  }

  lemma {:induction false} JoinConcat(a: seq<string>, b: seq<string>, sep: string)
    requires a != [] && b != []
    ensures Join(a + b, sep) == Join(a, sep) + sep + Join(b, sep)
  {
    if |a| == 1 {
      assert (a + b)[1..] == b;
    } else {
      assert (a + b)[1..] == a[1..] + b;
      JoinConcat(a[1..], b, sep);
    }
  }
}
