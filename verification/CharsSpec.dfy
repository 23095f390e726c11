// What trimming and case mapping do to a string, told by its characters.
module CharsSpec {
  import opened Chars

  // The 29 characters str.isspace and `\s` take for space, by code point.
  lemma SpacesAre(c: char)
    ensures IsSpace(c) <==>
      c as int in {9, 10, 11, 12, 13, 28, 29, 30, 31, 32, 0x85, 0xA0, 0x1680, 0x2000, 0x2001, 0x2002, 0x2003, 0x2004,
                   0x2005, 0x2006, 0x2007, 0x2008, 0x2009, 0x200A, 0x2028, 0x2029, 0x202F, 0x205F, 0x3000}
  {
  }

  predicate CapitalOf(c: char, d: char) {
    'A' <= c <= 'Z' && d as int == c as int + 32
  }

  // The same letters, whatever their case.
  ghost predicate AlikeButCase(a: string, b: string) {
    |a| == |b| && forall k :: 0 <= k < |a| ==> a[k] == b[k] || CapitalOf(a[k], b[k]) || CapitalOf(b[k], a[k])
  }

  lemma CharIff(c: char, d: char)
    ensures Upper(c) == Upper(d) <==> c == d || CapitalOf(c, d) || CapitalOf(d, c)
    ensures Lower(c) == Lower(d) <==> c == d || CapitalOf(c, d) || CapitalOf(d, c)
  {
  }

  // Comparing in upper or in lower case is comparing without regard to case.
  lemma CaseIff(a: string, b: string)
    ensures UpperAll(a) == UpperAll(b) <==> AlikeButCase(a, b)
    ensures LowerAll(a) == LowerAll(b) <==> AlikeButCase(a, b)
  {
    hide Upper, Lower, CapitalOf;
    if |a| == |b| {
      forall k | 0 <= k < |a| {
        CharIff(a[k], b[k]);
      }
      SameCharsIff(UpperAll(a), UpperAll(b));
      SameCharsIff(LowerAll(a), LowerAll(b));
      forall k | 0 <= k < |a|
        ensures UpperAll(a)[k] == UpperAll(b)[k] <==> a[k] == b[k] || CapitalOf(a[k], b[k]) || CapitalOf(b[k], a[k])
        ensures LowerAll(a)[k] == LowerAll(b)[k] <==> a[k] == b[k] || CapitalOf(a[k], b[k]) || CapitalOf(b[k], a[k])
      {
        CharIff(a[k], b[k]);
      }
    } else {
      assert |UpperAll(a)| != |UpperAll(b)| && |LowerAll(a)| != |LowerAll(b)|;
    }
  }

  lemma SameCharsIff(a: string, b: string)
    requires |a| == |b|
    ensures a == b <==> forall k :: 0 <= k < |a| ==> a[k] == b[k]
  {
  }

  // `t` is `s` without the space around it.
  ghost predicate Trims(s: string, t: string) {
    && (exists a: string, b: string :: AllSpace(a) && AllSpace(b) && s == a + t + b)
    && (t != "" ==> !IsSpace(t[0]) && !IsSpace(t[|t| - 1]))
  }

  lemma {:induction false} StripRightTrims(s: string)
    ensures StripRight(s) <= s && AllSpace(s[|StripRight(s)|..])
    ensures StripRight(s) != "" ==> !IsSpace(s[|StripRight(s)| - 1])
  {
    if s != "" && IsSpace(s[|s| - 1]) {
      var init := s[..|s| - 1];
      StripRightTrims(init);
      assert s[|StripRight(s)|..] == init[|StripRight(s)|..] + [s[|s| - 1]];
    }
  }

  lemma ThreeParts(s: string, a: string, rest: string, t: string, b: string)
    requires s == a + rest && rest == t + b && AllSpace(a) && AllSpace(b)
    ensures exists a: string, b: string :: AllSpace(a) && AllSpace(b) && s == a + t + b
  {
    hide AllSpace;
    assert s == a + t + b;
  }

  lemma StripTrims(s: string)
    ensures Trims(s, Strip(s))
  {
    hide IsSpace;
    var n := SkipSpace(s);
    var rest, t := s[n..], Strip(s);
    StripRightTrims(rest);
    var a, b := s[..n], rest[|t|..];
    assert rest == t + b && s == a + rest;
    ThreeParts(s, a, rest, t, b);
  }

  // What starts with no space starts behind any leading space.
  lemma StartsBehind(s: string, a: string, t: string, c: string)
    requires a + t <= s && c <= s && AllSpace(c) && t != "" && !IsSpace(t[0])
    ensures |c| <= |a|
  {
    hide IsSpace;
    FirstBehind(s, a, t);
    assert forall k :: 0 <= k < |c| ==> s[k] == c[k];
  }

  lemma EndsBefore(s: string, t: string, b: string, d: string)
    requires |t| + |b| <= |s| && s[|s| - |t| - |b|..] == t + b && |d| <= |s| && s[|s| - |d|..] == d
    requires AllSpace(d) && t != "" && !IsSpace(t[|t| - 1])
    ensures |d| <= |b|
  {
    hide IsSpace;
    assert s[|s| - |b| - 1] == (t + b)[|t| - 1] == t[|t| - 1];
    assert forall k :: 0 <= k < |d| ==> s[|s| - |d| + k] == d[k];
    assert forall k :: |s| - |d| <= k < |s| ==> s[k] == d[k - (|s| - |d|)];
  }

  lemma SameMiddle(s: string, a: string, t: string, b: string, c: string, u: string, d: string)
    requires s == a + t + b && s == c + u + d && AllSpace(a) && AllSpace(b) && AllSpace(c) && AllSpace(d)
    requires t != "" && !IsSpace(t[0]) && !IsSpace(t[|t| - 1])
    requires u != "" && !IsSpace(u[0]) && !IsSpace(u[|u| - 1])
    ensures t == u
  {
    hide IsSpace, AllSpace;
    StartsBehind(s, a, t, c);
    StartsBehind(s, c, u, a);
    EndsBefore(s, t, b, d);
    EndsBefore(s, u, d, b);
    assert t == s[|a|..|s| - |b|] && u == s[|c|..|s| - |d|];
  }

  lemma JoinedSpace(a: string, b: string)
    requires AllSpace(a) && AllSpace(b)
    ensures AllSpace(a + "" + b)
  {
    hide IsSpace;
  }

  lemma TrimsOnce(s: string, t: string, u: string)
    requires Trims(s, t) && Trims(s, u)
    ensures t == u
  {
    hide IsSpace, AllSpace;
    var a: string, b: string :| AllSpace(a) && AllSpace(b) && s == a + t + b;
    var c: string, d: string :| AllSpace(c) && AllSpace(d) && s == c + u + d;
    if t == "" {
      JoinedSpace(a, b);
      OnlySpace(s, c, u);
    } else if u == "" {
      JoinedSpace(c, d);
      OnlySpace(s, a, t);
    } else {
      SameMiddle(s, a, t, b, c, u, d);
    }
  }

  lemma OnlySpace(s: string, a: string, t: string)
    requires AllSpace(s) && a + t <= s && (t != "" ==> !IsSpace(t[0]))
    ensures t == ""
  {
    hide IsSpace;
    if t != "" {
      FirstBehind(s, a, t);
    }
  }

  lemma FirstBehind(s: string, a: string, t: string)
    requires a + t <= s && t != ""
    ensures s[|a|] == t[0]
  {
    assert (a + t)[|a|] == t[0];
  }

  // Stripping takes away exactly the space around a string.
  lemma StripIff(s: string, t: string)
    ensures Strip(s) == t <==> Trims(s, t)
  {
    StripTrims(s);
    if Trims(s, t) {
      TrimsOnce(s, t, Strip(s));
    }
  }
}
