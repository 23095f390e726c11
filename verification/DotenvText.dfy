// The dotenv editor on whole texts: parsing and printing, idempotence and composition.
module DotenvText {
  import opened Wrappers
  import opened Chars
  import opened Lines
  import opened DotenvLine
  import opened Dotenv
  import opened DotenvSpec

  /* Newlines by position. */

  ghost predicate BreakAt(s: string, sep: string, i: int) {
    0 <= i && i + |sep| <= |s| && s[i..i + |sep|] == sep
  }

  lemma ShiftBreak(s: string, sep: string, i: int)
    requires s != "" && 0 <= i
    ensures BreakAt(s[1..], sep, i) <==> BreakAt(s, sep, i + 1)
  {
    if i + 1 + |sep| <= |s| {
      assert s[1..][i..i + |sep|] == s[i + 1..i + 1 + |sep|];
    }
  }

  lemma BreakAtStart(s: string, sep: string)
    ensures BreakAt(s, sep, 0) <==> sep <= s
  {
  }

  lemma {:induction false} ContainsIff(s: string, sep: string)
    requires sep != ""
    ensures Contains(s, sep) <==> exists i :: BreakAt(s, sep, i)
  {
    BreakAtStart(s, sep);
    if !(sep <= s) && s != "" {
      ContainsIff(s[1..], sep);
      if i :| BreakAt(s[1..], sep, i) {
        ShiftBreak(s, sep, i);
      }
      if i :| BreakAt(s, sep, i) {
        ShiftBreak(s, sep, i - 1);
      }
    }
  }

  lemma BreakChars(s: string, sep: string, i: int)
    requires IsNewline(sep) && BreakAt(s, sep, i)
    ensures s[i] == sep[0] && s[i + |sep| - 1] == '\n'
  {
    assert s[i..i + |sep|][0] == s[i] && s[i..i + |sep|][|sep| - 1] == s[i + |sep| - 1];
  }

  lemma NoLFAnywhere(s: string)
    ensures Contains(s, LF) <==> '\n' in s
  {
    ContainsIff(s, LF);
    if '\n' in s {
      var i :| 0 <= i < |s| && s[i] == '\n';
      assert s[i..i + 1] == LF;
      assert BreakAt(s, LF, i);
    }
    if i :| BreakAt(s, LF, i) {
      BreakChars(s, LF, i);
    }
  }

  lemma NoCRLFAnywhere(s: string)
    ensures Contains(s, CRLF) <==> exists i :: 0 <= i < |s| - 1 && s[i] == '\r' && s[i + 1] == '\n'
  {
    ContainsIff(s, CRLF);
    if i :| 0 <= i < |s| - 1 && s[i] == '\r' && s[i + 1] == '\n' {
      assert s[i..i + 2] == CRLF;
      assert BreakAt(s, CRLF, i);
    }
    if i :| BreakAt(s, CRLF, i) {
      BreakChars(s, CRLF, i);
    }
  }

  /* Layouts that survive printing. */

  predicate EndsInCR(s: string) {
    s != "" && s[|s| - 1] == '\r'
  }

  // A carriage return may only end the very last line, with no newline behind it.
  ghost predicate NoStrayCR(lines: seq<string>, trailing: bool) {
    forall k :: 0 <= k < |lines| && EndsInCR(lines[k]) ==> k == |lines| - 1 && !trailing
  }

  ghost predicate Sound(l: Layout) {
    && IsNewline(l.newline) && l.lines != [] && Unbroken(l.lines, l.newline)
    && (!l.trailing ==> l.lines[|l.lines| - 1] != "")
    && (l.newline == CRLF ==> l.trailing || |l.lines| > 1)
    && (l.newline == LF ==> NoStrayCR(l.lines, l.trailing))
  }

  function Print(l: Layout): string {
    Render(l.lines, l.newline, l.trailing)
  }

  lemma {:induction false} LFTextHasNoCRLF(lines: seq<string>, trailing: bool)
    requires lines != [] && Unbroken(lines, LF) && NoStrayCR(lines, trailing)
    ensures !Contains(Render(lines, LF, trailing), CRLF)
  {
    var s := Render(lines, LF, trailing);
    NoLFAnywhere(lines[0]);
    if |lines| == 1 {
      NoCRLFAnywhere(s);
    } else {
      var rest := Render(lines[1..], LF, trailing);
      assert s == lines[0] + LF + rest;
      LFTextHasNoCRLF(lines[1..], trailing);
      NoCRLFAnywhere(rest);
      NoCRLFAnywhere(s);
      var n := |lines[0]| + 1;
      assert s[n..] == rest;
      forall i | 0 <= i < |s| - 1 ensures !(s[i] == '\r' && s[i + 1] == '\n') {
        if i >= n {
          assert s[i] == rest[i - n] && s[i + 1] == rest[i + 1 - n];
        }
      }
    }
  }

  lemma PrintHasNewline(l: Layout)
    requires Sound(l) && l.newline == CRLF
    ensures Contains(Print(l), CRLF)
  {
    if |l.lines| > 1 {
      var after := Join(l.lines[1..], CRLF) + if l.trailing then CRLF else "";
      assert Print(l) == l.lines[0] + CRLF + after;
      ContainsMiddle(l.lines[0], CRLF, after);
    } else {
      assert Print(l) == l.lines[0] + CRLF + "";
      ContainsMiddle(l.lines[0], CRLF, "");
    }
  }

  lemma {:induction false} JoinEnd(lines: seq<string>, sep: string)
    requires lines != []
    ensures EndsWith(Join(lines, sep), lines[|lines| - 1])
    ensures |lines| > 1 ==> EndsWith(Join(lines, sep), sep + lines[|lines| - 1])
  {
    if |lines| > 1 {
      var last := lines[|lines| - 1];
      JoinEnd(lines[1..], sep);
      var s, t := Join(lines, sep), Join(lines[1..], sep);
      assert s == lines[0] + sep + t;
      assert s[|s| - |t|..] == t && s[|s| - |t| - |sep|..] == sep + t;
      if |lines| > 2 {
        var n := |sep + last|;
        assert s[|s| - n..] == t[|t| - n..];
      }
    }
  }

  // Without a trailing newline the text does not end in one.
  lemma NoTrailingNewline(lines: seq<string>, sep: string)
    requires IsNewline(sep) && lines != [] && Unbroken(lines, sep) && lines[|lines| - 1] != ""
    ensures !EndsWith(Join(lines, sep), sep)
  {
    var last, s := lines[|lines| - 1], Join(lines, sep);
    JoinEnd(lines, sep);
    NoLFAnywhere(last);
    NoCRLFAnywhere(last);
    assert s[|s| - 1] == last[|last| - 1];
    if |last| > 1 {
      assert s[|s| - 2] == last[|last| - 2];
    } else if |lines| > 1 {
      assert s[|s| - 2] == s[|s| - |sep + last|..][|sep| - 1] == '\n';
    }
  }

  lemma LayoutFrom(text: string, newline: string, trailing: bool, body: string)
    requires text != "" && DetectNewline(text) == newline && EndsWith(text, newline) == trailing
    requires text == body + if trailing then newline else ""
    ensures LayoutOf(Some(text)) == Layout(Split(body, newline), newline, trailing)
  {
    if trailing {
      assert text[..|text| - |newline|] == body;
    } else {
      assert text == body;
    }
  }

  lemma PrintedNewline(l: Layout)
    requires Sound(l)
    ensures DetectNewline(Print(l)) == l.newline
  {
    if l.newline == LF {
      LFTextHasNoCRLF(l.lines, l.trailing);
    } else {
      PrintHasNewline(l);
    }
  }

  lemma PrintedEnd(l: Layout)
    requires Sound(l)
    ensures EndsWith(Print(l), l.newline) == l.trailing
  {
    var body := Join(l.lines, l.newline);
    if l.trailing {
      assert Print(l)[|body|..] == l.newline;
    } else {
      assert Print(l) == body;
      NoTrailingNewline(l.lines, l.newline);
    }
  }

  lemma PrintedText(l: Layout)
    requires Sound(l)
    ensures Print(l) != ""
    ensures Print(l) == Join(l.lines, l.newline) + if l.trailing then l.newline else ""
  {
    hide Contains, Join;
    JoinEnd(l.lines, l.newline);
  }

  // Reading back a printed layout gives the layout.
  lemma ParsePrint(l: Layout)
    requires Sound(l)
    ensures LayoutOf(Some(Print(l))) == l
  {
    hide Contains, Split, Join, Print, EndsWith, DetectNewline, LayoutOf, NoStrayCR;
    PrintedText(l);
    PrintedNewline(l);
    PrintedEnd(l);
    SplitJoin(l.lines, l.newline);
    LayoutFrom(Print(l), l.newline, l.trailing, Join(l.lines, l.newline));
  }

  // Printing what was read gives the text back.
  lemma PrintParse(text: string)
    requires text != ""
    ensures Print(LayoutOf(Some(text))) == text
  {
    hide Contains, Split;
    var l := LayoutOf(Some(text));
    var body := if l.trailing then text[..|text| - |l.newline|] else text;
    JoinSplit(body, l.newline);
    if l.trailing {
      assert text == body + l.newline;
    } else {
      assert body + "" == text;
    }
  }

  /* An edit keeps a layout sound, unless it appends behind a final carriage return. */

  lemma StrayHere(l: string, rest: string)
    requires EndsInCR(l)
    ensures Contains(l + LF + rest, CRLF)
  {
    assert l + LF + rest == l[..|l| - 1] + CRLF + rest;
    ContainsMiddle(l[..|l| - 1], CRLF, rest);
  }

  lemma RenderCons(lines: seq<string>, trailing: bool)
    requires |lines| > 1
    ensures Render(lines, LF, trailing) == lines[0] + LF + Render(lines[1..], LF, trailing)
  {
    assert lines[0] + LF + Join(lines[1..], LF) + (if trailing then LF else "") ==
           lines[0] + LF + (Join(lines[1..], LF) + if trailing then LF else "");
  }

  lemma {:induction false} StrayCRBreaks(lines: seq<string>, trailing: bool)
    requires lines != [] && !NoStrayCR(lines, trailing)
    ensures Contains(Render(lines, LF, trailing), CRLF)
  {
    hide Contains;
    var l := lines[0];
    if |lines| == 1 {
      StrayHere(l, "");
      assert Render(lines, LF, trailing) == l + LF + "";
    } else {
      RenderCons(lines, trailing);
      var rest := Render(lines[1..], LF, trailing);
      if EndsInCR(l) {
        StrayHere(l, rest);
      } else {
        var k :| 0 <= k < |lines| && EndsInCR(lines[k]) && !(k == |lines| - 1 && !trailing);
        assert lines[1..][k - 1] == lines[k];
        StrayCRBreaks(lines[1..], trailing);
        ContainsSuffix(l + LF, rest);
      }
    }
  }

  lemma {:induction false} ContainsSuffix(a: string, b: string)
    requires Contains(b, CRLF)
    ensures Contains(a + b, CRLF)
  {
    if a == "" {
      assert a + b == b;
    } else {
      assert (a + b)[1..] == a[1..] + b;
      ContainsSuffix(a[1..], b);
    }
  }

  lemma ReadLayoutSound(text: string)
    requires text != ""
    ensures Sound(LayoutOf(Some(text)))
  {
    hide Contains, Split, Join;
    var l := LayoutOf(Some(text));
    SplitUnbroken(if l.trailing then text[..|text| - |l.newline|] else text, l.newline);
    PrintParse(text);
    if !l.trailing {
      assert Join(l.lines, l.newline) + "" == Join(l.lines, l.newline);
      LastLineShows(l.lines, l.newline, text);
      OneLine(l.lines, l.newline);
    }
    if l.newline == LF && !NoStrayCR(l.lines, l.trailing) {
      StrayCRBreaks(l.lines, l.trailing);
      assert false;
    }
  }

  lemma LastLineShows(lines: seq<string>, sep: string, text: string)
    requires lines != [] && Join(lines, sep) == text && text != "" && !EndsWith(text, sep)
    ensures lines[|lines| - 1] != ""
  {
    JoinEnd(lines, sep);
    assert sep + "" == sep;
  }

  lemma OneLine(lines: seq<string>, sep: string)
    requires |lines| > 0
    ensures |lines| == 1 ==> Join(lines, sep) == lines[0]
  {
  }

  lemma BreakInPrefix(p: string, q: string, line: string, sep: string, i: int)
    requires IsNewline(sep) && p <= line && '\n' !in q && BreakAt(p + q, sep, i)
    ensures BreakAt(line, sep, i)
  {
    BreakChars(p + q, sep, i);
    assert i + |sep| <= |p|;
    assert (p + q)[i..i + |sep|] == p[i..i + |sep|] == line[i..i + |sep|];
  }

  lemma NewPart(m: Match, s: Setting)
    requires ValidKey(s.key) && PlainValue(s.value) && '\n' !in m.rest
    ensures '\n' !in s.key + "=" + s.value + Suffix(m.rest)
  {
    var comment := Suffix(m.rest);
    assert forall k :: 0 <= k < |comment| ==> comment[k] != '\n';
  }

  lemma MatchedPrefix(line: string, key: string)
    requires Assigns(line, key)
    ensures MatchKey(line, key).value.prefix <= line && '\n' !in MatchKey(line, key).value.rest
  {
    ComputedMatches(line, key);
  }

  // Every newline of a rewritten line sits in the untouched prefix.
  lemma RewrittenBreaks(line: string, s: Setting, sep: string, i: int)
    requires ValidKey(s.key) && PlainValue(s.value) && Assigns(line, s.key) && IsNewline(sep)
    requires BreakAt(Rewrite(MatchKey(line, s.key).value, s.key, s.value), sep, i)
    ensures BreakAt(line, sep, i)
  {
    hide BreakAt, MatchKey, CommentPart, ValidKey, PlainValue, IsPrefix;
    var m := MatchKey(line, s.key).value;
    MatchedPrefix(line, s.key);
    NewPart(m, s);
    var q := s.key + "=" + s.value + Suffix(m.rest);
    assert Rewrite(m, s.key, s.value) == m.prefix + q;
    BreakInPrefix(m.prefix, q, line, sep, i);
  }

  lemma RewriteEnd(m: Match, s: Setting)
    requires PlainValue(s.value)
    ensures var now := Rewrite(m, s.key, s.value);
      && now != ""
      && now[|now| - 1] == if CommentPart(m.rest) == "" then s.value[|s.value| - 1] else m.rest[|m.rest| - 1]
  {
    var comment := CommentPart(m.rest);
    if comment == "" {
      assert Rewrite(m, s.key, s.value) == (m.prefix + s.key + "=") + s.value;
    } else {
      assert Rewrite(m, s.key, s.value) == (m.prefix + s.key + "=" + s.value + "  ") + comment;
    }
  }

  lemma RewrittenEnd(line: string, s: Setting)
    requires ValidKey(s.key) && PlainValue(s.value) && Assigns(line, s.key) && '\n' !in line
    requires EndsInCR(Rewrite(MatchKey(line, s.key).value, s.key, s.value))
    ensures EndsInCR(line)
  {
    var m := MatchKey(line, s.key).value;
    ComputedMatches(line, s.key);
    RewriteEnd(m, s);
    assert line == (m.prefix + s.key + "=") + m.rest;
  }

  lemma EditedLineChars(line: string, mapping: seq<Setting>, sep: string)
    requires ValidMapping(mapping) && IsNewline(sep) && !Contains(line, sep)
    ensures !Contains(NewLine(line, mapping), sep)
    ensures line != "" ==> NewLine(line, mapping) != ""
    ensures sep == LF && EndsInCR(NewLine(line, mapping)) ==> EndsInCR(line)
  {
    var now := NewLine(line, mapping);
    if k :| 0 <= k < |mapping| && Assigns(line, mapping[k].key) {
      LineOfKey(line, mapping, k);
      ContainsIff(now, sep);
      ContainsIff(line, sep);
      forall i | BreakAt(now, sep, i) ensures BreakAt(line, sep, i) {
        RewrittenBreaks(line, mapping[k], sep, i);
      }
      if sep == LF && EndsInCR(now) {
        NoLFAnywhere(line);
        RewrittenEnd(line, mapping[k]);
      }
    } else {
      LineUntouched(line, mapping);
    }
  }

  lemma {:induction false} AppendedChars(lines: seq<string>, mapping: seq<Setting>, n: nat)
    requires ValidMapping(mapping) && n <= |mapping|
    ensures forall i :: 0 <= i < |Appended(lines, mapping[..n])| ==> PlainLine(Appended(lines, mapping[..n])[i])
  {
    if n > 0 {
      AppendedChars(lines, mapping, n - 1);
      assert mapping[..n][..n - 1] == mapping[..n - 1];
      assert PlainLine(Assignment(mapping[n - 1].key, mapping[n - 1].value));
    }
  }

  ghost predicate PlainLine(l: string) {
    l != "" && forall i :: 0 <= i < |l| ==> l[i] != '\r' && l[i] != '\n'
  }

  lemma PlainLineUnbroken(l: string, sep: string)
    requires PlainLine(l) && IsNewline(sep)
    ensures !Contains(l, sep) && !EndsInCR(l)
  {
    NoLFAnywhere(l);
    NoCRLFAnywhere(l);
  }

  function EditedLayout(l: Layout, mapping: seq<Setting>): Layout {
    Layout(NewLines(l.lines, mapping), l.newline, Appended(l.lines, mapping) != [] || l.trailing)
  }

  // The one way an edit can go wrong: the text has no "\r\n" but its last line ends in "\r",
  // which no rewrite drops, and some key is appended behind it.
  ghost predicate TurnsCRLF(text: Option<string>, mapping: seq<Setting>) {
    var lines := LayoutOf(text).lines;
    && lines != []
    && !Contains(text.value, CRLF)
    && KeepsFinalCR(lines[|lines| - 1], mapping)
    && exists k :: 0 <= k < |mapping| && Count(lines, mapping[k].key) == 0
  }

  ghost predicate KeepsFinalCR(line: string, mapping: seq<Setting>) {
    EndsInCR(line) && forall k :: 0 <= k < |mapping| && Assigns(line, mapping[k].key) ==>
      CommentPart(MatchKey(line, mapping[k].key).value.rest) != ""
  }

  lemma RewriteKeepsCR(line: string, s: Setting)
    requires ValidKey(s.key) && PlainValue(s.value) && Assigns(line, s.key) && '\n' !in line
    ensures var m := MatchKey(line, s.key).value;
      EndsInCR(Rewrite(m, s.key, s.value)) <==> EndsInCR(line) && CommentPart(m.rest) != ""
  {
    var m := MatchKey(line, s.key).value;
    MatchedSuffix(line, s.key);
    RewriteEnd(m, s);
  }

  lemma MatchedSuffix(line: string, key: string)
    requires Assigns(line, key) && '\n' !in line
    ensures line == MatchKey(line, key).value.prefix + key + "=" + MatchKey(line, key).value.rest
    ensures MatchKey(line, key).value.rest != "" ==>
      line[|line| - 1] == MatchKey(line, key).value.rest[|MatchKey(line, key).value.rest| - 1]
  {
    ComputedMatches(line, key);
    var m := MatchKey(line, key).value;
    assert m.prefix + key + "=" + m.rest == (m.prefix + key + "=") + m.rest;
    assert (m.prefix + key + "=" + m.rest + "\n")[|m.prefix + key + "=" + m.rest|] == '\n';
  }

  lemma FinalCRKept(line: string, mapping: seq<Setting>)
    requires ValidMapping(mapping) && '\n' !in line
    ensures KeepsFinalCR(line, mapping) <==> EndsInCR(NewLine(line, mapping))
  {
    if k :| 0 <= k < |mapping| && Assigns(line, mapping[k].key) {
      LineOfKey(line, mapping, k);
      RewriteKeepsCR(line, mapping[k]);
      forall j | 0 <= j < |mapping| && Assigns(line, mapping[j].key) ensures j == k {
        AtMostOneKey(line, mapping[j].key, mapping[k].key);
      }
    } else {
      LineUntouched(line, mapping);
    }
  }

  lemma EditedUnbroken(l: Layout, mapping: seq<Setting>)
    requires ValidMapping(mapping) && IsNewline(l.newline) && Unbroken(l.lines, l.newline)
    ensures Unbroken(NewLines(l.lines, mapping), l.newline)
    ensures l.newline == LF ==>
      forall i :: 0 <= i < |NewLines(l.lines, mapping)| && EndsInCR(NewLines(l.lines, mapping)[i]) ==>
        i < |l.lines| && EndsInCR(l.lines[i])
  {
    var added := Appended(l.lines, mapping);
    assert mapping[..|mapping|] == mapping;
    AppendedChars(l.lines, mapping, |mapping|);
    forall i | 0 <= i < |added| ensures !Contains(added[i], l.newline) && !EndsInCR(added[i]) {
      PlainLineUnbroken(added[i], l.newline);
    }
    forall i | 0 <= i < |l.lines|
      ensures !Contains(Kept(l.lines, mapping)[i], l.newline)
      ensures l.newline == LF && EndsInCR(Kept(l.lines, mapping)[i]) ==> EndsInCR(l.lines[i])
    {
      EditedLineChars(l.lines[i], mapping, l.newline);
    }
  }

  lemma EditedNoStray(text: Option<string>, mapping: seq<Setting>)
    requires ValidMapping(mapping) && !TurnsCRLF(text, mapping) && LayoutOf(text).lines != []
    requires LayoutOf(text).newline == LF && Sound(LayoutOf(text))
    ensures NoStrayCR(NewLines(LayoutOf(text).lines, mapping), EditedLayout(LayoutOf(text), mapping).trailing)
  {
    hide LayoutOf, Contains, Split, Occurrences, NewLine, KeepsFinalCR, EndsInCR, ValidMapping;
    var l := LayoutOf(text);
    var n := |l.lines|;
    EditedUnbroken(l, mapping);
    NothingMissing(l.lines, mapping);
    NoLFAnywhere(l.lines[n - 1]);
    FinalCRKept(l.lines[n - 1], mapping);
    NoCRLFText(text);
  }

  lemma NoCRLFText(text: Option<string>)
    ensures LayoutOf(text).lines != [] && LayoutOf(text).newline == LF ==> !Contains(text.value, CRLF)
  {
  }

  lemma EditedSound(text: Option<string>, mapping: seq<Setting>)
    requires ValidMapping(mapping) && !TurnsCRLF(text, mapping) && NewLines(LayoutOf(text).lines, mapping) != []
    ensures Sound(EditedLayout(LayoutOf(text), mapping))
  {
    hide Contains, Split, Occurrences, NewLine, NoStrayCR, TurnsCRLF, ValidMapping;
    var l := LayoutOf(text);
    var n := |l.lines|;
    if n > 0 {
      ReadLayoutSound(text.value);
      EditedLineChars(l.lines[n - 1], mapping, l.newline);
      if l.newline == LF {
        EditedNoStray(text, mapping);
      }
    } else {
      AppendedNoStray(mapping);
    }
    EditedUnbroken(l, mapping);
  }

  lemma AppendedNoStray(mapping: seq<Setting>)
    requires ValidMapping(mapping)
    ensures NoStrayCR(NewLines([], mapping), true)
  {
    hide Appended;
    assert mapping[..|mapping|] == mapping;
    AppendedChars([], mapping, |mapping|);
  }

  // The printed edit reads back as exactly the edited lines, with the same newline style.
  lemma EditReadsBack(text: Option<string>, mapping: seq<Setting>)
    requires ValidMapping(mapping) && Update(text, mapping).Ok? && !TurnsCRLF(text, mapping)
    requires NewLines(LayoutOf(text).lines, mapping) != []
    ensures LayoutOf(Some(Update(text, mapping).value.0)) == EditedLayout(LayoutOf(text), mapping)
  {
    EditedSound(text, mapping);
    ParsePrint(EditedLayout(LayoutOf(text), mapping));
  }

  // Updating an updated text gives the same text, byte for byte, and reports no change.
  lemma SecondUpdateChangesNothing(text: Option<string>, mapping: seq<Setting>)
    requires ValidMapping(mapping) && Update(text, mapping).Ok? && !TurnsCRLF(text, mapping)
    ensures var now := Update(text, mapping).value.0;
      Update(Some(now), mapping) == Ok((now, []))
  {
    if NewLines(LayoutOf(text).lines, mapping) == [] {
      BlankAgain(text, mapping);
    } else {
      EditedAgain(text, mapping);
    }
  }

  lemma BlankAgain(text: Option<string>, mapping: seq<Setting>)
    requires Update(text, mapping).Ok? && NewLines(LayoutOf(text).lines, mapping) == [] && ValidMapping(mapping)
    ensures var now := Update(text, mapping).value.0;
      Update(Some(now), mapping) == Ok((now, []))
  {
    assert LayoutOf(text).lines == [];
    assert mapping != [] ==> Appended([], mapping) != [];
    BlankText();
  }

  lemma BlankText()
    ensures LayoutOf(Some(LF)) == Layout([""], LF, true) && Update(Some(LF), []) == Ok((LF, []))
  {
    hide LayoutOf;
    BlankLayout();
    assert Kept([""], []) == [""] && Appended([""], []) == [];
    assert [""] + [] == [""] && Render([""], LF, true) == LF;
  }

  lemma BlankLayout()
    ensures LayoutOf(Some(LF)) == Layout([""], LF, true)
  {
    hide LayoutOf, Contains;
    var blank := Layout([""], LF, true);
    assert Print(blank) == LF;
    ShortLine("", LF);
    ParsePrint(blank);
  }

  lemma EditedAgain(text: Option<string>, mapping: seq<Setting>)
    requires ValidMapping(mapping) && Update(text, mapping).Ok? && !TurnsCRLF(text, mapping)
    requires NewLines(LayoutOf(text).lines, mapping) != []
    ensures var now := Update(text, mapping).value.0;
      Update(Some(now), mapping) == Ok((now, []))
  {
    EditReadsBack(text, mapping);
    SecondPass(LayoutOf(text).lines, mapping);
  }

  /* Otherwise a second pass reads the text in the other newline style. */

  lemma TailOfPrefix(p: string, j: nat)
    requires IsPrefix(p) && j < |p| && p[j] == '\n'
    ensures IsPrefix(p[j + 1..])
  {
    if !AllSpace(p) {
      var a :| IsExportPrefix(p, a);
      var b := a + |EXPORT|;
      assert forall k :: a <= k < b ==> p[k] == p[a..b][k - a];
      if j < a {
        assert p[j + 1..][..a - j - 1] == p[..a][j + 1..];
        assert p[j + 1..][a - j - 1..b - j - 1] == p[a..b];
        assert p[j + 1..][b - j - 1..] == p[b..];
        assert IsExportPrefix(p[j + 1..], a - j - 1);
      } else {
        assert p[j + 1..] == p[b..][j + 1 - b..];
        assert AllSpace(p[j + 1..]);
      }
    }
  }

  lemma MatchBehind(p: string, key: string, tail: string, j: nat)
    requires ValidKey(key) && IsPrefix(p) && j < |p| && p[j] == '\n' && RestOf(tail).Some?
    ensures Assigns((p + key + "=" + tail)[j + 1..], key)
  {
    TailOfPrefix(p, j);
    var rest, b := RestOf(tail).value, (p + key + "=" + tail)[j + 1..];
    RestDetermined(tail, rest);
    assert b == p[j + 1..] + key + "=" + tail;
    if tail != rest {
      assert b == p[j + 1..] + key + "=" + rest + "\n";
    }
    MatchesComputed(b, key, Match(p[j + 1..], rest));
  }

  lemma MatchBefore(a: string, b: string, key: string, m: Match)
    requires ValidKey(key) && '\n' !in a && RegexMatches(a + LF + b, key, m) && |m.prefix| <= |a|
    ensures Assigns(a, key)
  {
    var line, whole := a + LF + b, m.prefix + key + "=" + m.rest;
    assert line[|a|] == '\n' && line[..|a|] == a;
    assert forall k :: |m.prefix| <= k < |whole| ==> whole[k] != '\n' by {
      assert whole == m.prefix + (key + "=" + m.rest) && '\n' !in key + "=" + m.rest;
    }
    assert |whole| == |a|;
    assert a == whole;
    MatchesComputed(a, key, m);
  }

  // A match across a newline is a match on one side of it.
  lemma MatchOnOneSide(a: string, b: string, key: string)
    requires ValidKey(key) && '\n' !in a && Assigns(a + LF + b, key)
    ensures Assigns(a, key) || Assigns(b, key)
  {
    var line, m := a + LF + b, MatchKey(a + LF + b, key).value;
    ComputedMatches(line, key);
    if |a| < |m.prefix| {
      var tail := if line == m.prefix + key + "=" + m.rest then m.rest else m.rest + "\n";
      assert line == m.prefix + key + "=" + tail && line[|a|] == '\n' && line[|a| + 1..] == b;
      RestDetermined(tail, m.rest);
      MatchBehind(m.prefix, key, tail, |a|);
    } else {
      MatchBefore(a, b, key, m);
    }
  }

  lemma {:induction false} SomeLineAssigns(lines: seq<string>, key: string)
    requires ValidKey(key) && lines != [] && Unbroken(lines, LF) && Assigns(Join(lines, LF), key)
    ensures exists k :: 0 <= k < |lines| && Assigns(lines[k], key)
  {
    if |lines| > 1 {
      NoLFAnywhere(lines[0]);
      MatchOnOneSide(lines[0], Join(lines[1..], LF), key);
      if !Assigns(lines[0], key) {
        SomeLineAssigns(lines[1..], key);
        var k :| 0 <= k < |lines| - 1 && Assigns(lines[1..][k], key);
        assert Assigns(lines[k + 1], key);
      }
    }
  }

  // A final carriage return belongs to the value, so dropping it loses no assignment.
  lemma AssignsWithCR(line: string, key: string)
    requires ValidKey(key) && '\n' !in line && Assigns(line, key)
    ensures Assigns(line + "\r", key)
  {
    var m := MatchKey(line, key).value;
    ComputedMatches(line, key);
    assert line + "\r" == m.prefix + key + "=" + (m.rest + "\r");
    MatchesComputed(line + "\r", key, Match(m.prefix, m.rest + "\r"));
  }

  lemma {:induction false} JoinExtended(init: seq<string>, last: string, suffix: string, sep: string)
    ensures Join(init + [last + suffix], sep) == Join(init + [last], sep) + suffix
  {
    if init != [] {
      assert (init + [last])[1..] == init[1..] + [last];
      assert (init + [last + suffix])[1..] == init[1..] + [last + suffix];
      JoinExtended(init[1..], last, suffix, sep);
    }
  }

  lemma {:induction false} JoinPlain(lines: seq<string>)
    requires forall k :: 0 <= k < |lines| ==> PlainLine(lines[k])
    ensures '\r' !in Join(lines, LF)
    ensures lines != [] ==> Join(lines, LF) != ""
  {
    if |lines| > 1 {
      JoinPlain(lines[1..]);
    }
  }

  // The edited lines of the text, run together as the second pass will see them.
  function Merged(lines: seq<string>): string
    requires lines != [] && EndsInCR(lines[|lines| - 1])
  {
    var last := lines[|lines| - 1];
    Join(lines[..|lines| - 1] + [last[..|last| - 1]], LF)
  }

  lemma MergedIs(lines: seq<string>)
    requires lines != [] && EndsInCR(lines[|lines| - 1])
    ensures Join(lines, LF) == Merged(lines) + "\r"
  {
    var init, last := lines[..|lines| - 1], lines[|lines| - 1];
    assert last == last[..|last| - 1] + "\r" && lines == init + [last];
    JoinExtended(init, last[..|last| - 1], "\r", LF);
  }

  lemma KeptWithCR(text: Option<string>, mapping: seq<Setting>)
    requires ValidMapping(mapping) && TurnsCRLF(text, mapping)
    ensures var l := LayoutOf(text);
      var kept := Kept(l.lines, mapping);
      && l.newline == LF && !l.trailing && Appended(l.lines, mapping) != []
      && EndsInCR(kept[|kept| - 1]) && Unbroken(kept, LF) && !Contains(Join(kept, LF), CRLF)
  {
    hide Contains, Split, Occurrences;
    var l := LayoutOf(text);
    var kept, added, n := Kept(l.lines, mapping), Appended(l.lines, mapping), |l.lines|;
    ReadLayoutSound(text.value);
    NoLFAnywhere(l.lines[n - 1]);
    FinalCRKept(l.lines[n - 1], mapping);
    NothingMissing(l.lines, mapping);
    EditedUnbroken(l, mapping);
    forall i | 0 <= i < n
      ensures kept[i] == NewLines(l.lines, mapping)[i]
    {
    }
    LFTextHasNoCRLF(kept, false);
    assert Join(kept, LF) + "" == Join(kept, LF);
  }

  lemma CRLFPrefix(a: string, b: string)
    requires !Contains(a + b, CRLF)
    ensures !Contains(a, CRLF)
  {
    NoCRLFAnywhere(a);
    NoCRLFAnywhere(a + b);
    assert forall i :: 0 <= i < |a| ==> a[i] == (a + b)[i];
  }

  lemma TurnedText(text: Option<string>, mapping: seq<Setting>)
    requires ValidMapping(mapping) && Update(text, mapping).Ok? && TurnsCRLF(text, mapping)
    ensures var l := LayoutOf(text);
      var kept, added := Kept(l.lines, mapping), Appended(l.lines, mapping);
      && kept != [] && EndsInCR(kept[|kept| - 1])
      && Update(text, mapping).value.0 == Merged(kept) + CRLF + (Join(added, LF) + LF)
  {
    var l := LayoutOf(text);
    var kept, added := Kept(l.lines, mapping), Appended(l.lines, mapping);
    KeptWithCR(text, mapping);
    RenderMerged(kept, added);
    assert Update(text, mapping).value.0 == Render(kept + added, LF, true);
  }

  lemma RenderMerged(kept: seq<string>, added: seq<string>)
    requires kept != [] && EndsInCR(kept[|kept| - 1]) && added != []
    ensures Render(kept + added, LF, true) == Merged(kept) + CRLF + (Join(added, LF) + LF)
  {
    MergedIs(kept);
    JoinConcat(kept, added, LF);
    assert Render(kept + added, LF, true) == (Merged(kept) + "\r") + LF + Join(added, LF) + LF;
  }

  lemma TurnedLayout(text: Option<string>, mapping: seq<Setting>)
    requires ValidMapping(mapping) && Update(text, mapping).Ok? && TurnsCRLF(text, mapping)
    ensures var l := LayoutOf(text);
      var kept, added := Kept(l.lines, mapping), Appended(l.lines, mapping);
      && kept != [] && EndsInCR(kept[|kept| - 1])
      && LayoutOf(Some(Update(text, mapping).value.0)) == Layout([Merged(kept), Join(added, LF) + LF], CRLF, false)
  {
    var l := LayoutOf(text);
    var kept, added := Kept(l.lines, mapping), Appended(l.lines, mapping);
    TurnedText(text, mapping);
    KeptWithCR(text, mapping);
    MergedIs(kept);
    assert mapping[..|mapping|] == mapping;
    AppendedChars(l.lines, mapping, |mapping|);
    JoinPlain(added);
    CRLFPrefix(Merged(kept), "\r");
    TwoLines(Merged(kept), Join(added, LF) + LF);
  }

  lemma NoNewlineAtEnd(head: string, tail: string)
    requires '\r' !in tail && |tail| > 1
    ensures !EndsWith(head + CRLF + tail, CRLF)
  {
    var text := head + CRLF + tail;
    var end := text[|text| - 2..];
    assert end[0] == text[|text| - 2] == tail[|tail| - 2];
  }

  lemma TwoLines(head: string, tail: string)
    requires !Contains(head, CRLF) && '\r' !in tail && |tail| > 1
    ensures LayoutOf(Some(head + CRLF + tail)) == Layout([head, tail], CRLF, false)
  {
    hide Contains, Split;
    NoCRLFAnywhere(tail);
    ContainsMiddle(head, CRLF, tail);
    NoNewlineAtEnd(head, tail);
    SplitCons(head, CRLF, tail);
    SplitOne(tail, CRLF);
  }

  // Two physical lines read as one assign nothing that neither of them assigned.
  lemma MergedAssigns(lines: seq<string>, key: string)
    requires ValidKey(key) && lines != [] && Unbroken(lines, LF) && EndsInCR(lines[|lines| - 1])
    requires Assigns(Merged(lines), key)
    ensures exists k :: 0 <= k < |lines| && Assigns(lines[k], key)
  {
    hide Assigns, Contains, Join;
    var n := |lines| - 1;
    var last := lines[n];
    var cut := lines[..n] + [last[..|last| - 1]];
    NoLFAnywhere(last);
    NoLFAnywhere(last[..|last| - 1]);
    SomeLineAssigns(cut, key);
    var k :| 0 <= k < |cut| && Assigns(cut[k], key);
    if k == n {
      AssignsWithCR(last[..|last| - 1], key);
      assert last == last[..|last| - 1] + "\r";
    }
    assert Assigns(lines[k], key);
  }

  lemma MissingStaysMissing(text: Option<string>, mapping: seq<Setting>, k: nat)
    requires ValidMapping(mapping) && TurnsCRLF(text, mapping)
    requires k < |mapping| && Count(LayoutOf(text).lines, mapping[k].key) == 0
    requires var kept := Kept(LayoutOf(text).lines, mapping); kept != [] && EndsInCR(kept[|kept| - 1])
    ensures !Assigns(Merged(Kept(LayoutOf(text).lines, mapping)), mapping[k].key)
  {
    var lines, key := LayoutOf(text).lines, mapping[k].key;
    var kept := Kept(lines, mapping);
    KeptWithCR(text, mapping);
    if Assigns(Merged(kept), key) {
      MergedAssigns(kept, key);
      var i :| 0 <= i < |kept| && Assigns(kept[i], key);
      EditedLine(lines[i], mapping, key);
      OccurrencesAre(lines, key);
      assert false;
    }
  }

  lemma EditedEnd(line: string, mapping: seq<Setting>)
    requires ValidMapping(mapping) && (exists k :: 0 <= k < |mapping| && Assigns(line, mapping[k].key))
    ensures NewLine(line, mapping) != "" && NewLine(line, mapping)[|NewLine(line, mapping)| - 1] != '\n'
  {
    var k :| 0 <= k < |mapping| && Assigns(line, mapping[k].key);
    LineOfKey(line, mapping, k);
    MatchedPrefix(line, mapping[k].key);
    RewriteEnd(MatchKey(line, mapping[k].key).value, mapping[k]);
  }

  lemma OtherLineAssigns(head: string, tail: string, key: string)
    requires Count([head, tail], key) > 0 && !Assigns(head, key)
    ensures Assigns(tail, key)
  {
    var i := Occurrences([head, tail], key)[0];
    assert Assigns([head, tail][i], key);
  }

  lemma TailRewritten(text: Option<string>, mapping: seq<Setting>, head: string, tail: string)
    requires ValidMapping(mapping) && TurnsCRLF(text, mapping) && Appended([head, tail], mapping) == []
    requires var kept := Kept(LayoutOf(text).lines, mapping);
      kept != [] && EndsInCR(kept[|kept| - 1]) && head == Merged(kept)
    ensures exists k :: 0 <= k < |mapping| && Assigns(tail, mapping[k].key)
  {
    NothingMissing([head, tail], mapping);
    var k :| 0 <= k < |mapping| && Count(LayoutOf(text).lines, mapping[k].key) == 0;
    MissingStaysMissing(text, mapping, k);
    OtherLineAssigns(head, tail, mapping[k].key);
  }

  lemma TwoLineRender(head: string, tail: string, mapping: seq<Setting>)
    requires ValidMapping(mapping) && Appended([head, tail], mapping) == []
    requires exists k :: 0 <= k < |mapping| && Assigns(tail, mapping[k].key)
    ensures var again := Render(NewLines([head, tail], mapping), CRLF, false);
      again != "" && again[|again| - 1] != '\n'
  {
    var first, last := NewLine(head, mapping), NewLine(tail, mapping);
    EditedEnd(tail, mapping);
    TwoNewLines(head, tail, mapping);
    TwoLineJoin(first, last);
  }

  lemma TwoNewLines(head: string, tail: string, mapping: seq<Setting>)
    requires Appended([head, tail], mapping) == []
    ensures NewLines([head, tail], mapping) == [NewLine(head, mapping), NewLine(tail, mapping)]
  {
  }

  lemma TwoLineJoin(first: string, last: string)
    requires last != ""
    ensures var s := Render([first, last], CRLF, false); s != "" && s[|s| - 1] == last[|last| - 1]
  {
    assert [first, last][1..] == [last];
    assert Join([first, last], CRLF) == first + CRLF + last;
    assert first + CRLF + last + "" == (first + CRLF) + last;
  }

  lemma SecondUpdateDiffers(text: Option<string>, mapping: seq<Setting>)
    requires ValidMapping(mapping) && Update(text, mapping).Ok? && TurnsCRLF(text, mapping)
    ensures var now := Update(text, mapping).value.0;
      var again := Update(Some(now), mapping);
      again.Err? || again.value.0 != now
  {
    hide Contains, Split, Merged, Occurrences, NewLine;
    var now := Update(text, mapping).value.0;
    TurnedLayout(text, mapping);
    TurnedText(text, mapping);
    var l := LayoutOf(Some(now));
    var head, tail := l.lines[0], l.lines[1];
    assert l.lines == [head, tail] && now[|now| - 1] == '\n' && !EndsWith(now, CRLF);
    if Appended([head, tail], mapping) == [] {
      TailRewritten(text, mapping, head, tail);
      TwoLineRender(head, tail, mapping);
    } else {
      RenderEnds(NewLines([head, tail], mapping));
    }
  }

  lemma RenderEnds(lines: seq<string>)
    ensures EndsWith(Render(lines, CRLF, true), CRLF)
  {
  }

  // Updating is idempotent, byte for byte, exactly when the edit keeps the newline style.
  lemma IdempotentIff(text: Option<string>, mapping: seq<Setting>)
    requires ValidMapping(mapping) && Update(text, mapping).Ok?
    ensures !TurnsCRLF(text, mapping) <==>
            Update(Some(Update(text, mapping).value.0), mapping) == Ok((Update(text, mapping).value.0, []))
  {
    if TurnsCRLF(text, mapping) {
      SecondUpdateDiffers(text, mapping);
    } else {
      SecondUpdateChangesNothing(text, mapping);
    }
  }
}
