// Composing updates when the first one turns an LF text into a CRLF one: exactly when the
// second still does what one update with both would have done.
module DotenvTurned {
  import opened Wrappers
  import opened Chars
  import opened Lines
  import opened DotenvLine
  import opened Dotenv
  import opened DotenvSpec
  import opened DotenvText
  import opened DotenvSequence

  /* One line seen through a larger one. */

  lemma {:induction false} CommentOfCR(rest: string, i: nat, inSingle: bool, inDouble: bool)
    requires i <= |rest|
    ensures CommentStart(rest + "\r", i, inSingle, inDouble) ==
            if CommentStart(rest, i, inSingle, inDouble) == |rest| then |rest| + 1
            else CommentStart(rest, i, inSingle, inDouble)
    decreases |rest| - i
  {
    var r := rest + "\r";
    if i < |rest| {
      assert r[i] == rest[i];
      CommentOfCR(rest, i + 1, if rest[i] == '\'' && !inDouble then !inSingle else inSingle,
                  if rest[i] == '"' && (inSingle || rest[i] != '\'') && !inSingle then !inDouble else inDouble);
    } else {
      assert r[i] == '\r';
    }
  }

  // A carriage return at the end of the value goes with the comment, if there is one.
  lemma SuffixOfCR(rest: string)
    ensures Suffix(rest + "\r") == Suffix(rest) + if CommentPart(rest) == "" then "" else "\r"
  {
    CommentOfCR(rest, 0, false, false);
    var n := CommentStart(rest, 0, false, false);
    if n < |rest| {
      assert (rest + "\r")[n..] == rest[n..] + "\r";
    }
  }

  lemma MatchOfCR(line: string, key: string)
    requires ValidKey(key) && '\n' !in line && Assigns(line, key)
    ensures var m := MatchKey(line, key).value;
      MatchKey(line + "\r", key) == Some(Match(m.prefix, m.rest + "\r"))
  {
    hide MatchKey, ValidKey, IsPrefix;
    var m := MatchKey(line, key).value;
    MatchedSuffix(line, key);
    ComputedMatches(line, key);
    assert line + "\r" == m.prefix + key + "=" + (m.rest + "\r");
    MatchesComputed(line + "\r", key, Match(m.prefix, m.rest + "\r"));
  }

  // So rewriting a value behind which a carriage return stands drops it unless a comment
  // stands in between.
  lemma RewriteOfCR(line: string, s: Setting)
    requires ValidKey(s.key) && '\n' !in line && Assigns(line, s.key)
    ensures Assigns(line + "\r", s.key)
    ensures NewLine(line + "\r", [s]) ==
            NewLine(line, [s]) + if CommentPart(MatchKey(line, s.key).value.rest) == "" then "" else "\r"
  {
    hide MatchKey, NewLine, ValidKey, Suffix, CommentPart;
    var m := MatchKey(line, s.key).value;
    MatchOfCR(line, s.key);
    SuffixOfCR(m.rest);
    OneSetting(line, s);
    OneSetting(line + "\r", s);
  }

  lemma OneSetting(line: string, s: Setting)
    ensures NewLine(line, [s]) ==
            if Assigns(line, s.key) then Rewrite(MatchKey(line, s.key).value, s.key, s.value) else line
  {
    NewLineStep(line, [], s);
    assert [] + [s] == [s];
  }

  lemma PrefixHasNoSign(p: string)
    requires IsPrefix(p)
    ensures '=' !in p
  {
    if !AllSpace(p) {
      var a :| IsExportPrefix(p, a);
      var b := a + |EXPORT|;
      assert p == p[..a] + p[a..b] + p[b..];
      assert '=' !in EXPORT;
    }
  }

  lemma AssignmentHasSign(line: string, key: string)
    requires Assigns(line, key)
    ensures '=' in line
  {
    var n := PrefixLength(line);
    assert line[n..][|key|] == '=';
    assert line[n + |key|] == '=';
  }

  // What comes before a line in a larger one.
  function Pre(init: seq<string>): string {
    if init == [] then "" else init[0] + LF + Pre(init[1..])
  }

  lemma {:induction false} JoinPre(init: seq<string>, l: string)
    ensures Join(init + [l], LF) == Pre(init) + l
  {
    if init != [] {
      assert (init + [l])[1..] == init[1..] + [l];
      JoinPre(init[1..], l);
      assert Join(init + [l], LF) == init[0] + LF + Join(init[1..] + [l], LF);
    }
  }

  lemma StepInto(a: string, b: string, key: string)
    requires ValidKey(key) && '\n' !in a && b != "" && Assigns(a + LF + b, key)
    ensures Assigns(b, key) && !Assigns(a, key)
    ensures MatchKey(a + LF + b, key).value ==
            Match(a + LF + MatchKey(b, key).value.prefix, MatchKey(b, key).value.rest)
  {
    hide MatchKey, IsPrefix, ValidKey, RegexMatches;
    var m := MatchKey(a + LF + b, key).value;
    ComputedMatches(a + LF + b, key);
    MatchReaches(a, b, key, m);
    PrefixAcross(a, b, key, m);
    MatchesComputed(b, key, Match(m.prefix[|a| + 1..], m.rest));
    if Assigns(a, key) {
      AssignmentHasSign(a, key);
    }
  }

  lemma MatchReaches(a: string, b: string, key: string, m: Match)
    requires ValidKey(key) && '\n' !in a && b != "" && RegexMatches(a + LF + b, key, m)
    ensures |a| < |m.prefix|
  {
    if |m.prefix| <= |a| {
      NotSpanning(a, b, key, m);
    }
  }

  lemma PrefixAcross(a: string, b: string, key: string, m: Match)
    requires RegexMatches(a + LF + b, key, m) && |a| < |m.prefix|
    ensures RegexMatches(b, key, Match(m.prefix[|a| + 1..], m.rest))
    ensures m.prefix == a + LF + m.prefix[|a| + 1..] && '=' !in a
  {
    hide IsPrefix;
    var line, p := a + LF + b, m.prefix[|a| + 1..];
    assert m.prefix == line[..|m.prefix|];
    assert m.prefix[|a|] == '\n';
    TailOfPrefix(m.prefix, |a|);
    PrefixHasNoSign(m.prefix);
    assert a == m.prefix[..|a|];
    Dropped(line, m.prefix, key, m.rest, |a| + 1);
    Dropped(line, m.prefix, key, m.rest + "\n", |a| + 1);
    assert line[|a| + 1..] == b;
  }

  lemma Dropped(line: string, prefix: string, key: string, tail: string, n: nat)
    requires n <= |prefix|
    ensures line == prefix + key + "=" + tail ==> line[n..] == prefix[n..] + key + "=" + tail
    ensures prefix + key + "=" + tail + "\n" == prefix + key + "=" + (tail + "\n")
    ensures prefix[n..] + key + "=" + tail + "\n" == prefix[n..] + key + "=" + (tail + "\n")
  {
  }

  lemma NotSpanning(a: string, b: string, key: string, m: Match)
    requires ValidKey(key) && '\n' !in a && RegexMatches(a + LF + b, key, m) && |m.prefix| <= |a|
    ensures b == ""
  {
    var line, whole := a + LF + b, m.prefix + key + "=" + m.rest;
    assert line[|a|] == '\n' && line[..|a|] == a;
    assert forall k :: |m.prefix| <= k < |whole| ==> whole[k] != '\n' by {
      assert whole == m.prefix + (key + "=" + m.rest) && '\n' !in key + "=" + m.rest;
    }
    assert |whole| == |a|;
  }

  // A larger line assigns a key through its last line, if that is not blank.
  lemma {:induction false} ThroughLast(init: seq<string>, l: string, key: string)
    requires ValidKey(key) && l != "" && NoBreaks(init) && Assigns(Pre(init) + l, key)
    ensures Assigns(l, key) && NoneAssigns(init, key)
    ensures MatchKey(Pre(init) + l, key).value ==
            Match(Pre(init) + MatchKey(l, key).value.prefix, MatchKey(l, key).value.rest)
  {
    hide MatchKey, ValidKey;
    if init == [] {
      NothingBefore(l);
      NothingBefore(MatchKey(l, key).value.prefix);
    } else {
      var b := Pre(init[1..]) + l;
      OneBefore(init, l);
      StepInto(init[0], b, key);
      ThroughLast(init[1..], l, key);
      assert forall k :: 1 <= k < |init| ==> init[k] == init[1..][k - 1];
      OneBefore(init, MatchKey(l, key).value.prefix);
    }
  }

  ghost predicate NoBreaks(lines: seq<string>) {
    forall k :: 0 <= k < |lines| ==> '\n' !in lines[k]
  }

  ghost predicate NoneAssigns(lines: seq<string>, key: string) {
    forall k :: 0 <= k < |lines| ==> !Assigns(lines[k], key)
  }

  lemma NothingBefore(l: string)
    ensures Pre([]) + l == l
  {
    assert "" + l == l;
  }

  lemma OneBefore(init: seq<string>, l: string)
    requires init != []
    ensures Pre(init) + l == init[0] + LF + (Pre(init[1..]) + l)
  {
    assert init[0] + LF + Pre(init[1..]) + l == init[0] + LF + (Pre(init[1..]) + l);
  }

  lemma RewriteThroughLast(init: seq<string>, l: string, s: Setting)
    requires ValidKey(s.key) && l != "" && NoBreaks(init) && Assigns(Pre(init) + l, s.key)
    ensures Assigns(l, s.key) && NoneAssigns(init, s.key)
    ensures NewLine(Pre(init) + l, [s]) == Pre(init) + NewLine(l, [s])
    ensures MatchKey(Pre(init) + l, s.key).value.rest == MatchKey(l, s.key).value.rest
  {
    hide MatchKey, NewLine, ValidKey, Pre, Rewrite;
    ThroughLast(init, l, s.key);
    OneSetting(l, s);
    OneSetting(Pre(init) + l, s);
    RewriteBehind(Pre(init), MatchKey(l, s.key).value, s);
  }

  lemma RewriteBehind(p: string, m: Match, s: Setting)
    ensures Rewrite(Match(p + m.prefix, m.rest), s.key, s.value) == p + Rewrite(m, s.key, s.value)
  {
    assert p + m.prefix + s.key + "=" + s.value + Suffix(m.rest) ==
           p + (m.prefix + s.key + "=" + s.value + Suffix(m.rest));
  }

  lemma SomeAssigns(lines: seq<string>, key: string)
    requires Count(lines, key) > 0
    ensures !NoneAssigns(lines, key)
  {
    var i := Occurrences(lines, key)[0];
    assert Assigns(lines[i], key);
  }

  lemma KeptUnassigned(lines: seq<string>, s: Setting)
    requires NoneAssigns(lines, s.key)
    ensures Kept(lines, [s]) == lines && Count(lines, s.key) == 0
  {
    hide Assigns, NewLine, Occurrences;
    forall k | 0 <= k < |lines| ensures NewLine(lines[k], [s]) == lines[k] {
      OneSetting(lines[k], s);
    }
    if Count(lines, s.key) > 0 {
      SomeAssigns(lines, s.key);
    }
  }

  /* The second update of a turned text. */

  // Both updates together succeed and write what one after the other write.
  ghost predicate Composes(text: Option<string>, first: seq<Setting>, second: seq<Setting>) {
    && (Update(text, first + second).Ok? <==>
          Update(text, first).Ok? && Update(Some(Update(text, first).value.0), second).Ok?)
    && (Update(text, first + second).Ok? ==>
          Update(text, first + second).value.0 == Update(Some(Update(text, first).value.0), second).value.0)
  }

  // The appended assignments, read as one line, assign no key of another mapping.
  lemma TailAssignsNone(lines: seq<string>, first: seq<Setting>, key: string)
    requires ValidMapping(first) && ValidKey(key) && !Maps(first, key) && Appended(lines, first) != []
    ensures !Assigns(Join(Appended(lines, first), LF) + LF, key)
  {
    hide ValidMapping, ValidKey, Appended, Occurrences, Join, MatchKey, PlainLine;
    var added := Appended(lines, first);
    if Assigns(Join(added, LF) + LF, key) {
      assert first[..|first|] == first;
      AppendedChars(lines, first, |first|);
      assert Unbroken(added, LF) by {
        forall i | 0 <= i < |added| ensures !Contains(added[i], LF) {
          PlainLineUnbroken(added[i], LF);
        }
      }
      FinalLFMatch(Join(added, LF), key);
      SomeLineAssigns(added, key);
      CountAppended(lines, first, key);
      OccurrencesAre(added, key);
    }
  }

  lemma FinalLFMatch(body: string, key: string)
    requires ValidKey(key) && Assigns(body + LF, key)
    ensures MatchKey(body, key) == MatchKey(body + LF, key)
    ensures body != "" && body[|body| - 1] != '\n'
  {
    hide MatchKey, IsPrefix, ValidKey;
    var m := MatchKey(body + LF, key).value;
    ComputedMatches(body + LF, key);
    var whole := m.prefix + key + "=" + m.rest;
    assert whole == (m.prefix + key) + ("=" + m.rest) && whole[|whole| - 1] != '\n';
    assert body + LF == whole + "\n";
    assert (body + LF)[..|body|] == body && (whole + "\n")[..|whole|] == whole;
    MatchesComputed(body, key, m);
  }

  /* One value replaced on the head. */

  // The value of the key is followed by a comment, and that by no newline.
  ghost predicate BeforeComment(head: string, key: string)
    requires Assigns(head, key)
  {
    head != "" && head[|head| - 1] != '\n' && CommentPart(MatchKey(head, key).value.rest) != ""
  }

  lemma {:induction false} PreEnds(init: seq<string>)
    requires init != []
    ensures Pre(init) != "" && Pre(init)[|Pre(init)| - 1] == '\n'
  {
    if |init| == 1 {
      NothingBefore("");
    } else {
      PreEnds(init[1..]);
      assert Pre(init) == (init[0] + LF) + Pre(init[1..]);
    }
  }

  lemma JoinKept(init: seq<string>, last: string, s: Setting)
    ensures Join(Kept(init + [last], [s]), LF) == Pre(Kept(init, [s])) + NewLine(last, [s])
  {
    assert Kept(init + [last], [s]) == Kept(init, [s]) + [NewLine(last, [s])];
    JoinPre(Kept(init, [s]), NewLine(last, [s]));
  }

  lemma RewrittenAlikeIff(init: seq<string>, l: string, s: Setting)
    requires ValidKey(s.key) && l != "" && '\n' !in l && NoBreaks(init) && Assigns(Pre(init) + l, s.key)
    ensures Join(Kept(init + [l + "\r"], [s]), LF) == NewLine(Pre(init) + l, [s]) + "\r" <==>
            BeforeComment(Pre(init) + l, s.key)
    ensures Count(init + [l + "\r"], s.key) == 1
  {
    hide MatchKey, NewLine, ValidKey, Pre, Join, Occurrences, CommentPart, Kept;
    RewriteThroughLast(init, l, s);
    KeptUnassigned(init, s);
    RewriteOfCR(l, s);
    JoinKept(init, l + "\r", s);
    CountSnoc(init, l + "\r", s.key);
    LastOf(Pre(init), l);
    Longer(Pre(init), NewLine(l, [s]), "\r");
  }

  lemma LastOf(a: string, b: string)
    requires b != ""
    ensures (a + b)[|a + b| - 1] == b[|b| - 1]
  {
  }

  lemma Longer(a: string, b: string, c: string)
    ensures a + (b + "") == a + b && a + (b + c) == a + b + c
  {
    assert b + "" == b;
  }

  // A head ending in a newline loses it when its last value is replaced.
  lemma RewrittenShorter(init: seq<string>, s: Setting)
    requires ValidMapping([s]) && init != [] && Assigns(Pre(init) + "", s.key)
    ensures Join(Kept(init + ["\r"], [s]), LF) != NewLine(Pre(init) + "", [s]) + "\r"
    ensures !BeforeComment(Pre(init) + "", s.key)
  {
    hide MatchKey, NewLine, ValidMapping, Pre, Join, CommentPart;
    var x := NewLine(Pre(init) + "", [s]);
    PreEnds(init);
    assert Pre(init) + "" == Pre(init);
    assert Assigns(Pre(init) + "", [s][0].key);
    EditedEnd(Pre(init) + "", [s]);
    if Assigns("\r", s.key) {
      AssignmentHasSign("\r", s.key);
    }
    OneSetting("\r", s);
    JoinKept(init, "\r", s);
    PreEnds(Kept(init, [s]));
    var y := Pre(Kept(init, [s]));
    SameEnd(y, x, "\r");
  }

  lemma SameEnd(x: string, y: string, c: string)
    ensures x + c == y + c <==> x == y
  {
    if x + c == y + c {
      assert |x| == |y|;
      assert (x + c)[..|x|] == x && (y + c)[..|y|] == y;
    }
  }

  lemma OneValueIff(lines: seq<string>, s: Setting)
    requires ValidMapping([s]) && lines != [] && EndsInCR(lines[|lines| - 1]) && Unbroken(lines, LF)
    requires Assigns(Merged(lines), s.key)
    ensures Join(Kept(lines, [s]), LF) == NewLine(Merged(lines), [s]) + "\r" <==> BeforeComment(Merged(lines), s.key)
    ensures BeforeComment(Merged(lines), s.key) ==> Count(lines, s.key) == 1
  {
    hide MatchKey, NewLine, Pre, Join, CommentPart, Kept, Contains, Occurrences, BeforeComment, ValidKey;
    var init, last := lines[..|lines| - 1], lines[|lines| - 1];
    var l := last[..|last| - 1];
    JoinPre(init, l);
    assert last == l + "\r" && lines == init + [l + "\r"];
    assert ValidKey([s][0].key);
    forall k | 0 <= k < |lines| ensures '\n' !in lines[k] {
      NoLFAnywhere(lines[k]);
    }
    assert NoBreaks(init) && '\n' !in l;
    if l != "" {
      RewrittenAlikeIff(init, l, s);
    } else {
      if init == [] {
        NothingBefore("");
        AssignmentHasSign("", s.key);
      }
      RewrittenShorter(init, s);
    }
  }

  /* Both texts. */

  lemma CountHead(head: string, tail: string, key: string)
    requires !Assigns(tail, key)
    ensures Count([head, tail], key) == if Assigns(head, key) then 1 else 0
  {
    hide MatchKey;
    CountSnoc([], head, key);
    CountSnoc([head], tail, key);
    assert [] + [head] == [head] && [head] + [tail] == [head, tail];
  }

  ghost predicate AssignsNone(line: string, mapping: seq<Setting>) {
    forall k :: 0 <= k < |mapping| ==> !Assigns(line, mapping[k].key)
  }

  ghost predicate AssignsAll(line: string, mapping: seq<Setting>) {
    forall k :: 0 <= k < |mapping| ==> Assigns(line, mapping[k].key)
  }

  // The second update finds two lines, of which only the head can hold its keys.
  lemma TwoLineUpdate(now: string, head: string, tail: string, second: seq<Setting>)
    requires LayoutOf(Some(now)) == Layout([head, tail], CRLF, false) && AssignsNone(tail, second)
    ensures Update(Some(now), second).Ok?
    ensures AssignsAll(head, second) ==> Update(Some(now), second).value.0 == NewLine(head, second) + CRLF + tail
    ensures !AssignsAll(head, second) ==> EndsWith(Update(Some(now), second).value.0, CRLF)
  {
    hide LayoutOf, Assigns, NewLine, Occurrences, Duplicates, Appended, Kept, EndsWith, Render;
    forall k | 0 <= k < |second|
      ensures Count([head, tail], second[k].key) == if Assigns(head, second[k].key) then 1 else 0
    {
      CountHead(head, tail, second[k].key);
    }
    UpdateFailsIff(Some(now), second);
    NothingMissing([head, tail], second);
    if AssignsAll(head, second) {
      LineUntouched(tail, second);
      TwoNewLines(head, tail, second);
      TwoLineText(NewLine(head, second), tail);
    } else {
      RenderEnds(NewLines([head, tail], second));
    }
  }

  lemma TwoLineText(first: string, last: string)
    ensures Render([first, last], CRLF, false) == first + CRLF + last
  {
    assert [first, last][1..] == [last];
    assert Join([first, last], CRLF) == first + CRLF + last;
  }

  lemma TurnedHasLines(text: Option<string>, mapping: seq<Setting>)
    requires ValidMapping(mapping) && TurnsCRLF(text, mapping)
    ensures LayoutOf(text).lines != [] && Appended(LayoutOf(text).lines, mapping) != []
    ensures LayoutOf(text).newline == LF
  {
    KeptWithCR(text, mapping);
  }

  lemma TogetherLines(lines: seq<string>, first: seq<Setting>, second: seq<Setting>)
    requires ValidMapping(first + second)
    ensures Kept(lines, first + second) == Kept(Kept(lines, first), second)
    ensures Appended(lines, first) <= Appended(lines, first + second)
    ensures (forall k :: 0 <= k < |second| ==> Count(lines, second[k].key) > 0) ==>
      Appended(lines, first + second) == Appended(lines, first)
  {
    hide Kept, Appended, Occurrences, ValidMapping;
    LinesTwice(lines, first, second);
    KeptBoth(lines, first, second);
    CountsUnmoved(lines, first, second);
    NothingMissing(NewLines(lines, first), second);
    var added := Appended(lines, first);
    assert added + [] == added;
  }

  // What one update with both mappings would have written.
  lemma TogetherText(text: Option<string>, first: seq<Setting>, second: seq<Setting>)
    requires ValidMapping(first + second) && TurnsCRLF(text, first) && Update(text, first + second).Ok?
    ensures var lines := LayoutOf(text).lines;
      var kept, added := Kept(lines, first), Appended(lines, first);
      && !EndsWith(Update(text, first + second).value.0, CRLF)
      && ((forall k :: 0 <= k < |second| ==> Count(lines, second[k].key) > 0) ==>
            Update(text, first + second).value.0 == Join(Kept(kept, second), LF) + LF + (Join(added, LF) + LF))
  {
    hide LayoutOf, Occurrences, TurnsCRLF, Render, EndsWith, ValidMapping, Duplicates, Appended, NewLine;
    var lines := LayoutOf(text).lines;
    var kept, added := Kept(lines, first), Appended(lines, first);
    ValidParts(first, second);
    TurnedHasLines(text, first);
    TogetherLines(lines, first, second);
    EndsPlain(lines, first + second);
    if forall k :: 0 <= k < |second| ==> Count(lines, second[k].key) > 0 {
      TextOfTwo(Kept(kept, second), added);
    }
  }

  lemma KeptBoth(lines: seq<string>, first: seq<Setting>, second: seq<Setting>)
    requires ValidMapping(first + second)
    ensures Kept(lines, first + second) == Kept(Kept(lines, first), second)
  {
    hide NewLine, ValidMapping;
    forall i | 0 <= i < |lines| ensures NewLine(NewLine(lines[i], first), second) == NewLine(lines[i], first + second) {
      LineTwice(lines[i], first, second);
    }
  }

  lemma TextOfTwo(kept: seq<string>, added: seq<string>)
    requires kept != [] && added != []
    ensures Render(kept + added, LF, true) == Join(kept, LF) + LF + (Join(added, LF) + LF)
  {
    JoinConcat(kept, added, LF);
    assert Join(kept, LF) + LF + Join(added, LF) + LF == Join(kept, LF) + LF + (Join(added, LF) + LF);
  }

  // Appended text ends in one bare newline.
  lemma EndsPlain(lines: seq<string>, mapping: seq<Setting>)
    requires ValidMapping(mapping) && Appended(lines, mapping) != []
    ensures !EndsWith(Render(NewLines(lines, mapping), LF, true), CRLF)
  {
    hide NewLine, Occurrences, ValidMapping, Appended, Join;
    assert mapping[..|mapping|] == mapping;
    AppendedChars(lines, mapping, |mapping|);
    var now := NewLines(lines, mapping);
    var last := now[|now| - 1];
    assert PlainLine(last) by {
      assert last == Appended(lines, mapping)[|Appended(lines, mapping)| - 1];
    }
    JoinEnd(now, LF);
    var body := Join(now, LF);
    assert body[|body| - |last|..] == last;
    assert body[|body| - 1] == last[|last| - 1] != '\r';
    var t := body + LF;
    assert t[|t| - 2..][0] == body[|body| - 1];
  }

  /* When the two updates compose. */

  // The second mapping is empty, or its one value sits on the head before a comment.
  ghost predicate FoldsIn(head: string, second: seq<Setting>) {
    second == [] || (|second| == 1 && Assigns(head, second[0].key) && BeforeComment(head, second[0].key))
  }

  lemma BothOkIff(text: Option<string>, first: seq<Setting>, second: seq<Setting>)
    requires Update(text, first).Ok?
    ensures Update(text, first + second).Ok? <==>
            forall k :: 0 <= k < |second| ==> Count(LayoutOf(text).lines, second[k].key) <= 1
  {
    hide LayoutOf, Duplicates, Render;
    var lines := LayoutOf(text).lines;
    NoDuplicatesIff(lines, first + second);
    NoDuplicatesIff(lines, first);
    BothParts(lines, first, second);
  }

  lemma OneKeyAtMost(line: string, mapping: seq<Setting>)
    requires ValidMapping(mapping) && AssignsAll(line, mapping)
    ensures |mapping| <= 1
  {
    if |mapping| > 1 {
      AtMostOneKey(line, mapping[0].key, mapping[1].key);
    }
  }

  // The text after the first update: head, turned newline, and a tail without second keys.
  lemma AfterFirst(text: Option<string>, first: seq<Setting>, second: seq<Setting>)
    requires ValidMapping(first + second) && TurnsCRLF(text, first) && Update(text, first).Ok?
    ensures var lines, now := LayoutOf(text).lines, Update(text, first).value.0;
      var kept, tail := Kept(lines, first), Join(Appended(lines, first), LF) + LF;
      && kept != [] && EndsInCR(kept[|kept| - 1]) && Unbroken(kept, LF)
      && now == Merged(kept) + CRLF + tail
      && LayoutOf(Some(now)) == Layout([Merged(kept), tail], CRLF, false)
      && AssignsNone(tail, second)
  {
    ValidParts(first, second);
    TurnedLayout(text, first);
    TurnedText(text, first);
    KeptWithCR(text, first);
    forall k | 0 <= k < |second| {
      TailAssignsNone(LayoutOf(text).lines, first, second[k].key);
    }
  }

  lemma StillCounted(lines: seq<string>, first: seq<Setting>, key: string)
    requires ValidMapping(first) && ValidKey(key)
    requires var kept := Kept(lines, first);
      kept != [] && EndsInCR(kept[|kept| - 1]) && Unbroken(kept, LF) && Assigns(Merged(kept), key)
    ensures Count(Kept(lines, first), key) == Count(lines, key) > 0
  {
    hide MatchKey, Contains, NewLine, ValidMapping, ValidKey, Merged;
    var kept := Kept(lines, first);
    MergedAssigns(kept, key);
    OccurrencesAre(kept, key);
    CountKept(lines, first, key);
  }

  lemma SameTextIff(y: string, x: string, tail: string)
    ensures y + LF + tail == x + CRLF + tail <==> y == x + "\r"
  {
    assert x + CRLF + tail == (x + "\r") + LF + tail;
    assert y + LF + tail == y + (LF + tail) && (x + "\r") + LF + tail == (x + "\r") + (LF + tail);
    SameEnd(y, x + "\r", LF + tail);
  }

  // What stands above the newline that turns: the edited lines of the text, run together.
  function TurnedHead(text: Option<string>, mapping: seq<Setting>): string {
    var kept := Kept(LayoutOf(text).lines, mapping);
    if kept != [] && EndsInCR(kept[|kept| - 1]) then Merged(kept) else ""
  }

  lemma TurnedComposesIff(text: Option<string>, first: seq<Setting>, second: seq<Setting>)
    requires ValidMapping(first + second) && TurnsCRLF(text, first) && Update(text, first).Ok?
    ensures Composes(text, first, second) <==> FoldsIn(TurnedHead(text, first), second)
  {
    hide LayoutOf, Update, TurnsCRLF, Kept, Appended, Join, EndsWith, MatchKey, Merged, ValidMapping, BeforeComment;
    var lines, now := LayoutOf(text).lines, Update(text, first).value.0;
    var kept, tail := Kept(lines, first), Join(Appended(lines, first), LF) + LF;
    AfterFirst(text, first, second);
    var head := Merged(kept);
    TwoLineUpdate(now, head, tail, second);
    if second == [] {
      NothingMore(text, first, second);
    } else if !AssignsAll(head, second) {
      if Update(text, first + second).Ok? {
        TogetherText(text, first, second);
      }
    } else {
      ValidParts(first, second);
      OneKeyAtMost(head, second);
      assert second == [second[0]];
      TurnedOneIff(text, first, second[0]);
    }
  }

  lemma NothingMore(text: Option<string>, first: seq<Setting>, second: seq<Setting>)
    requires ValidMapping(first + second) && TurnsCRLF(text, first) && Update(text, first).Ok? && second == []
    ensures Composes(text, first, second)
  {
    hide LayoutOf, Update, TurnsCRLF, Kept, Appended, Join, Merged, ValidMapping;
    AfterFirst(text, first, second);
    var lines := LayoutOf(text).lines;
    var head, tail := Merged(Kept(lines, first)), Join(Appended(lines, first), LF) + LF;
    TwoLineUpdate(Update(text, first).value.0, head, tail, second);
    LineUntouched(head, second);
    assert first + second == first;
  }

  lemma TurnedOneIff(text: Option<string>, first: seq<Setting>, s: Setting)
    requires ValidMapping(first + [s]) && TurnsCRLF(text, first) && Update(text, first).Ok?
    requires var kept := Kept(LayoutOf(text).lines, first);
      kept != [] && EndsInCR(kept[|kept| - 1]) && Assigns(Merged(kept), s.key)
    ensures Composes(text, first, [s]) <==> BeforeComment(Merged(Kept(LayoutOf(text).lines, first)), s.key)
  {
    hide LayoutOf, Update, TurnsCRLF, Kept, Appended, Join, MatchKey, Merged, BeforeComment, Occurrences, NewLine;
    var lines, now := LayoutOf(text).lines, Update(text, first).value.0;
    var kept, tail := Kept(lines, first), Join(Appended(lines, first), LF) + LF;
    var head := Merged(kept);
    ValidParts(first, [s]);
    assert ValidKey([s][0].key);
    AfterFirst(text, first, [s]);
    TwoLineUpdate(now, head, tail, [s]);
    StillCounted(lines, first, s.key);
    OneValueIff(kept, s);
    BothOkIff(text, first, [s]);
    SameTextIff(Join(Kept(kept, [s]), LF), NewLine(head, [s]), tail);
    if Update(text, first + [s]).Ok? {
      TogetherText(text, first, [s]);
    }
  }

  lemma FirstFails(text: Option<string>, first: seq<Setting>, second: seq<Setting>)
    requires Update(text, first).Err?
    ensures Composes(text, first, second)
  {
    hide LayoutOf, Duplicates, Render;
    var lines := LayoutOf(text).lines;
    NoDuplicatesIff(lines, first + second);
    NoDuplicatesIff(lines, first);
    BothParts(lines, first, second);
  }

  // Two updates with disjoint keys, one after the other, do what one update with both
  // mappings does, exactly if the first fails, or keeps the newline style, or the second has
  // nothing to do beyond replacing one value before a comment on the head.
  lemma DisjointUpdatesComposeIff(text: Option<string>, first: seq<Setting>, second: seq<Setting>)
    requires ValidMapping(first + second) && first != []
    ensures Composes(text, first, second) <==>
            || Update(text, first).Err?
            || !TurnsCRLF(text, first)
            || FoldsIn(TurnedHead(text, first), second)
  {
    hide LayoutOf, Update, TurnsCRLF, ValidMapping, FoldsIn, TurnedHead;
    ValidParts(first, second);
    if Update(text, first).Err? {
      FirstFails(text, first, second);
    } else if !TurnsCRLF(text, first) {
      DisjointUpdatesCompose(text, first, second);
    } else {
      TurnedComposesIff(text, first, second);
    }
  }

  /* Inputs of both kinds. */

  lemma OneLineText(line: string)
    requires line != "" && '\n' !in line
    ensures LayoutOf(Some(line)) == Layout([line], LF, false) && !Contains(line, CRLF)
  {
    NoLFAnywhere(line);
    NoCRLFAnywhere(line);
    SplitOne(line, LF);
    assert !EndsWith(line, LF);
  }

  // A line assigning one key with nothing before it.
  lemma OneAssignment(key: string, rest: string, other: string)
    requires ValidKey(key) && ValidKey(other) && other != key && '\n' !in rest
    ensures MatchKey(key + "=" + rest, key) == Some(Match("", rest)) && !Assigns(key + "=" + rest, other)
  {
    hide ValidKey, MatchKey;
    var line := key + "=" + rest;
    assert IsPrefix("") by {
      assert AllSpace("");
    }
    assert line == "" + key + "=" + rest;
    MatchesComputed(line, key, Match("", rest));
    if Assigns(line, other) {
      AtMostOneKey(line, key, other);
    }
  }

  lemma OneCRLines(line: string, s: Setting)
    requires !Assigns(line, s.key)
    ensures Kept([line], [s]) == [line] && Appended([line], [s]) == [Assignment(s.key, s.value)]
    ensures Count([line], s.key) == 0
  {
    hide MatchKey, NewLine, Assignment;
    OneSetting(line, s);
    CountSnoc([], line, s.key);
    assert [] + [line] == [line] && [] + [s] == [s];
    AppendedStep([line], [], s);
  }

  lemma OneCRTurns(line: string, s: Setting)
    requires EndsInCR(line) && '\n' !in line && !Assigns(line, s.key)
    ensures TurnsCRLF(Some(line), [s]) && Update(Some(line), [s]).Ok?
  {
    hide MatchKey, NewLine, LayoutOf, Contains, Update;
    OneLineText(line);
    OneCRLines(line, s);
    UpdateFailsIff(Some(line), [s]);
    assert Count(LayoutOf(Some(line)).lines, [s][0].key) == 0;
  }

  // A text whose one line ends in a carriage return, before an update that appends a key.
  lemma OneCRLine(line: string, s: Setting)
    requires ValidMapping([s]) && EndsInCR(line) && '\n' !in line && !Assigns(line, s.key)
    ensures TurnsCRLF(Some(line), [s]) && Update(Some(line), [s]).Ok?
    ensures Update(Some(line), [s]).value.0 == line + LF + (Assignment(s.key, s.value) + LF)
    ensures TurnedHead(Some(line), [s]) == line[..|line| - 1]
  {
    hide MatchKey, ValidMapping, NewLine, LayoutOf, Contains, Update, TurnsCRLF, Appended, Kept, Assignment;
    OneLineText(line);
    OneCRLines(line, s);
    OneCRTurns(line, s);
    TurnedText(Some(line), [s]);
    assert Merged([line]) == line[..|line| - 1];
    assert line == line[..|line| - 1] + "\r";
  }

  // "A=1\r": appending B turns the newline, so the update is not idempotent, and C cannot
  // be added afterwards as it would have been together with B.
  lemma FinalCRExample()
    ensures var text, first, second := Some("A=1\r"), [Setting("B", "2")], [Setting("C", "3")];
      && ValidMapping(first + second)
      && Update(text, first).Ok? && Update(text, first).value.0 == "A=1\r\nB=2\n"
      && TurnsCRLF(text, first)
      && Update(Some("A=1\r\nB=2\n"), first) != Ok(("A=1\r\nB=2\n", []))
      && !Composes(text, first, second)
  {
    hide MatchKey, LayoutOf, Update, TurnsCRLF, Composes, TurnedHead;
    var first, second := [Setting("B", "2")], [Setting("C", "3")];
    OneAssignment("A", "1\r", "B");
    assert "A" + "=" + "1\r" == "A=1\r";
    OneCRLine("A=1\r", first[0]);
    assert "A=1\r" + LF + ("B" + "=" + "2" + LF) == "A=1\r\nB=2\n";
    IdempotentIff(Some("A=1\r"), first);
    DisjointUpdatesComposeIff(Some("A=1\r"), first, second);
    OneAssignment("A", "1", "C");
    assert "A" + "=" + "1" == "A=1" == "A=1\r"[..3];
  }

  // "C=1#x\r": here C may be set afterwards, its value standing before the comment.
  lemma FoldedExample()
    ensures var text, first, second := Some("C=1#x\r"), [Setting("B", "2")], [Setting("C", "9")];
      && ValidMapping(first + second)
      && TurnsCRLF(text, first)
      && Composes(text, first, second)
  {
    hide MatchKey, LayoutOf, Update, TurnsCRLF, Composes, TurnedHead;
    var first, second := [Setting("B", "2")], [Setting("C", "9")];
    OneAssignment("C", "1#x\r", "B");
    assert "C" + "=" + "1#x\r" == "C=1#x\r";
    OneCRLine("C=1#x\r", first[0]);
    DisjointUpdatesComposeIff(Some("C=1#x\r"), first, second);
    OneAssignment("C", "1#x", "B");
    assert "C" + "=" + "1#x" == "C=1#x" == "C=1#x\r"[..5];
    assert CommentStart("1#x", 0, false, false) == 1;
  }
}
