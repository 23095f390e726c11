// Updating a text that another mapping has already updated: exactly when the first update
// does not show.
module DotenvOverlap {
  import opened Wrappers
  import opened Lines
  import opened DotenvLine
  import opened Dotenv
  import opened DotenvSpec
  import opened DotenvText
  import opened DotenvSequence

  /* The keys an update appends, in order. */

  function MissingKeys(lines: seq<string>, mapping: seq<Setting>): seq<string> {
    if mapping == [] then []
    else
      var last := mapping[|mapping| - 1];
      MissingKeys(lines, mapping[..|mapping| - 1]) + if Count(lines, last.key) == 0 then [last.key] else []
  }

  lemma {:induction false} MissingAre(lines: seq<string>, mapping: seq<Setting>)
    ensures forall key :: key in MissingKeys(lines, mapping) <==> Maps(mapping, key) && Count(lines, key) == 0
  {
    hide Count;
    if mapping != [] {
      MissingAre(lines, mapping[..|mapping| - 1]);
      forall key {
        MapsSnoc(mapping, key);
      }
    }
  }

  lemma {:induction false} MissingDiffer(lines: seq<string>, mapping: seq<Setting>)
    requires ValidMapping(mapping)
    ensures forall i, j :: 0 <= i < j < |MissingKeys(lines, mapping)| ==>
        MissingKeys(lines, mapping)[i] != MissingKeys(lines, mapping)[j]
  {
    hide Count, Maps;
    if mapping != [] {
      MapsOnce(mapping);
      MissingDiffer(lines, mapping[..|mapping| - 1]);
      MissingAre(lines, mapping[..|mapping| - 1]);
    }
  }

  // What is appended assigns those keys, each its value.
  lemma {:induction false} AppendedKeys(lines: seq<string>, mapping: seq<Setting>, i: nat) returns (k: nat)
    requires i < |Appended(lines, mapping)|
    ensures |MissingKeys(lines, mapping)| == |Appended(lines, mapping)| && k < |mapping|
    ensures MissingKeys(lines, mapping)[i] == mapping[k].key
    ensures Appended(lines, mapping)[i] == Assignment(mapping[k].key, mapping[k].value)
  {
    hide Count, Assignment;
    var last := |mapping| - 1;
    AppendedLast(lines, mapping);
    SameLength(lines, mapping[..last]);
    SameLength(lines, mapping);
    if i < |Appended(lines, mapping[..last])| {
      k := AppendedKeys(lines, mapping[..last], i);
      assert mapping[..last][k] == mapping[k];
    } else {
      k := last;
    }
  }

  lemma {:induction false} SameLength(lines: seq<string>, mapping: seq<Setting>)
    ensures |MissingKeys(lines, mapping)| == |Appended(lines, mapping)|
  {
    hide Count, Assignment;
    if mapping != [] {
      SameLength(lines, mapping[..|mapping| - 1]);
      AppendedLast(lines, mapping);
    }
  }

  /* One line. */

  // The line, if it assigns the key, reads and looks as the setting wants it.
  ghost predicate InForm(line: string, s: Setting) {
    Assigns(line, s.key) ==> Rewrite(MatchKey(line, s.key).value, s.key, s.value) == line
  }

  lemma RewriteTwice(line: string, key: string, value: string, other: string)
    requires ValidKey(key) && PlainValue(value) && Assigns(line, key)
    ensures var now := Rewrite(MatchKey(line, key).value, key, value);
      && Assigns(now, key)
      && Rewrite(MatchKey(now, key).value, key, other) == Rewrite(MatchKey(line, key).value, key, other)
  {
    hide MatchKey, ValidKey, CommentPart;
    RewriteReadsBack(line, key, value);
  }

  lemma LineHiddenIff(line: string, first: seq<Setting>, second: seq<Setting>)
    requires ValidMapping(first) && ValidMapping(second)
    ensures NewLine(NewLine(line, first), second) == NewLine(line, second) <==>
            forall k :: 0 <= k < |first| && !Maps(second, first[k].key) ==> InForm(line, first[k])
  {
    hide NewLine, MatchKey, Rewrite, ValidKey, PlainValue;
    if k :| 0 <= k < |first| && Assigns(line, first[k].key) {
      LineOfKey(line, first, k);
      forall i | 0 <= i < |first| && Assigns(line, first[i].key) ensures i == k {
        AtMostOneKey(line, first[i].key, first[k].key);
      }
      if Maps(second, first[k].key) {
        BothMap(line, first, second, k);
      } else {
        OnlyFirst(line, first, second, k);
      }
    } else {
      LineUntouched(line, first);
    }
  }

  lemma BothMap(line: string, first: seq<Setting>, second: seq<Setting>, k: nat)
    requires ValidMapping(first) && ValidMapping(second) && k < |first| && Assigns(line, first[k].key)
    requires Maps(second, first[k].key)
    ensures NewLine(NewLine(line, first), second) == NewLine(line, second)
  {
    hide NewLine, MatchKey, Rewrite, ValidKey, PlainValue;
    var j :| 0 <= j < |second| && second[j].key == first[k].key;
    LineOfKey(line, first, k);
    RewriteTwice(line, first[k].key, first[k].value, second[j].value);
    LineOfKey(line, second, j);
    LineOfKey(NewLine(line, first), second, j);
  }

  lemma OnlyFirst(line: string, first: seq<Setting>, second: seq<Setting>, k: nat)
    requires ValidMapping(first) && ValidMapping(second) && k < |first| && Assigns(line, first[k].key)
    requires !Maps(second, first[k].key)
    ensures NewLine(NewLine(line, first), second) == NewLine(line, first) && NewLine(line, second) == line
  {
    hide NewLine, MatchKey, Rewrite, ValidKey, PlainValue;
    EditedLine(line, first, first[k].key);
    forall j | 0 <= j < |second|
      ensures !Assigns(line, second[j].key) && !Assigns(NewLine(line, first), second[j].key)
    {
      if Assigns(line, second[j].key) {
        AtMostOneKey(line, second[j].key, first[k].key);
      }
      if Assigns(NewLine(line, first), second[j].key) {
        AtMostOneKey(NewLine(line, first), second[j].key, first[k].key);
      }
    }
    LineUntouched(line, second);
    LineUntouched(NewLine(line, first), second);
  }

  /* All lines. */

  ghost predicate InPlace(lines: seq<string>, s: Setting) {
    forall i :: 0 <= i < |lines| ==> InForm(lines[i], s)
  }

  lemma KeptHiddenIff(lines: seq<string>, first: seq<Setting>, second: seq<Setting>)
    requires ValidMapping(first) && ValidMapping(second)
    ensures Kept(Kept(lines, first), second) == Kept(lines, second) <==>
            forall k :: 0 <= k < |first| && !Maps(second, first[k].key) ==> InPlace(lines, first[k])
  {
    hide NewLine, InForm, ValidMapping, Maps;
    forall i | 0 <= i < |lines|
      ensures NewLine(NewLine(lines[i], first), second) == NewLine(lines[i], second) <==>
              forall k :: 0 <= k < |first| && !Maps(second, first[k].key) ==> InForm(lines[i], first[k])
    {
      LineHiddenIff(lines[i], first, second);
    }
    var twice, once := Kept(Kept(lines, first), second), Kept(lines, second);
    if twice == once {
      forall k, i | 0 <= k < |first| && !Maps(second, first[k].key) && 0 <= i < |lines|
        ensures InForm(lines[i], first[k])
      {
        assert twice[i] == once[i];
      }
    }
    if forall k :: 0 <= k < |first| && !Maps(second, first[k].key) ==> InPlace(lines, first[k]) {
      forall i | 0 <= i < |lines| ensures twice[i] == once[i] {
        assert forall k :: 0 <= k < |first| && !Maps(second, first[k].key) ==> InForm(lines[i], first[k]);
      }
    }
  }

  lemma RewriteAssignment(key: string, value: string, other: string)
    requires PlainValue(value)
    ensures Rewrite(Match("", value), key, other) == Assignment(key, other)
  {
    hide Suffix, PlainValue;
    NoSuffix(value);
    assert "" + key + "=" + other + "" == key + "=" + other;
  }

  // An appended line of the first update, after the second.
  lemma AppendedAgain(s: Setting, second: seq<Setting>)
    requires ValidKey(s.key) && PlainValue(s.value) && ValidMapping(second)
    ensures Assigns(NewLine(Assignment(s.key, s.value), second), s.key)
    ensures forall j :: 0 <= j < |second| && second[j].key == s.key ==>
        NewLine(Assignment(s.key, s.value), second) == Assignment(s.key, second[j].value)
  {
    hide MatchKey, NewLine, ValidKey, PlainValue, Rewrite, Assignment, ValidMapping;
    var l := Assignment(s.key, s.value);
    AppendedReadsBack(s.key, s.value);
    EditedLine(l, second, s.key);
    forall j | 0 <= j < |second| && second[j].key == s.key
      ensures NewLine(l, second) == Assignment(s.key, second[j].value)
    {
      LineOfKey(l, second, j);
      RewriteAssignment(s.key, s.value, second[j].value);
    }
  }

  lemma NoSuffix(value: string)
    requires PlainValue(value)
    ensures Suffix(value) == ""
  {
    SkipPlain(value, 0, |value|);
  }

  // With the first keys of the second mapping's missing ones appended already, the second
  // update appends the others.
  lemma {:induction false} RestAppended(lines: seq<string>, first: seq<Setting>, second: seq<Setting>, n: nat)
    requires ValidMapping(first) && ValidMapping(second) && n <= |second|
    requires MissingKeys(lines, first) <= MissingKeys(lines, second)
    ensures MissingKeys(lines, second[..n]) <= MissingKeys(lines, second)
    ensures var done, m := Appended(lines, second[..n]), |MissingKeys(lines, first)|;
      Appended(NewLines(lines, first), second[..n]) == done[if m <= |done| then m else |done|..]
  {
    hide Count, Assignment, NewLines, ValidMapping, ValidKey, Occurrences;
    MissingPrefix(lines, second, n);
    if n > 0 {
      var init := second[..n - 1];
      assert second[..n][..n - 1] == init && second[..n][n - 1] == second[n - 1];
      RestAppended(lines, first, second, n - 1);
      AppendedLast(lines, second[..n]);
      AppendedLast(NewLines(lines, first), second[..n]);
      SameLength(lines, init);
      StillMissingIff(lines, first, second, n - 1);
    }
  }

  lemma {:induction false} MissingPrefix(lines: seq<string>, mapping: seq<Setting>, n: nat)
    requires n <= |mapping|
    ensures MissingKeys(lines, mapping[..n]) <= MissingKeys(lines, mapping)
    decreases |mapping| - n
  {
    hide Count;
    if n == |mapping| {
      assert mapping[..n] == mapping;
    } else {
      assert mapping[..n + 1][..n] == mapping[..n];
      MissingPrefix(lines, mapping, n + 1);
    }
  }

  // A key is missing after the first update exactly if it stands behind the first's own.
  lemma StillMissingIff(lines: seq<string>, first: seq<Setting>, second: seq<Setting>, n: nat)
    requires ValidMapping(first) && ValidMapping(second) && n < |second|
    requires MissingKeys(lines, first) <= MissingKeys(lines, second)
    ensures Count(NewLines(lines, first), second[n].key) == 0 <==>
            Count(lines, second[n].key) == 0 && |MissingKeys(lines, first)| <= |MissingKeys(lines, second[..n])|
  {
    hide Count, NewLines, Maps, ValidKey;
    var key, i := second[n].key, |MissingKeys(lines, second[..n])|;
    CountAfter(lines, first, key);
    MissingAre(lines, first);
    if Count(lines, key) == 0 {
      assert second[..n + 1][..n] == second[..n] && second[..n + 1][n] == second[n];
      assert MissingKeys(lines, second[..n + 1]) == MissingKeys(lines, second[..n]) + [key];
      MissingPrefix(lines, second, n + 1);
      assert MissingKeys(lines, second)[i] == key;
      MissingDiffer(lines, second);
      PrefixMember(MissingKeys(lines, first), MissingKeys(lines, second), i);
    }
  }

  lemma PrefixMember(p: seq<string>, all: seq<string>, i: nat)
    requires p <= all && i < |all| && forall j, k :: 0 <= j < k < |all| ==> all[j] != all[k]
    ensures all[i] in p <==> i < |p|
  {
    if i < |p| {
      assert p[i] == all[i];
    }
    if all[i] in p {
      var j :| 0 <= j < |p| && p[j] == all[i];
      assert all[j] == p[j];
    }
  }

  lemma AppendedAlikeIff(lines: seq<string>, first: seq<Setting>, second: seq<Setting>)
    requires ValidMapping(first) && ValidMapping(second)
    ensures Kept(Appended(lines, first), second) + Appended(NewLines(lines, first), second) == Appended(lines, second)
            <==> MissingKeys(lines, first) <= MissingKeys(lines, second)
  {
    hide NewLine, Appended, Count, ValidKey, PlainValue, NewLines, Assignment, MatchKey;
    var a, b, all := Appended(lines, first), Appended(NewLines(lines, first), second), Appended(lines, second);
    SameLength(lines, first);
    SameLength(lines, second);
    if Kept(a, second) + b == all {
      forall i | 0 <= i < |a| ensures MissingKeys(lines, first)[i] == MissingKeys(lines, second)[i] {
        assert (Kept(a, second) + b)[i] == NewLine(a[i], second) == all[i];
        SameKeyAt(lines, first, second, i);
      }
    }
    if MissingKeys(lines, first) <= MissingKeys(lines, second) {
      assert second[..|second|] == second;
      RestAppended(lines, first, second, |second|);
      forall i | 0 <= i < |a| ensures NewLine(a[i], second) == all[i] {
        SameLineAt(lines, first, second, i);
      }
      assert Kept(a, second) == all[..|a|];
      assert all == all[..|a|] + all[|a|..];
    }
  }

  lemma SameKeyAt(lines: seq<string>, first: seq<Setting>, second: seq<Setting>, i: nat)
    requires ValidMapping(first) && ValidMapping(second)
    requires i < |Appended(lines, first)| && i < |Appended(lines, second)|
    requires NewLine(Appended(lines, first)[i], second) == Appended(lines, second)[i]
    ensures i < |MissingKeys(lines, first)| && i < |MissingKeys(lines, second)|
    ensures MissingKeys(lines, first)[i] == MissingKeys(lines, second)[i]
  {
    hide NewLine, Appended, Count, ValidKey, PlainValue, Assignment, MatchKey;
    var k := AppendedKeys(lines, first, i);
    var j := AppendedKeys(lines, second, i);
    AppendedAgain(first[k], second);
    AppendedReadsBack(second[j].key, second[j].value);
    AtMostOneKey(Appended(lines, second)[i], first[k].key, second[j].key);
  }

  lemma SameLineAt(lines: seq<string>, first: seq<Setting>, second: seq<Setting>, i: nat)
    requires ValidMapping(first) && ValidMapping(second)
    requires i < |Appended(lines, first)| && MissingKeys(lines, first) <= MissingKeys(lines, second)
    ensures i < |Appended(lines, second)|
    ensures NewLine(Appended(lines, first)[i], second) == Appended(lines, second)[i]
  {
    hide NewLine, Appended, Count, ValidKey, PlainValue, Assignment, MatchKey;
    SameLength(lines, first);
    SameLength(lines, second);
    var k := AppendedKeys(lines, first, i);
    var j := AppendedKeys(lines, second, i);
    assert first[k].key == second[j].key;
    AppendedAgain(first[k], second);
  }

  // Nothing of the first mapping shows behind the second: what the second does not name
  // stands in the lines as the first wants it, and the keys the first appends are the first
  // ones the second does.
  ghost predicate Hidden(lines: seq<string>, first: seq<Setting>, second: seq<Setting>) {
    && (forall k :: 0 <= k < |first| && !Maps(second, first[k].key) ==> InPlace(lines, first[k]))
    && MissingKeys(lines, first) <= MissingKeys(lines, second)
  }

  lemma LinesHiddenIff(lines: seq<string>, first: seq<Setting>, second: seq<Setting>)
    requires ValidMapping(first) && ValidMapping(second)
    ensures NewLines(NewLines(lines, first), second) == NewLines(lines, second) <==> Hidden(lines, first, second)
  {
    hide NewLine, Appended, Count, ValidMapping, InPlace, MissingKeys;
    var kept, added := Kept(lines, first), Appended(lines, first);
    KeptConcat(kept, added, second);
    KeptHiddenIff(lines, first, second);
    AppendedAlikeIff(lines, first, second);
    TwoParts(Kept(kept, second), Kept(added, second) + Appended(NewLines(lines, first), second),
             Kept(lines, second), Appended(lines, second));
    Regroup(Kept(kept, second), Kept(added, second), Appended(NewLines(lines, first), second));
  }

  lemma TwoParts<T>(a: seq<T>, b: seq<T>, c: seq<T>, d: seq<T>)
    requires |a| == |c|
    ensures a + b == c + d <==> a == c && b == d
  {
    if a + b == c + d {
      assert a == (a + b)[..|a|] && c == (c + d)[..|a|];
      assert b == (a + b)[|a|..] && d == (c + d)[|a|..];
    }
  }

  /* Whole texts. */

  lemma CommentStays(line: string, mapping: seq<Setting>, key: string)
    requires ValidMapping(mapping) && ValidKey(key) && Assigns(line, key)
    ensures Assigns(NewLine(line, mapping), key)
    ensures CommentPart(MatchKey(NewLine(line, mapping), key).value.rest) == CommentPart(MatchKey(line, key).value.rest)
  {
    hide MatchKey, NewLine, CommentPart, ValidKey, Rewrite;
    EditedLine(line, mapping, key);
    if k :| 0 <= k < |mapping| && Assigns(line, mapping[k].key) {
      AtMostOneKey(line, key, mapping[k].key);
      EditedAssignment(line, mapping, k);
    } else {
      LineUntouched(line, mapping);
    }
  }

  lemma FinalCRBefore(line: string, first: seq<Setting>, second: seq<Setting>)
    requires ValidMapping(first) && ValidMapping(second) && !Contains(line, LF)
    requires KeepsFinalCR(NewLine(line, first), second)
    ensures KeepsFinalCR(line, second)
  {
    hide MatchKey, NewLine, CommentPart, ValidKey, PlainValue, EndsInCR, Contains;
    EditedLineChars(line, first, LF);
    forall k | 0 <= k < |second| && Assigns(line, second[k].key)
      ensures CommentPart(MatchKey(line, second[k].key).value.rest) != ""
    {
      CommentStays(line, first, second[k].key);
    }
  }

  lemma LastIsPlain(lines: seq<string>, mapping: seq<Setting>)
    requires ValidMapping(mapping) && Appended(lines, mapping) != []
    ensures var now := NewLines(lines, mapping); !EndsInCR(now[|now| - 1])
  {
    hide Appended, NewLine, ValidMapping;
    assert mapping[..|mapping|] == mapping;
    AppendedChars(lines, mapping, |mapping|);
    var now, added := NewLines(lines, mapping), Appended(lines, mapping);
    assert now[|now| - 1] == added[|added| - 1];
    PlainLineUnbroken(added[|added| - 1], LF);
  }

  // The last line of an updated text keeps a final carriage return only if the line of the
  // original would have.
  lemma LastLineBefore(lines: seq<string>, first: seq<Setting>, second: seq<Setting>)
    requires ValidMapping(first) && ValidMapping(second) && Unbroken(lines, LF) && NewLines(lines, first) != []
    requires KeepsFinalCR(NewLines(lines, first)[|NewLines(lines, first)| - 1], second)
    ensures lines != [] && KeepsFinalCR(lines[|lines| - 1], second)
  {
    hide Appended, NewLine, ValidMapping, KeepsFinalCR, Contains;
    CarriageReturn(NewLines(lines, first)[|NewLines(lines, first)| - 1], second);
    if Appended(lines, first) != [] {
      LastIsPlain(lines, first);
    }
    assert NewLines(lines, first) == Kept(lines, first);
    FinalCRBefore(lines[|lines| - 1], first, second);
  }

  lemma CarriageReturn(line: string, mapping: seq<Setting>)
    ensures KeepsFinalCR(line, mapping) ==> EndsInCR(line)
  {
  }

  // An update that would keep the newlines of a text keeps them behind another that does.
  lemma StillKeeps(text: Option<string>, first: seq<Setting>, second: seq<Setting>)
    requires ValidMapping(first) && ValidMapping(second) && first != []
    requires Update(text, first).Ok? && !TurnsCRLF(text, first) && !TurnsCRLF(text, second)
    ensures LayoutOf(Some(Update(text, first).value.0)) == EditedLayout(LayoutOf(text), first)
    ensures !TurnsCRLF(Some(Update(text, first).value.0), second)
  {
    hide LayoutOf, Contains, Update, NewLines, Occurrences, KeepsFinalCR, ValidMapping, Split;
    var l, now := LayoutOf(text), Update(text, first).value.0;
    SomeLines(l.lines, first);
    EditReadsBack(text, first);
    if TurnsCRLF(Some(now), second) {
      PlainNewline(now);
      LinesUnbroken(text);
      LastLineBefore(l.lines, first, second);
      NoCRLFText(text);
      var k :| 0 <= k < |second| && Count(NewLines(l.lines, first), second[k].key) == 0;
      ValidAt(second, k);
      CountAfter(l.lines, first, second[k].key);
      LinesOfSome(text);
      assert false;
    }
  }

  lemma ValidAt(mapping: seq<Setting>, k: nat)
    requires ValidMapping(mapping) && k < |mapping|
    ensures ValidKey(mapping[k].key)
  {
  }

  lemma PlainNewline(text: string)
    ensures !Contains(text, CRLF) ==> LayoutOf(Some(text)).newline == LF
  {
  }

  lemma LinesOfSome(text: Option<string>)
    ensures LayoutOf(text).lines != [] ==> text.Some?
  {
  }

  lemma LinesUnbroken(text: Option<string>)
    ensures Unbroken(LayoutOf(text).lines, LayoutOf(text).newline)
  {
    hide Contains, Split, Join;
    if LayoutOf(text).lines != [] {
      ReadLayoutSound(text.value);
    }
  }

  lemma SecondWorks(text: Option<string>, first: seq<Setting>, second: seq<Setting>, now: Option<string>)
    requires ValidMapping(first) && ValidMapping(second) && Update(text, second).Ok?
    requires LayoutOf(now).lines == NewLines(LayoutOf(text).lines, first)
    ensures Update(now, second).Ok?
  {
    hide LayoutOf, Update, NewLines, Occurrences;
    var lines := LayoutOf(text).lines;
    UpdateFailsIff(text, second);
    UpdateFailsIff(now, second);
    forall k | 0 <= k < |second| ensures Count(NewLines(lines, first), second[k].key) <= 1 {
      CountAfter(lines, first, second[k].key);
    }
  }

  lemma PrintsDiffer(a: Layout, b: Layout)
    requires Sound(a) && Sound(b)
    ensures Print(a) == Print(b) <==> a == b
  {
    hide Sound, Print, LayoutOf;
    ParsePrint(a);
    ParsePrint(b);
  }

  lemma UpdatedText(text: Option<string>, mapping: seq<Setting>)
    requires Update(text, mapping).Ok?
    ensures Update(text, mapping).value.0 == Print(EditedLayout(LayoutOf(text), mapping))
  {
    hide LayoutOf, Duplicates, Changes, NewLines, Appended;
  }

  lemma EditedTwiceIff(l: Layout, first: seq<Setting>, second: seq<Setting>)
    ensures EditedLayout(EditedLayout(l, first), second) == EditedLayout(l, second) <==>
            NewLines(NewLines(l.lines, first), second) == NewLines(l.lines, second)
  {
    hide Appended, NewLine;
    var lines := l.lines;
    assert |NewLines(NewLines(lines, first), second)| ==
           |lines| + |Appended(lines, first)| + |Appended(NewLines(lines, first), second)|;
    assert |NewLines(lines, second)| == |lines| + |Appended(lines, second)|;
  }

  // Updates that keep the newlines: the text of the second is the same with and without the
  // first before it, exactly if nothing of the first shows behind it.
  lemma HiddenIff(text: Option<string>, first: seq<Setting>, second: seq<Setting>)
    requires ValidMapping(first) && ValidMapping(second) && first != [] && second != []
    requires Update(text, first).Ok? && !TurnsCRLF(text, first)
    requires Update(text, second).Ok? && !TurnsCRLF(text, second)
    ensures var now := Some(Update(text, first).value.0);
      && Update(now, second).Ok?
      && (Update(now, second).value.0 == Update(text, second).value.0 <==>
            Hidden(LayoutOf(text).lines, first, second))
  {
    hide LayoutOf, Update, TurnsCRLF, NewLines, Sound, Print, Hidden, Appended;
    var l, now := LayoutOf(text), Some(Update(text, first).value.0);
    StillKeeps(text, first, second);
    SecondWorks(text, first, second, now);
    UpdatedText(now, second);
    UpdatedText(text, second);
    SomeLines(l.lines, second);
    SomeLines(NewLines(l.lines, first), second);
    EditedSound(now, second);
    EditedSound(text, second);
    PrintsDiffer(EditedLayout(LayoutOf(now), second), EditedLayout(l, second));
    EditedTwiceIff(l, first, second);
    LinesHiddenIff(l.lines, first, second);
  }
}
