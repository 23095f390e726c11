// Which variables a reader finds in an updated text, also when its newlines turned.
module DotenvReaders {
  import opened Wrappers
  import opened Lines
  import opened DotenvLine
  import opened Dotenv
  import opened DotenvSpec
  import opened DotenvText
  import DotenvSequence
  import opened DotenvTurned

  // The variable is assigned on exactly one line, and reads back as the value.
  ghost predicate SetIn(lines: seq<string>, key: string, value: string) {
    && Count(lines, key) == 1
    && forall i :: 0 <= i < |lines| && Assigns(lines[i], key) ==> ReadBack(lines[i], key) == Some(value)
  }

  ghost predicate SetTo(text: string, key: string, value: string) {
    SetIn(LayoutOf(Some(text)).lines, key, value)
  }

  lemma EditedText(text: Option<string>, mapping: seq<Setting>, k: nat)
    requires ValidMapping(mapping) && Update(text, mapping).Ok? && !TurnsCRLF(text, mapping)
    requires k < |mapping|
    ensures SetTo(Update(text, mapping).value.0, mapping[k].key, mapping[k].value)
  {
    hide LayoutOf, Update, TurnsCRLF, NewLines, MatchKey;
    DotenvSequence.SomeLines(LayoutOf(text).lines, mapping);
    EditReadsBack(text, mapping);
    UpdateSpec(text, mapping);
  }

  /* The head of a turned text. */

  lemma ValueOfCR(rest: string)
    requires CommentPart(rest + "\r") != ""
    ensures ValuePart(rest + "\r") == ValuePart(rest)
  {
    CommentOfCR(rest, 0, false, false);
  }

  lemma {:induction false} PreSnoc(init: seq<string>, x: string)
    ensures Pre(init + [x]) == Pre(init) + x + LF
  {
    if init != [] {
      assert (init + [x])[1..] == init[1..] + [x];
      PreSnoc(init[1..], x);
      assert init[0] + LF + (Pre(init[1..]) + x + LF) == init[0] + LF + Pre(init[1..]) + x + LF;
    } else {
      assert ([] + [x])[1..] == [];
      assert x + LF + "" == "" + x + LF;
    }
  }

  // Every line that assigns the key reads back as the value.
  ghost predicate AllRead(lines: seq<string>, s: Setting) {
    forall i :: 0 <= i < |lines| && Assigns(lines[i], s.key) ==> ReadBack(lines[i], s.key) == Some(s.value)
  }

  lemma LastLineRead(init: seq<string>, l: string, s: Setting)
    requires ValidKey(s.key) && l != "" && '\n' !in l && NoBreaks(init) && Assigns(Pre(init) + l, s.key)
    requires AllRead([l + "\r"], s)
    requires Assigns(l + "\r", s.key) ==> CommentPart(MatchKey(l + "\r", s.key).value.rest) != ""
    ensures ReadBack(Pre(init) + l, s.key) == Some(s.value)
  {
    hide MatchKey, ValidKey, ValuePart, CommentPart, Pre;
    ThroughLast(init, l, s.key);
    MatchOfCR(l, s.key);
    assert Assigns([l + "\r"][0], s.key);
    ValueOfCR(MatchKey(l, s.key).value.rest);
  }

  lemma BlankLineRead(init: seq<string>, s: Setting)
    requires ValidKey(s.key) && NoBreaks(init) && Assigns(Pre(init), s.key) && AllRead(init, s)
    ensures ReadBack(Pre(init), s.key) == Some(s.value)
  {
    hide MatchKey, ValidKey, ValuePart, Pre;
    NothingBefore("");
    if init == [] {
      AssignmentHasSign("", s.key);
    }
    var before, x := init[..|init| - 1], init[|init| - 1];
    assert init == before + [x];
    PreSnoc(before, x);
    FinalLFMatch(Pre(before) + x, s.key);
    if x == "" {
      assert Pre(before) + "" == Pre(before);
      PreEndsOrEmpty(before);
    }
    ThroughLast(before, x, s.key);
    assert Assigns(init[|init| - 1], s.key);
  }

  lemma PreEndsOrEmpty(init: seq<string>)
    ensures Pre(init) == "" || Pre(init)[|Pre(init)| - 1] == '\n'
  {
    if init != [] {
      PreEnds(init);
    }
  }

  lemma MergedReadsBack(kept: seq<string>, s: Setting)
    requires ValidKey(s.key) && kept != [] && EndsInCR(kept[|kept| - 1]) && Unbroken(kept, LF)
    requires AllRead(kept, s) && Assigns(Merged(kept), s.key)
    requires Assigns(kept[|kept| - 1], s.key) ==> CommentPart(MatchKey(kept[|kept| - 1], s.key).value.rest) != ""
    ensures ReadBack(Merged(kept), s.key) == Some(s.value)
  {
    hide MatchKey, ValidKey, ValuePart, CommentPart, Pre, Join, Contains;
    var init, last := kept[..|kept| - 1], kept[|kept| - 1];
    var l := last[..|last| - 1];
    JoinPre(init, l);
    assert last == l + "\r";
    forall k | 0 <= k < |kept| ensures '\n' !in kept[k] {
      NoLFAnywhere(kept[k]);
    }
    assert NoBreaks(init) && '\n' !in l;
    if l != "" {
      LastLineRead(init, l, s);
    } else {
      assert Pre(init) + "" == Pre(init);
      BlankLineRead(init, s);
    }
  }

  /* Both lines. */

  lemma TwoLineSet(text: string, head: string, tail: string, s: Setting)
    requires LayoutOf(Some(text)).lines == [head, tail]
    ensures SetTo(text, s.key, s.value) <==>
            (Assigns(head, s.key) <==> !Assigns(tail, s.key)) && AllRead([head, tail], s)
  {
    hide MatchKey, LayoutOf;
    CountSnoc([], head, s.key);
    CountSnoc([head], tail, s.key);
    assert [] + [head] == [head] && [head] + [tail] == [head, tail];
  }

  lemma AssignmentLine(s: Setting)
    requires ValidKey(s.key) && PlainValue(s.value)
    ensures ReadBack(Assignment(s.key, s.value) + LF, s.key) == Some(s.value)
  {
    hide MatchKey, ValidKey;
    var l := Assignment(s.key, s.value);
    AppendedReadsBack(s.key, s.value);
    assert IsPrefix("") && l + LF == "" + s.key + "=" + s.value + "\n";
    assert '\n' !in s.value;
    MatchesComputed(l + LF, s.key, Match("", s.value));
  }

  // One key of the mapping is missing, and it is the one at `m`.
  ghost predicate OnlyMissing(lines: seq<string>, mapping: seq<Setting>, m: nat) {
    && m < |mapping|
    && forall k :: 0 <= k < |mapping| ==> (Count(lines, mapping[k].key) == 0 <==> k == m)
  }

  lemma OneAppended(lines: seq<string>, mapping: seq<Setting>, m: nat)
    requires OnlyMissing(lines, mapping, m)
    ensures Appended(lines, mapping) == [Assignment(mapping[m].key, mapping[m].value)]
  {
    hide Count, Appended;
    var order := MissingInOrder(lines, mapping);
    var tail := Appended(lines, mapping);
    assert m in order;
    forall i | 0 <= i < |order| ensures order[i] == m {
      assert AssignsAt(lines, mapping, tail[i], order[i]);
    }
    FirstTwo(order);
  }

  lemma FirstTwo(order: seq<nat>)
    requires Increasing(order)
    ensures |order| > 1 ==> order[0] < order[1]
  {
  }

  // Every value a kept line is to have is there to read.
  lemma KeptRead(lines: seq<string>, mapping: seq<Setting>, k: nat)
    requires ValidMapping(mapping) && k < |mapping|
    ensures AllRead(Kept(lines, mapping), mapping[k])
  {
    hide MatchKey, NewLine, ReadBack, Rewrite, Appended, ValidMapping;
    NewLinesSettled(lines, mapping);
    forall i | 0 <= i < |lines| ensures Settled(Kept(lines, mapping)[i], mapping) {
      assert NewLines(lines, mapping)[i] == Kept(lines, mapping)[i];
    }
  }

  // A final carriage return that survived the edit of an assigning line stands behind a comment.
  lemma LastComment(line: string, mapping: seq<Setting>, k: nat)
    requires ValidMapping(mapping) && k < |mapping| && KeepsFinalCR(line, mapping)
    requires Assigns(NewLine(line, mapping), mapping[k].key)
    ensures CommentPart(MatchKey(NewLine(line, mapping), mapping[k].key).value.rest) != ""
  {
    hide MatchKey, NewLine, CommentPart, Rewrite;
    EditedLine(line, mapping, mapping[k].key);
    EditedAssignment(line, mapping, k);
  }

  // What the head assigns reads back as it should.
  lemma HeadReads(text: Option<string>, mapping: seq<Setting>, k: nat)
    requires ValidMapping(mapping) && TurnsCRLF(text, mapping) && k < |mapping|
    requires var kept := Kept(LayoutOf(text).lines, mapping);
      kept != [] && EndsInCR(kept[|kept| - 1]) && Assigns(Merged(kept), mapping[k].key)
    ensures ReadBack(Merged(Kept(LayoutOf(text).lines, mapping)), mapping[k].key) == Some(mapping[k].value)
  {
    hide MatchKey, NewLine, LayoutOf, Merged, CommentPart, Contains;
    var lines := LayoutOf(text).lines;
    KeptWithCR(text, mapping);
    KeptRead(lines, mapping, k);
    var last := lines[|lines| - 1];
    if Assigns(NewLine(last, mapping), mapping[k].key) {
      LastComment(last, mapping, k);
    }
    MergedReadsBack(Kept(lines, mapping), mapping[k]);
  }

  // The head assigns no missing key, and what it assigns reads back as it should.
  ghost predicate HeadRight(lines: seq<string>, mapping: seq<Setting>, head: string) {
    && (forall k :: 0 <= k < |mapping| && Count(lines, mapping[k].key) == 0 ==> !Assigns(head, mapping[k].key))
    && (forall k :: 0 <= k < |mapping| && Assigns(head, mapping[k].key) ==>
          ReadBack(head, mapping[k].key) == Some(mapping[k].value))
  }

  lemma SomeMissing(text: Option<string>, mapping: seq<Setting>)
    requires TurnsCRLF(text, mapping)
    ensures exists k :: 0 <= k < |mapping| && Count(LayoutOf(text).lines, mapping[k].key) == 0
  {
  }

  lemma HeadIsRight(text: Option<string>, mapping: seq<Setting>)
    requires ValidMapping(mapping) && TurnsCRLF(text, mapping)
    requires var kept := Kept(LayoutOf(text).lines, mapping); kept != [] && EndsInCR(kept[|kept| - 1])
    ensures HeadRight(LayoutOf(text).lines, mapping, Merged(Kept(LayoutOf(text).lines, mapping)))
  {
    hide LayoutOf, Kept, Merged, MatchKey, ValidMapping, Count, TurnsCRLF, ReadBack;
    var lines := LayoutOf(text).lines;
    forall k | 0 <= k < |mapping| && Count(lines, mapping[k].key) == 0
      ensures !Assigns(Merged(Kept(lines, mapping)), mapping[k].key)
    {
      MissingStaysMissing(text, mapping, k);
    }
    forall k | 0 <= k < |mapping| && Assigns(Merged(Kept(lines, mapping)), mapping[k].key)
      ensures ReadBack(Merged(Kept(lines, mapping)), mapping[k].key) == Some(mapping[k].value)
    {
      HeadReads(text, mapping, k);
    }
  }

  lemma TurnedLines(text: Option<string>, mapping: seq<Setting>)
    requires ValidMapping(mapping) && Update(text, mapping).Ok? && TurnsCRLF(text, mapping)
    ensures LayoutOf(Some(Update(text, mapping).value.0)).lines ==
            [TurnedHead(text, mapping), Join(Appended(LayoutOf(text).lines, mapping), LF) + LF]
    ensures HeadRight(LayoutOf(text).lines, mapping, TurnedHead(text, mapping))
    ensures exists k :: 0 <= k < |mapping| && Count(LayoutOf(text).lines, mapping[k].key) == 0
  {
    hide LayoutOf, Update, Kept, Appended, Join, Merged, ValidMapping, Count, Contains, TurnsCRLF, HeadRight;
    TurnedLayout(text, mapping);
    SomeMissing(text, mapping);
    HeadIsRight(text, mapping);
  }

  ghost predicate AllSet(text: string, mapping: seq<Setting>) {
    forall k :: 0 <= k < |mapping| ==> SetTo(text, mapping[k].key, mapping[k].value)
  }

  // One key is missing, and the head assigns every other one.
  ghost predicate OneOnEachSide(lines: seq<string>, mapping: seq<Setting>, head: string) {
    exists m :: OnlyMissing(lines, mapping, m) && AssignsOthers(head, mapping, m)
  }

  ghost predicate AssignsOthers(line: string, mapping: seq<Setting>, m: nat) {
    forall k :: 0 <= k < |mapping| && k != m ==> Assigns(line, mapping[k].key)
  }

  lemma TailOfOne(lines: seq<string>, mapping: seq<Setting>, m: nat, k: nat)
    requires ValidMapping(mapping) && OnlyMissing(lines, mapping, m) && k < |mapping|
    ensures var tail := Join(Appended(lines, mapping), LF) + LF;
      (Assigns(tail, mapping[k].key) <==> k == m) && ReadBack(tail, mapping[m].key) == Some(mapping[m].value)
  {
    hide MatchKey, Appended, Count, Assignment;
    OneAppended(lines, mapping, m);
    AssignmentLine(mapping[m]);
    var tail := Assignment(mapping[m].key, mapping[m].value) + LF;
    if Assigns(tail, mapping[k].key) {
      AtMostOneKey(tail, mapping[k].key, mapping[m].key);
    }
  }

  lemma SetIfOneEach(text: string, lines: seq<string>, mapping: seq<Setting>, head: string, m: nat)
    requires ValidMapping(mapping) && OnlyMissing(lines, mapping, m)
    requires LayoutOf(Some(text)).lines == [head, Join(Appended(lines, mapping), LF) + LF]
    requires forall k :: 0 <= k < |mapping| ==> (Assigns(head, mapping[k].key) <==> k != m)
    requires forall k :: 0 <= k < |mapping| && Assigns(head, mapping[k].key) ==>
        ReadBack(head, mapping[k].key) == Some(mapping[k].value)
    ensures AllSet(text, mapping)
  {
    hide MatchKey, Appended, Count, Join, LayoutOf, ValidMapping, SetTo, OnlyMissing, ReadBack;
    var tail := Join(Appended(lines, mapping), LF) + LF;
    forall k | 0 <= k < |mapping| ensures SetTo(text, mapping[k].key, mapping[k].value) {
      TailOfOne(lines, mapping, m, k);
      TwoLineSet(text, head, tail, mapping[k]);
    }
  }

  lemma OneEachIfSet(text: string, lines: seq<string>, mapping: seq<Setting>, head: string, tail: string, m: nat)
    requires ValidMapping(mapping) && AllSet(text, mapping) && LayoutOf(Some(text)).lines == [head, tail]
    requires m < |mapping| && Count(lines, mapping[m].key) == 0
    requires forall k :: 0 <= k < |mapping| && Count(lines, mapping[k].key) == 0 ==> !Assigns(head, mapping[k].key)
    ensures OnlyMissing(lines, mapping, m) && AssignsOthers(head, mapping, m)
  {
    hide MatchKey, Count, LayoutOf, SetTo;
    TwoLineSet(text, head, tail, mapping[m]);
    forall k | 0 <= k < |mapping| && k != m ensures Assigns(head, mapping[k].key) {
      TwoLineSet(text, head, tail, mapping[k]);
      if Assigns(tail, mapping[k].key) {
        AtMostOneKey(tail, mapping[k].key, mapping[m].key);
      }
    }
  }

  // After an update every variable of the mapping is assigned on exactly one line and reads
  // back as its value, exactly if the newlines were kept, or one variable was appended and
  // all others are assigned by what is then the first line.
  lemma AllSetIff(text: Option<string>, mapping: seq<Setting>)
    requires ValidMapping(mapping) && Update(text, mapping).Ok?
    ensures var now := Update(text, mapping).value.0;
      AllSet(now, mapping) <==>
        || !TurnsCRLF(text, mapping)
        || OneOnEachSide(LayoutOf(text).lines, mapping, TurnedHead(text, mapping))
  {
    hide LayoutOf, Update, TurnsCRLF, MatchKey, ValidMapping, SetTo, Appended, Join, Count, OnlyMissing;
    var lines, now := LayoutOf(text).lines, Update(text, mapping).value.0;
    if !TurnsCRLF(text, mapping) {
      forall k | 0 <= k < |mapping| ensures SetTo(now, mapping[k].key, mapping[k].value) {
        EditedText(text, mapping, k);
      }
    } else {
      TurnedLines(text, mapping);
      var head, tail := TurnedHead(text, mapping), LayoutOf(Some(now)).lines[1];
      if AllSet(now, mapping) {
        var m :| 0 <= m < |mapping| && Count(lines, mapping[m].key) == 0;
        OneEachIfSet(now, lines, mapping, head, tail, m);
      }
      if m :| OnlyMissing(lines, mapping, m) && AssignsOthers(head, mapping, m) {
        MissingIs(lines, mapping, m);
        SetIfOneEach(now, lines, mapping, head, m);
      }
    }
  }

  lemma MissingIs(lines: seq<string>, mapping: seq<Setting>, m: nat)
    requires OnlyMissing(lines, mapping, m)
    ensures m < |mapping| && Count(lines, mapping[m].key) == 0
  {
  }

  /* Variables the mapping does not name. */

  lemma OtherRead(lines: seq<string>, mapping: seq<Setting>, s: Setting)
    requires ValidMapping(mapping) && ValidKey(s.key) && !Maps(mapping, s.key)
    ensures AllRead(NewLines(lines, mapping), s) <==> AllRead(lines, s)
  {
    hide MatchKey, NewLine, ReadBack, Appended, ValidKey, Occurrences;
    var kept, added := Kept(lines, mapping), Appended(lines, mapping);
    forall i | 0 <= i < |lines|
      ensures Assigns(kept[i], s.key) <==> Assigns(lines[i], s.key)
      ensures Assigns(lines[i], s.key) ==> kept[i] == lines[i]
    {
      OtherLine(lines[i], mapping, s.key);
    }
    forall i | 0 <= i < |added| ensures !Assigns(added[i], s.key) {
      CountAppended(lines, mapping, s.key);
      OccurrencesAre(added, s.key);
    }
    assert forall i :: 0 <= i < |lines| ==> NewLines(lines, mapping)[i] == kept[i];
    assert forall i :: |lines| <= i < |kept + added| ==> NewLines(lines, mapping)[i] == added[i - |lines|];
  }

  lemma OtherLine(line: string, mapping: seq<Setting>, key: string)
    requires ValidMapping(mapping) && ValidKey(key) && !Maps(mapping, key)
    ensures Assigns(NewLine(line, mapping), key) <==> Assigns(line, key)
    ensures Assigns(line, key) ==> NewLine(line, mapping) == line
  {
    hide MatchKey, NewLine, ValidKey;
    EditedLine(line, mapping, key);
    if Assigns(line, key) {
      forall k | 0 <= k < |mapping| ensures !Assigns(line, mapping[k].key) {
        if Assigns(line, mapping[k].key) {
          AtMostOneKey(line, key, mapping[k].key);
        }
      }
      LineUntouched(line, mapping);
    }
  }

  lemma HeadOnly(head: string, tail: string, key: string, value: string)
    requires !Assigns(tail, key)
    ensures SetIn([head, tail], key, value) <==> SetIn([head], key, value)
  {
    hide MatchKey, ReadBack;
    CountHead(head, tail, key);
    CountSnoc([], head, key);
    assert [] + [head] == [head];
    assert [head][0] == [head, tail][0] == head && [head, tail][1] == tail;
  }

  // Updating nothing leaves one newline.
  lemma BlankUpdated(text: Option<string>, mapping: seq<Setting>)
    requires Update(text, mapping).Ok? && NewLines(LayoutOf(text).lines, mapping) == []
    ensures LayoutOf(text).lines == [] && Update(text, mapping).value.0 == LF
  {
    hide MatchKey, NewLine, Contains, Split, Duplicates, Changes, Occurrences;
  }

  lemma BlankStays(text: Option<string>, mapping: seq<Setting>, key: string)
    requires Update(text, mapping).Ok? && NewLines(LayoutOf(text).lines, mapping) == []
    ensures Count(LayoutOf(text).lines, key) == Count(LayoutOf(Some(Update(text, mapping).value.0)).lines, key) == 0
  {
    hide MatchKey, NewLines, LayoutOf, Update;
    BlankUpdated(text, mapping);
    BlankText();
    BlankLine(key);
  }

  lemma BlankLine(key: string)
    ensures Count([""], key) == 0
  {
    CountSnoc([], "", key);
    assert [] + [""] == [""];
  }

  // An update leaves a variable it does not name as it was, but for a turned text, where it
  // is what the head makes of it.
  lemma OtherVariableIff(text: Option<string>, mapping: seq<Setting>, key: string, value: string)
    requires ValidMapping(mapping) && Update(text, mapping).Ok? && ValidKey(key) && !Maps(mapping, key)
    ensures SetTo(Update(text, mapping).value.0, key, value) <==>
            SetIn(if TurnsCRLF(text, mapping) then [TurnedHead(text, mapping)] else LayoutOf(text).lines, key, value)
  {
    hide LayoutOf, Update, TurnsCRLF, MatchKey, ValidMapping, ValidKey, NewLines, Occurrences, Join, Appended, ReadBack;
    var lines := LayoutOf(text).lines;
    if TurnsCRLF(text, mapping) {
      TurnedLines(text, mapping);
      TurnedHasLines(text, mapping);
      TailAssignsNone(lines, mapping, key);
      HeadOnly(TurnedHead(text, mapping), Join(Appended(lines, mapping), LF) + LF, key, value);
    } else if NewLines(lines, mapping) != [] {
      EditReadsBack(text, mapping);
      CountAfter(lines, mapping, key);
      OtherRead(lines, mapping, Setting(key, value));
    } else {
      BlankStays(text, mapping, key);
    }
  }

  // A turned text assigns no variable more often than before, unless it is mapped.
  lemma TurnedOthers(text: Option<string>, mapping: seq<Setting>, key: string)
    requires ValidMapping(mapping) && Update(text, mapping).Ok? && TurnsCRLF(text, mapping)
    requires ValidKey(key) && !Maps(mapping, key)
    ensures Count(LayoutOf(Some(Update(text, mapping).value.0)).lines, key) <= Count(LayoutOf(text).lines, key)
  {
    hide LayoutOf, Update, Kept, Appended, Join, Merged, MatchKey, ValidMapping, ValidKey,
      Occurrences, TurnsCRLF, Contains;
    var lines := LayoutOf(text).lines;
    TurnedLayout(text, mapping);
    TurnedHasLines(text, mapping);
    KeptWithCR(text, mapping);
    TailAssignsNone(lines, mapping, key);
    CountHead(Merged(Kept(lines, mapping)), Join(Appended(lines, mapping), LF) + LF, key);
    if Assigns(Merged(Kept(lines, mapping)), key) {
      StillCounted(lines, mapping, key);
    }
  }

  lemma TwoMissing()
    ensures var text, mapping := Some("A=1\r"), [Setting("B", "2"), Setting("C", "3")];
      && ValidMapping(mapping) && Update(text, mapping).Ok? && TurnsCRLF(text, mapping)
      && Count(LayoutOf(text).lines, "B") == 0 && Count(LayoutOf(text).lines, "C") == 0
  {
    hide MatchKey, LayoutOf, Contains, Update, NewLine, Occurrences, Assignment;
    var line, mapping := "A=1\r", [Setting("B", "2"), Setting("C", "3")];
    OneAssignment("A", "1\r", "B");
    OneAssignment("A", "1\r", "C");
    assert "A" + "=" + "1\r" == line;
    OneLineText(line);
    OneCRLines(line, mapping[0]);
    OneCRLines(line, mapping[1]);
    UpdateFailsIff(Some(line), mapping);
    assert Count(LayoutOf(Some(line)).lines, mapping[0].key) == 0;
  }

  // "A=1\r": of B and C, appended together behind the newline that turns, a reader finds
  // not both.
  lemma UnsetExample()
    ensures var text, mapping := Some("A=1\r"), [Setting("B", "2"), Setting("C", "3")];
      && ValidMapping(mapping) && Update(text, mapping).Ok?
      && !AllSet(Update(text, mapping).value.0, mapping)
  {
    hide MatchKey, LayoutOf, Update, TurnsCRLF, AllSet, Count;
    var text, mapping := Some("A=1\r"), [Setting("B", "2"), Setting("C", "3")];
    TwoMissing();
    AllSetIff(text, mapping);
    MissingBoth(LayoutOf(text).lines, mapping);
  }

  lemma MissingBoth(lines: seq<string>, mapping: seq<Setting>)
    requires |mapping| == 2 && Count(lines, mapping[0].key) == 0 && Count(lines, mapping[1].key) == 0
    ensures forall m :: !OnlyMissing(lines, mapping, m)
  {
    hide Count;
  }
}
