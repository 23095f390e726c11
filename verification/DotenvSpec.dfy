// What the dotenv editor guarantees about lines: which change, how they read back, and
// when an update fails.
module DotenvSpec {
  import opened Wrappers
  import opened DotenvLine
  import opened DotenvComment
  import opened Dotenv

  ghost predicate Maps(mapping: seq<Setting>, key: string) {
    exists k :: 0 <= k < |mapping| && mapping[k].key == key
  }

  function Count(lines: seq<string>, key: string): nat {
    |Occurrences(lines, key)|
  }

  /* One line. */

  lemma {:induction false} LineOfKey(line: string, mapping: seq<Setting>, k: nat)
    requires ValidMapping(mapping) && k < |mapping| && Assigns(line, mapping[k].key)
    ensures NewLine(line, mapping) == Rewrite(MatchKey(line, mapping[k].key).value, mapping[k].key, mapping[k].value)
  {
    hide MatchKey, Rewrite, ValidKey, PlainValue;
    var last := |mapping| - 1;
    if Assigns(line, mapping[last].key) {
      AtMostOneKey(line, mapping[k].key, mapping[last].key);
    } else {
      LineOfKey(line, mapping[..last], k);
    }
  }

  lemma {:induction false} LineUntouched(line: string, mapping: seq<Setting>)
    requires forall k :: 0 <= k < |mapping| ==> !Assigns(line, mapping[k].key)
    ensures NewLine(line, mapping) == line
  {
    if mapping != [] {
      LineUntouched(line, mapping[..|mapping| - 1]);
    }
  }

  // Nothing is left to do on a line that already reads as the mapping wants it.
  ghost predicate Settled(line: string, mapping: seq<Setting>) {
    forall k :: 0 <= k < |mapping| && Assigns(line, mapping[k].key) ==> SettledFor(line, mapping[k])
  }

  ghost predicate SettledFor(line: string, s: Setting) {
    && Assigns(line, s.key)
    && Rewrite(MatchKey(line, s.key).value, s.key, s.value) == line
    && ReadBack(line, s.key) == Some(s.value)
  }

  lemma SettledStays(line: string, mapping: seq<Setting>)
    requires ValidMapping(mapping) && Settled(line, mapping)
    ensures NewLine(line, mapping) == line
  {
    if k :| 0 <= k < |mapping| && Assigns(line, mapping[k].key) {
      LineOfKey(line, mapping, k);
    } else {
      LineUntouched(line, mapping);
    }
  }

  // Editing a line changes neither which key it assigns nor the keys it does not assign.
  lemma EditedLine(line: string, mapping: seq<Setting>, key: string)
    requires ValidMapping(mapping) && ValidKey(key)
    ensures Assigns(NewLine(line, mapping), key) <==> Assigns(line, key)
    ensures Settled(NewLine(line, mapping), mapping)
  {
    hide MatchKey, NewLine, Rewrite, ValidKey, PlainValue, ReadBack;
    if k :| 0 <= k < |mapping| && Assigns(line, mapping[k].key) {
      EditedAssignment(line, mapping, k);
      var now := NewLine(line, mapping);
      if Assigns(line, key) {
        AtMostOneKey(line, key, mapping[k].key);
      }
      if Assigns(now, key) {
        AtMostOneKey(now, key, mapping[k].key);
      }
      forall j | 0 <= j < |mapping| && Assigns(now, mapping[j].key) ensures SettledFor(now, mapping[j]) {
        AtMostOneKey(now, mapping[j].key, mapping[k].key);
      }
    } else {
      LineUntouched(line, mapping);
    }
  }

  lemma EditedAssignment(line: string, mapping: seq<Setting>, k: nat)
    requires ValidMapping(mapping) && k < |mapping| && Assigns(line, mapping[k].key)
    ensures SettledFor(NewLine(line, mapping), mapping[k])
    ensures KeepsPrefixAndComment(line, NewLine(line, mapping), mapping[k].key)
  {
    LineOfKey(line, mapping, k);
    RewriteReadsBack(line, mapping[k].key, mapping[k].value);
  }

  ghost predicate KeepsPrefixAndComment(line: string, now: string, key: string) {
    && Assigns(line, key) && Assigns(now, key)
    && MatchKey(now, key).value.prefix == MatchKey(line, key).value.prefix
    && CommentPart(MatchKey(now, key).value.rest) == CommentPart(MatchKey(line, key).value.rest)
  }

  /* All lines. */

  lemma CountSnoc(lines: seq<string>, l: string, key: string)
    ensures Count(lines + [l], key) == Count(lines, key) + if Assigns(l, key) then 1 else 0
  {
    assert (lines + [l])[..|lines|] == lines;
  }

  lemma {:induction false} CountConcat(a: seq<string>, b: seq<string>, key: string)
    ensures Count(a + b, key) == Count(a, key) + Count(b, key)
  {
    if b == [] {
      assert a + b == a;
    } else {
      var last := |b| - 1;
      assert a + b == (a + b[..last]) + [b[last]] && b == b[..last] + [b[last]];
      CountConcat(a, b[..last], key);
      CountSnoc(a + b[..last], b[last], key);
      CountSnoc(b[..last], b[last], key);
    }
  }

  lemma {:induction false} CountKept(lines: seq<string>, mapping: seq<Setting>, key: string)
    requires ValidMapping(mapping) && ValidKey(key)
    ensures Count(Kept(lines, mapping), key) == Count(lines, key)
  {
    if lines != [] {
      var last := |lines| - 1;
      CountKept(lines[..last], mapping, key);
      assert Kept(lines, mapping)[..last] == Kept(lines[..last], mapping);
      EditedLine(lines[last], mapping, key);
    }
  }

  lemma MapsSnoc(mapping: seq<Setting>, key: string)
    requires mapping != []
    ensures Maps(mapping, key) <==> Maps(mapping[..|mapping| - 1], key) || mapping[|mapping| - 1].key == key
  {
    var init := mapping[..|mapping| - 1];
    if Maps(init, key) {
      var k :| 0 <= k < |init| && init[k].key == key;
      assert mapping[k].key == key;
    }
    if Maps(mapping, key) && mapping[|mapping| - 1].key != key {
      var k :| 0 <= k < |mapping| && mapping[k].key == key;
      assert init[k].key == key;
    }
  }

  lemma MapsOnce(mapping: seq<Setting>)
    requires ValidMapping(mapping) && mapping != []
    ensures !Maps(mapping[..|mapping| - 1], mapping[|mapping| - 1].key)
    ensures ValidMapping(mapping[..|mapping| - 1])
  {
  }

  lemma NothingAppended(lines: seq<string>, key: string)
    ensures Count(Appended(lines, []), key) == 0
  {
  }

  lemma {:induction false} CountAppended(lines: seq<string>, mapping: seq<Setting>, key: string)
    requires ValidMapping(mapping) && ValidKey(key)
    ensures Count(Appended(lines, mapping), key) == if Maps(mapping, key) && Count(lines, key) == 0 then 1 else 0
  {
    hide Count, Appended, ValidMapping, ValidKey;
    if mapping == [] {
      NothingAppended(lines, key);
    } else {
      MapsOnce(mapping);
      MapsSnoc(mapping, key);
      CountAppended(lines, mapping[..|mapping| - 1], key);
      CountAppendedStep(lines, mapping, key);
    }
  }

  lemma CountAppendedStep(lines: seq<string>, mapping: seq<Setting>, key: string)
    requires ValidMapping(mapping) && ValidKey(key) && mapping != []
    ensures var s := mapping[|mapping| - 1];
      Count(Appended(lines, mapping), key) ==
      Count(Appended(lines, mapping[..|mapping| - 1]), key) + if s.key == key && Count(lines, key) == 0 then 1 else 0
  {
    var s, before := mapping[|mapping| - 1], Appended(lines, mapping[..|mapping| - 1]);
    if Occurrences(lines, s.key) == [] {
      var l := Assignment(s.key, s.value);
      AppendedReadsBack(s.key, s.value);
      if Assigns(l, key) {
        AtMostOneKey(l, key, s.key);
      }
      assert (before + [l])[..|before|] == before;
    }
  }

  // Each mapped key ends up assigned once; every other key as often as before.
  lemma CountAfter(lines: seq<string>, mapping: seq<Setting>, key: string)
    requires ValidMapping(mapping) && ValidKey(key)
    ensures Count(NewLines(lines, mapping), key) ==
            if Maps(mapping, key) && Count(lines, key) == 0 then 1 else Count(lines, key)
  {
    CountConcat(Kept(lines, mapping), Appended(lines, mapping), key);
    CountKept(lines, mapping, key);
    CountAppended(lines, mapping, key);
  }

  lemma AssignmentSettled(mapping: seq<Setting>, k: nat)
    requires ValidMapping(mapping) && k < |mapping|
    ensures Settled(Assignment(mapping[k].key, mapping[k].value), mapping)
  {
    var l := Assignment(mapping[k].key, mapping[k].value);
    AppendedReadsBack(mapping[k].key, mapping[k].value);
    forall j | 0 <= j < |mapping| && Assigns(l, mapping[j].key) ensures SettledFor(l, mapping[j]) {
      AtMostOneKey(l, mapping[j].key, mapping[k].key);
    }
  }

  lemma {:induction false} AppendedSettled(lines: seq<string>, mapping: seq<Setting>, n: nat)
    requires ValidMapping(mapping) && n <= |mapping|
    ensures forall i :: 0 <= i < |Appended(lines, mapping[..n])| ==> Settled(Appended(lines, mapping[..n])[i], mapping)
  {
    hide Settled, Assignment, Occurrences;
    if n > 0 {
      AppendedSettled(lines, mapping, n - 1);
      assert mapping[..n][..n - 1] == mapping[..n - 1];
      AssignmentSettled(mapping, n - 1);
    }
  }

  lemma NewLinesSettled(lines: seq<string>, mapping: seq<Setting>)
    requires ValidMapping(mapping)
    ensures forall i :: 0 <= i < |NewLines(lines, mapping)| ==> Settled(NewLines(lines, mapping)[i], mapping)
  {
    assert mapping[..|mapping|] == mapping;
    AppendedSettled(lines, mapping, |mapping|);
    forall i | 0 <= i < |lines| ensures Settled(Kept(lines, mapping)[i], mapping) {
      EditedLine(lines[i], mapping, "K");
    }
  }

  /* The specification of an update. */

  // An update fails exactly when some mapped key is assigned twice.
  lemma UpdateFailsIff(text: Option<string>, mapping: seq<Setting>)
    ensures Update(text, mapping).Err? <==>
            exists k :: 0 <= k < |mapping| && Count(LayoutOf(text).lines, mapping[k].key) > 1
  {
    NoDuplicatesIff(LayoutOf(text).lines, mapping);
  }

  // `tail` assigns the keys missing from `lines`, `order` saying which, in mapping order.
  ghost predicate AssignsMissing(lines: seq<string>, mapping: seq<Setting>, tail: seq<string>, order: seq<nat>) {
    && |order| == |tail|
    && (forall i :: 0 <= i < |order| ==> AssignsAt(lines, mapping, tail[i], order[i]))
    && Increasing(order)
    && (forall k :: 0 <= k < |mapping| && Count(lines, mapping[k].key) == 0 ==> k in order)
  }

  ghost predicate AssignsAt(lines: seq<string>, mapping: seq<Setting>, line: string, k: nat) {
    && k < |mapping| && Count(lines, mapping[k].key) == 0
    && line == Assignment(mapping[k].key, mapping[k].value)
  }

  ghost predicate Increasing(order: seq<nat>) {
    forall i, j :: 0 <= i < j < |order| ==> order[i] < order[j]
  }

  lemma {:induction false} MissingInOrder(lines: seq<string>, mapping: seq<Setting>) returns (order: seq<nat>)
    ensures AssignsMissing(lines, mapping, Appended(lines, mapping), order)
  {
    order := [];
    if mapping != [] {
      var last := |mapping| - 1;
      var init := MissingInOrder(lines, mapping[..last]);
      AppendedLast(lines, mapping);
      if Count(lines, mapping[last].key) == 0 {
        order := init + [last];
        OneMoreMissing(lines, mapping, Appended(lines, mapping[..last]), init);
      } else {
        order := init;
        NoMoreMissing(lines, mapping, Appended(lines, mapping[..last]), init);
        assert Appended(lines, mapping[..last]) + [] == Appended(lines, mapping[..last]);
      }
    }
  }

  lemma OneMoreMissing(lines: seq<string>, mapping: seq<Setting>, tail: seq<string>, init: seq<nat>)
    requires mapping != [] && Count(lines, mapping[|mapping| - 1].key) == 0
    requires AssignsMissing(lines, mapping[..|mapping| - 1], tail, init)
    ensures var s := mapping[|mapping| - 1];
      AssignsMissing(lines, mapping, tail + [Assignment(s.key, s.value)], init + [|mapping| - 1])
  {
    hide Count, Assignment, Increasing;
    var last := |mapping| - 1;
    var order := init + [last];
    NextIncreasing(init, last);
    forall i | 0 <= i < |init| ensures AssignsAt(lines, mapping, tail[i], order[i]) {
      assert AssignsAt(lines, mapping[..last], tail[i], init[i]);
    }
    forall k | 0 <= k < |mapping| && Count(lines, mapping[k].key) == 0 ensures k in order {
      MissingBefore(mapping, last, k);
      assert order[|init|] == last;
    }
  }

  lemma NoMoreMissing(lines: seq<string>, mapping: seq<Setting>, tail: seq<string>, init: seq<nat>)
    requires mapping != [] && Count(lines, mapping[|mapping| - 1].key) > 0
    requires AssignsMissing(lines, mapping[..|mapping| - 1], tail, init)
    ensures AssignsMissing(lines, mapping, tail, init)
  {
    hide Count, Assignment, Increasing;
    var last := |mapping| - 1;
    forall i | 0 <= i < |init| ensures AssignsAt(lines, mapping, tail[i], init[i]) {
      assert AssignsAt(lines, mapping[..last], tail[i], init[i]);
    }
    forall k | 0 <= k < |mapping| && Count(lines, mapping[k].key) == 0 ensures k in init {
      MissingBefore(mapping, last, k);
    }
  }

  lemma MissingBefore(mapping: seq<Setting>, last: nat, k: nat)
    requires k < |mapping| == last + 1
    ensures k < last ==> mapping[..last][k] == mapping[k]
  {
  }

  lemma NextIncreasing(init: seq<nat>, last: nat)
    requires Increasing(init) && forall i :: 0 <= i < |init| ==> init[i] < last
    ensures Increasing(init + [last])
  {
  }

  lemma AppendedLast(lines: seq<string>, mapping: seq<Setting>)
    requires mapping != []
    ensures var s := mapping[|mapping| - 1];
      Appended(lines, mapping) == Appended(lines, mapping[..|mapping| - 1]) +
          if Count(lines, s.key) == 0 then [Assignment(s.key, s.value)] else []
  {
    hide Occurrences, Assignment;
  }

  ghost predicate LinesKept(old_: seq<string>, now: seq<string>, mapping: seq<Setting>) {
    && |old_| <= |now|
    && (forall i :: 0 <= i < |old_| && (forall k :: 0 <= k < |mapping| ==> !Assigning(old_[i], mapping[k].key)) ==>
          now[i] == old_[i])
    && (forall i, k :: 0 <= i < |old_| && 0 <= k < |mapping| && Assigning(old_[i], mapping[k].key) ==>
          LineEdited(old_[i], mapping[k].key, mapping[k].value, now[i]))
  }

  ghost predicate AllReadBack(now: seq<string>, mapping: seq<Setting>) {
    forall i, k :: 0 <= i < |now| && 0 <= k < |mapping| && Assigns(now[i], mapping[k].key) ==>
      ReadBack(now[i], mapping[k].key) == Some(mapping[k].value)
  }

  ghost predicate AssignedOnce(old_: seq<string>, now: seq<string>, mapping: seq<Setting>) {
    && (forall k :: 0 <= k < |mapping| ==> Count(now, mapping[k].key) == 1)
    && (forall key :: ValidKey(key) && !Maps(mapping, key) ==> Count(now, key) == Count(old_, key))
  }

  // Every line keeps its position. A line assigning no mapped key is untouched; one that
  // does gets the new value between its prefix and its comment, and reads back as it; the
  // missing keys follow in mapping order; and each mapped key is assigned exactly once.
  lemma UpdateSpec(text: Option<string>, mapping: seq<Setting>)
    requires ValidMapping(mapping) && Update(text, mapping).Ok?
    ensures var old_, now := LayoutOf(text).lines, NewLines(LayoutOf(text).lines, mapping);
      && LinesKept(old_, now, mapping)
      && AllReadBack(now, mapping)
      && (exists order :: AssignsMissing(old_, mapping, now[|old_|..], order))
      && AssignedOnce(old_, now, mapping)
  {
    hide LinesKept, AllReadBack, AssignsMissing, AssignedOnce;
    var lines := LayoutOf(text).lines;
    KeptLines(lines, mapping);
    NewLinesReadBack(lines, mapping);
    var order := MissingInOrder(lines, mapping);
    assert NewLines(lines, mapping)[|lines|..] == Appended(lines, mapping);
    UpdateFailsIff(text, mapping);
    OnceAssigned(lines, mapping);
  }

  lemma KeptLines(lines: seq<string>, mapping: seq<Setting>)
    requires ValidMapping(mapping)
    ensures LinesKept(lines, NewLines(lines, mapping), mapping)
  {
    hide Assigns, Assigning, NewLine, Occurrences, LineEdited, MatchKey, Rewrite;
    var now := NewLines(lines, mapping);
    forall i, k | 0 <= i < |lines| && 0 <= k < |mapping|
      ensures Assigning(lines[i], mapping[k].key) <==> Assigns(lines[i], mapping[k].key)
    {
      AssignsIff(lines[i], mapping[k].key);
    }
    forall i | 0 <= i < |lines| && forall k :: 0 <= k < |mapping| ==> !Assigning(lines[i], mapping[k].key)
      ensures now[i] == lines[i]
    {
      LineUntouched(lines[i], mapping);
    }
    forall i, k | 0 <= i < |lines| && 0 <= k < |mapping| && Assigning(lines[i], mapping[k].key)
      ensures LineEdited(lines[i], mapping[k].key, mapping[k].value, now[i])
    {
      EditedIsLine(lines[i], mapping, k);
    }
  }

  lemma EditedIsLine(line: string, mapping: seq<Setting>, k: nat)
    requires ValidMapping(mapping) && k < |mapping| && Assigns(line, mapping[k].key)
    ensures LineEdited(line, mapping[k].key, mapping[k].value, NewLine(line, mapping))
  {
    hide NewLine, MatchKey, Rewrite, LineEdited;
    LineOfKey(line, mapping, k);
    RewriteEdits(line, mapping[k].key, mapping[k].value);
  }

  lemma NewLinesReadBack(lines: seq<string>, mapping: seq<Setting>)
    requires ValidMapping(mapping)
    ensures AllReadBack(NewLines(lines, mapping), mapping)
  {
    hide Assigns, NewLines, ReadBack, Rewrite;
    NewLinesSettled(lines, mapping);
  }

  lemma OnceAssigned(lines: seq<string>, mapping: seq<Setting>)
    requires ValidMapping(mapping) && forall k :: 0 <= k < |mapping| ==> Count(lines, mapping[k].key) <= 1
    ensures AssignedOnce(lines, NewLines(lines, mapping), mapping)
  {
    hide NewLines, Count;
    forall key | ValidKey(key)
      ensures Count(NewLines(lines, mapping), key) ==
              if Maps(mapping, key) && Count(lines, key) == 0 then 1 else Count(lines, key)
    {
      CountAfter(lines, mapping, key);
    }
  }

  /* A second pass. */

  lemma {:induction false} NothingMissing(lines: seq<string>, mapping: seq<Setting>)
    ensures Appended(lines, mapping) == [] <==> forall k :: 0 <= k < |mapping| ==> Count(lines, mapping[k].key) > 0
  {
    hide Occurrences;
    if mapping != [] {
      NothingMissing(lines, mapping[..|mapping| - 1]);
    }
  }

  lemma {:induction false} NoChanges(lines: seq<string>, mapping: seq<Setting>)
    requires forall k :: 0 <= k < |mapping| ==> Count(lines, mapping[k].key) > 0
    requires forall i, k :: 0 <= i < |lines| && 0 <= k < |mapping| && Assigns(lines[i], mapping[k].key) ==>
        SettledFor(lines[i], mapping[k])
    ensures Changes(lines, mapping) == []
  {
    if mapping != [] {
      NoChanges(lines, mapping[..|mapping| - 1]);
    }
  }

  // On the lines a first pass produced, a second pass finds nothing to do.
  lemma SecondPass(lines: seq<string>, mapping: seq<Setting>)
    requires ValidMapping(mapping) && Duplicates(lines, mapping) == []
    ensures var now := NewLines(lines, mapping);
      && Duplicates(now, mapping) == [] && Appended(now, mapping) == []
      && NewLines(now, mapping) == now && Changes(now, mapping) == []
  {
    var now := NewLines(lines, mapping);
    NoDuplicatesIff(lines, mapping);
    NoDuplicatesIff(now, mapping);
    forall k | 0 <= k < |mapping| ensures Count(now, mapping[k].key) == 1 {
      CountAfter(lines, mapping, mapping[k].key);
    }
    NothingMissing(now, mapping);
    NewLinesSettled(lines, mapping);
    forall i | 0 <= i < |now| ensures NewLine(now[i], mapping) == now[i] {
      SettledStays(now[i], mapping);
    }
    assert Kept(now, mapping) == now;
    NoChanges(now, mapping);
  }
}
