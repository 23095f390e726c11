// The minimal-diff dotenv editor.
module Dotenv {
  import opened Wrappers
  import opened Chars
  import opened Lines
  import opened DotenvLine

  datatype Setting = Setting(key: string, value: string)

  // What the planner passes: distinct valid names, port numbers as values.
  ghost predicate ValidMapping(mapping: seq<Setting>) {
    && (forall k :: 0 <= k < |mapping| ==> ValidKey(mapping[k].key) && PlainValue(mapping[k].value))
    && (forall j, k :: 0 <= j < k < |mapping| ==> mapping[j].key != mapping[k].key)
  }

  // `before` is absent for an appended key.
  datatype Change = Change(key: string, before: Option<string>, after: string)

  datatype Duplicate = Duplicate(key: string, lineNumbers: seq<nat>)

  /* Text as lines. */

  datatype Layout = Layout(lines: seq<string>, newline: string, trailing: bool)

  function DetectNewline(text: string): string {
    if Contains(text, CRLF) then CRLF else LF
  }

  function LayoutOf(text: Option<string>): (r: Layout)
    ensures IsNewline(r.newline)
  {
    if text == None || text == Some("") then Layout([], LF, true)
    else
      var newline := DetectNewline(text.value);
      var trailing := EndsWith(text.value, newline);
      var body := if trailing then text.value[..|text.value| - |newline|] else text.value;
      Layout(Split(body, newline), newline, trailing)
  }

  function Render(lines: seq<string>, newline: string, trailing: bool): string {
    Join(lines, newline) + if trailing then newline else ""
  }

  /* The edit, line by line. */

  function Occurrences(lines: seq<string>, key: string): (indices: seq<nat>)
    ensures forall k :: 0 <= k < |indices| ==> indices[k] < |lines| && Assigns(lines[indices[k]], key)
  {
    if lines == [] then []
    else
      var last := |lines| - 1;
      var before := Occurrences(lines[..last], key);
      if Assigns(lines[last], key) then before + [last] else before
  }

  lemma {:induction false} OccurrencesAre(lines: seq<string>, key: string)
    ensures forall i :: 0 <= i < |lines| && Assigns(lines[i], key) ==> i in Occurrences(lines, key)
    ensures forall j, k :: 0 <= j < k < |Occurrences(lines, key)| ==>
        Occurrences(lines, key)[j] < Occurrences(lines, key)[k]
  {
    hide MatchKey;
    if lines != [] {
      var last := |lines| - 1;
      OccurrencesAre(lines[..last], key);
      var before := Occurrences(lines[..last], key);
      forall i | 0 <= i < |lines| && Assigns(lines[i], key) ensures i in Occurrences(lines, key) {
        if i < last {
          assert lines[..last][i] == lines[i];
          assert i in before;
        }
      }
    }
  }

  function Duplicates(lines: seq<string>, mapping: seq<Setting>): seq<Duplicate> {
    if mapping == [] then []
    else
      var last := |mapping| - 1;
      var indices := Occurrences(lines, mapping[last].key);
      var before := Duplicates(lines, mapping[..last]);
      if |indices| > 1 then before + [Duplicate(mapping[last].key, LineNumbers(indices))] else before
  }

  function LineNumbers(indices: seq<nat>): seq<nat> {
    seq(|indices|, k requires 0 <= k < |indices| => indices[k] + 1)
  }

  function NewLine(line: string, mapping: seq<Setting>): string {
    if mapping == [] then line
    else
      var last := mapping[|mapping| - 1];
      match MatchKey(line, last.key)
      case Some(m) => Rewrite(m, last.key, last.value)
      case None => NewLine(line, mapping[..|mapping| - 1])
  }

  function Appended(lines: seq<string>, mapping: seq<Setting>): seq<string> {
    if mapping == [] then []
    else
      var last := mapping[|mapping| - 1];
      var before := Appended(lines, mapping[..|mapping| - 1]);
      if Occurrences(lines, last.key) == [] then before + [Assignment(last.key, last.value)] else before
  }

  function Kept(lines: seq<string>, mapping: seq<Setting>): seq<string> {
    seq(|lines|, i requires 0 <= i < |lines| => NewLine(lines[i], mapping))
  }

  function NewLines(lines: seq<string>, mapping: seq<Setting>): seq<string> {
    Kept(lines, mapping) + Appended(lines, mapping)
  }

  function ChangeOf(lines: seq<string>, s: Setting): seq<Change> {
    var indices := Occurrences(lines, s.key);
    if indices == [] then [Change(s.key, None, s.value)]
    else
      var before := ReadBack(lines[indices[0]], s.key);
      if before == Some(s.value) then [] else [Change(s.key, before, s.value)]
  }

  function Changes(lines: seq<string>, mapping: seq<Setting>): seq<Change> {
    if mapping == [] then []
    else Changes(lines, mapping[..|mapping| - 1]) + ChangeOf(lines, mapping[|mapping| - 1])
  }

  function Update(text: Option<string>, mapping: seq<Setting>): Result<(string, seq<Change>), seq<Duplicate>> {
    var layout := LayoutOf(text);
    if Duplicates(layout.lines, mapping) != [] then Err(Duplicates(layout.lines, mapping))
    else
      var trailing := Appended(layout.lines, mapping) != [] || layout.trailing;
      Ok((Render(NewLines(layout.lines, mapping), layout.newline, trailing), Changes(layout.lines, mapping)))
  }

  /* The editor itself. */

  lemma {:induction false} NoDuplicatesIff(lines: seq<string>, mapping: seq<Setting>)
    ensures Duplicates(lines, mapping) == [] <==>
            forall k :: 0 <= k < |mapping| ==> |Occurrences(lines, mapping[k].key)| <= 1
  {
    hide Occurrences, LineNumbers;
    if mapping != [] {
      var last := |mapping| - 1;
      NoDuplicatesIff(lines, mapping[..last]);
      assert forall k :: 0 <= k < last ==> mapping[..last][k] == mapping[k];
    }
  }

  lemma NewLineStep(line: string, mapping: seq<Setting>, s: Setting)
    ensures NewLine(line, mapping + [s]) ==
            if Assigns(line, s.key) then Rewrite(MatchKey(line, s.key).value, s.key, s.value)
            else NewLine(line, mapping)
  {
    assert (mapping + [s])[..|mapping|] == mapping;
  }

  lemma AppendedStep(lines: seq<string>, mapping: seq<Setting>, s: Setting)
    ensures Appended(lines, mapping + [s]) ==
            Appended(lines, mapping) + if Occurrences(lines, s.key) == [] then [Assignment(s.key, s.value)] else []
  {
    assert (mapping + [s])[..|mapping|] == mapping;
  }

  lemma KeptStep(lines: seq<string>, mapping: seq<Setting>, s: Setting)
    requires |Occurrences(lines, s.key)| <= 1
    ensures Kept(lines, mapping + [s]) ==
            if Occurrences(lines, s.key) == [] then Kept(lines, mapping)
            else
              var i := Occurrences(lines, s.key)[0];
              Kept(lines, mapping)[i := Rewrite(MatchKey(lines[i], s.key).value, s.key, s.value)]
  {
    hide MatchKey, NewLine, Rewrite, Occurrences;
    var indices := Occurrences(lines, s.key);
    OccurrencesAre(lines, s.key);
    forall k | 0 <= k < |lines|
      ensures NewLine(lines[k], mapping + [s]) ==
              if k in indices then Rewrite(MatchKey(lines[k], s.key).value, s.key, s.value)
              else NewLine(lines[k], mapping)
    {
      NewLineStep(lines[k], mapping, s);
    }
  }

  lemma UpdateLeft<T>(a: seq<T>, b: seq<T>, i: nat, x: T)
    requires i < |a|
    ensures (a + b)[i := x] == a[i := x] + b
  {
  }

  lemma NewLinesStep(lines: seq<string>, mapping: seq<Setting>, s: Setting)
    requires |Occurrences(lines, s.key)| <= 1
    ensures NewLines(lines, mapping + [s]) ==
            if Occurrences(lines, s.key) == [] then NewLines(lines, mapping) + [Assignment(s.key, s.value)]
            else
              var i := Occurrences(lines, s.key)[0];
              NewLines(lines, mapping)[i := Rewrite(MatchKey(lines[i], s.key).value, s.key, s.value)]
  {
    KeptStep(lines, mapping, s);
    AppendedStep(lines, mapping, s);
    var indices := Occurrences(lines, s.key);
    if indices != [] {
      var now := Rewrite(MatchKey(lines[indices[0]], s.key).value, s.key, s.value);
      UpdateLeft(Kept(lines, mapping), Appended(lines, mapping), indices[0], now);
    }
  }

  method FindOccurrences(lines: seq<string>, mapping: seq<Setting>) returns (occurrences: map<string, seq<nat>>)
    ensures forall k :: 0 <= k < |mapping| ==>
      mapping[k].key in occurrences && occurrences[mapping[k].key] == Occurrences(lines, mapping[k].key)
  {
    hide MatchKey;
    occurrences := map[];
    for j := 0 to |mapping|
      invariant forall k :: 0 <= k < j ==>
        mapping[k].key in occurrences && occurrences[mapping[k].key] == Occurrences(lines, mapping[k].key)
    {
      var indices: seq<nat> := [];
      for i := 0 to |lines|
        invariant indices == Occurrences(lines[..i], mapping[j].key)
      {
        assert lines[..i + 1][..i] == lines[..i];
        if Assigns(lines[i], mapping[j].key) {
          indices := indices + [i];
        }
      }
      assert lines[..|lines|] == lines;
      occurrences := occurrences[mapping[j].key := indices];
    }
  }

  method ComputeDotenvUpdate(original: Option<string>, mapping: seq<Setting>)
    returns (r: Result<(string, seq<Change>), seq<Duplicate>>)
    ensures r == Update(original, mapping)
  {
    var layout := LayoutOf(original);
    var lines := layout.lines;
    var occurrences := FindOccurrences(lines, mapping);

    var duplicates := [];
    for j := 0 to |mapping|
      invariant duplicates == Duplicates(lines, mapping[..j])
    {
      assert mapping[..j + 1][..j] == mapping[..j];
      var indices := occurrences[mapping[j].key];
      if |indices| > 1 {
        duplicates := duplicates + [Duplicate(mapping[j].key, LineNumbers(indices))];
      }
    }
    assert mapping[..|mapping|] == mapping;
    if duplicates != [] {
      return Err(duplicates);
    }

    NoDuplicatesIff(lines, mapping);
    var changes, newLines, appendedAny := RewriteAll(lines, mapping, occurrences);
    return Ok((Render(newLines, layout.newline, if appendedAny then true else layout.trailing), changes));
  }

  lemma NothingYet(lines: seq<string>)
    ensures Changes(lines, []) == [] && NewLines(lines, []) == lines && Appended(lines, []) == []
  {
    assert Kept(lines, []) == lines;
  }

  lemma ChangesStep(lines: seq<string>, mapping: seq<Setting>, s: Setting)
    ensures Changes(lines, mapping + [s]) == Changes(lines, mapping) + ChangeOf(lines, s)
  {
    assert (mapping + [s])[..|mapping|] == mapping;
  }

  method RewriteAll(lines: seq<string>, mapping: seq<Setting>, occurrences: map<string, seq<nat>>)
    returns (changes: seq<Change>, newLines: seq<string>, appendedAny: bool)
    requires forall k :: 0 <= k < |mapping| ==>
      && mapping[k].key in occurrences
      && occurrences[mapping[k].key] == Occurrences(lines, mapping[k].key)
      && |occurrences[mapping[k].key]| <= 1
    ensures changes == Changes(lines, mapping)
    ensures newLines == NewLines(lines, mapping)
    ensures appendedAny == (Appended(lines, mapping) != [])
  {
    hide Changes, NewLines, Appended, Occurrences;
    changes, newLines, appendedAny := [], lines, false;
    NothingYet(lines);
    for j := 0 to |mapping|
      invariant changes == Changes(lines, mapping[..j])
      invariant newLines == NewLines(lines, mapping[..j])
      invariant appendedAny == (Appended(lines, mapping[..j]) != [])
    {
      assert mapping[..j + 1] == mapping[..j] + [mapping[j]];
      ChangesStep(lines, mapping[..j], mapping[j]);
      AppendedStep(lines, mapping[..j], mapping[j]);
      newLines, changes, appendedAny :=
        ApplySetting(lines, mapping[..j], mapping[j], occurrences[mapping[j].key], newLines, changes, appendedAny);
    }
    assert mapping[..|mapping|] == mapping;
  }

  method ApplySetting(lines: seq<string>, ghost done: seq<Setting>, s: Setting, indices: seq<nat>,
                      newLines: seq<string>, changes: seq<Change>, appendedAny: bool)
    returns (newLines': seq<string>, changes': seq<Change>, appendedAny': bool)
    requires indices == Occurrences(lines, s.key) && |indices| <= 1
    requires newLines == NewLines(lines, done)
    ensures newLines' == NewLines(lines, done + [s])
    ensures changes' == changes + ChangeOf(lines, s)
    ensures appendedAny' == (appendedAny || indices == [])
  {
    newLines', changes', appendedAny' := newLines, changes, appendedAny;
    NewLinesStep(lines, done, s);
    if indices != [] {
      var newLine, before := EditLine(lines[indices[0]], s);
      newLines' := newLines[indices[0] := newLine];
      if before != s.value {
        changes' := changes + [Change(s.key, Some(before), s.value)];
      }
    } else {
      newLines' := newLines + [Assignment(s.key, s.value)];
      changes' := changes + [Change(s.key, None, s.value)];
      appendedAny' := true;
    }
  }

  method EditLine(line: string, s: Setting) returns (newLine: string, before: string)
    requires Assigns(line, s.key)
    ensures newLine == Rewrite(MatchKey(line, s.key).value, s.key, s.value)
    ensures ReadBack(line, s.key) == Some(before)
  {
    var m := MatchKey(line, s.key).value;
    var valuePart, comment := SplitValueAndComment(m.rest);
    var suffix := if comment != "" then "  " + comment else "";
    newLine, before := m.prefix + s.key + "=" + s.value + suffix, Strip(valuePart);
  }
}
