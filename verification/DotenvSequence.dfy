// Updating with one mapping after another that shares no key with it.
module DotenvSequence {
  import opened Wrappers
  import opened DotenvLine
  import opened Dotenv
  import opened DotenvSpec
  import opened DotenvText

  lemma ValidParts(first: seq<Setting>, second: seq<Setting>)
    requires ValidMapping(first + second)
    ensures ValidMapping(first) && ValidMapping(second)
    ensures forall k :: 0 <= k < |second| ==> !Maps(first, second[k].key)
    ensures forall k :: 0 <= k < |first| ==> !Maps(second, first[k].key)
  {
    var both := first + second;
    assert forall k :: 0 <= k < |first| ==> both[k] == first[k];
    assert forall k :: 0 <= k < |second| ==> both[|first| + k] == second[k];
  }

  lemma LineTwice(line: string, first: seq<Setting>, second: seq<Setting>)
    requires ValidMapping(first + second)
    ensures NewLine(NewLine(line, first), second) == NewLine(line, first + second)
  {
    hide NewLine, MatchKey, Rewrite, PlainValue, ValidKey;
    ValidParts(first, second);
    var both := first + second;
    if k :| 0 <= k < |first| && Assigns(line, first[k].key) {
      assert both[k] == first[k];
      LineOfKey(line, first, k);
      LineOfKey(line, both, k);
      forall j | 0 <= j < |second| ensures !Assigns(NewLine(line, first), second[j].key) {
        NotBoth(line, first, k, second[j].key);
      }
      LineUntouched(NewLine(line, first), second);
    } else {
      LineUntouched(line, first);
      if k :| 0 <= k < |second| && Assigns(line, second[k].key) {
        assert both[|first| + k] == second[k];
        LineOfKey(line, second, k);
        LineOfKey(line, both, |first| + k);
      } else {
        LineUntouched(line, second);
        LineUntouched(line, both);
      }
    }
  }

  lemma NotBoth(line: string, mapping: seq<Setting>, k: nat, key: string)
    requires ValidMapping(mapping) && k < |mapping| && Assigns(line, mapping[k].key)
    requires ValidKey(key) && !Maps(mapping, key)
    ensures !Assigns(NewLine(line, mapping), key)
  {
    EditedLine(line, mapping, key);
    if Assigns(line, key) {
      AtMostOneKey(line, key, mapping[k].key);
    }
  }

  lemma {:induction false} AppendedLine(lines: seq<string>, first: seq<Setting>, second: seq<Setting>, i: nat)
    requires ValidMapping(first + second) && i < |Appended(lines, first)|
    ensures NewLine(Appended(lines, first)[i], second) == Appended(lines, first)[i]
  {
    ValidParts(first, second);
    var last := |first| - 1;
    if i < |Appended(lines, first[..last])| {
      assert ValidMapping(first[..last] + second) by {
        assert forall k :: 0 <= k < last ==> (first[..last] + second)[k] == first[k];
        assert forall k :: 0 <= k < |second| ==> (first[..last] + second)[last + k] == second[k];
      }
      AppendedLine(lines, first[..last], second, i);
    } else {
      var s := first[last];
      var l := Assignment(s.key, s.value);
      AppendedReadsBack(s.key, s.value);
      assert Maps(first, s.key);
      forall k | 0 <= k < |second| ensures !Assigns(l, second[k].key) {
        if Assigns(l, second[k].key) {
          AtMostOneKey(l, second[k].key, s.key);
        }
      }
      LineUntouched(l, second);
    }
  }

  lemma {:induction false} AppendedTogether(lines: seq<string>, first: seq<Setting>, second: seq<Setting>,
                                            now: seq<string>)
    requires forall k :: 0 <= k < |second| ==> Count(now, second[k].key) == Count(lines, second[k].key)
    ensures Appended(lines, first + second) == Appended(lines, first) + Appended(now, second)
  {
    hide Count, Occurrences, Assignment, Appended;
    if second == [] {
      assert first + second == first;
      AppendedNothing(lines, first, now);
    } else {
      var last := |second| - 1;
      assert first + second == (first + second[..last]) + [second[last]] && second == second[..last] + [second[last]];
      AppendedTogether(lines, first, second[..last], now);
      AppendedLast(lines, (first + second[..last]) + [second[last]]);
      AppendedLast(now, second);
      assert ((first + second[..last]) + [second[last]])[..|first| + last] == first + second[..last];
    }
  }

  lemma AppendedNothing(lines: seq<string>, first: seq<Setting>, now: seq<string>)
    ensures Appended(lines, first) == Appended(lines, first) + Appended(now, [])
  {
  }

  lemma CountsUnmoved(lines: seq<string>, first: seq<Setting>, second: seq<Setting>)
    requires ValidMapping(first + second)
    ensures forall k :: 0 <= k < |second| ==>
        Count(NewLines(lines, first), second[k].key) == Count(lines, second[k].key)
  {
    ValidParts(first, second);
    forall k | 0 <= k < |second| ensures Count(NewLines(lines, first), second[k].key) == Count(lines, second[k].key) {
      CountAfter(lines, first, second[k].key);
    }
  }

  lemma DuplicatesTwice(lines: seq<string>, first: seq<Setting>, second: seq<Setting>)
    requires ValidMapping(first + second)
    ensures Duplicates(lines, first + second) == [] <==>
            Duplicates(lines, first) == [] && Duplicates(NewLines(lines, first), second) == []
  {
    CountsUnmoved(lines, first, second);
    NoDuplicatesIff(lines, first + second);
    NoDuplicatesIff(lines, first);
    NoDuplicatesIff(NewLines(lines, first), second);
    BothParts(lines, first, second);
  }

  lemma LinesTwice(lines: seq<string>, first: seq<Setting>, second: seq<Setting>)
    requires ValidMapping(first + second)
    ensures NewLines(NewLines(lines, first), second) == NewLines(lines, first + second)
    ensures Appended(lines, first + second) == Appended(lines, first) + Appended(NewLines(lines, first), second)
  {
    CountsUnmoved(lines, first, second);
    AppendedTogether(lines, first, second, NewLines(lines, first));
    KeptTwice(lines, first, second);
    Regroup(Kept(lines, first + second), Appended(lines, first), Appended(NewLines(lines, first), second));
  }

  lemma Regroup<T>(a: seq<T>, b: seq<T>, c: seq<T>)
    ensures (a + b) + c == a + (b + c)
  {
  }

  lemma BothParts(lines: seq<string>, first: seq<Setting>, second: seq<Setting>)
    ensures (forall k :: 0 <= k < |first + second| ==> Count(lines, (first + second)[k].key) <= 1) <==>
            && (forall k :: 0 <= k < |first| ==> Count(lines, first[k].key) <= 1)
            && (forall k :: 0 <= k < |second| ==> Count(lines, second[k].key) <= 1)
  {
    var both := first + second;
    assert forall k :: 0 <= k < |first| ==> both[k] == first[k];
    assert forall k :: 0 <= k < |second| ==> both[|first| + k] == second[k];
  }

  lemma KeptConcat(a: seq<string>, b: seq<string>, mapping: seq<Setting>)
    ensures Kept(a + b, mapping) == Kept(a, mapping) + Kept(b, mapping)
  {
  }

  lemma KeptTwice(lines: seq<string>, first: seq<Setting>, second: seq<Setting>)
    requires ValidMapping(first + second)
    ensures Kept(NewLines(lines, first), second) == Kept(lines, first + second) + Appended(lines, first)
  {
    var kept, added := Kept(lines, first), Appended(lines, first);
    KeptConcat(kept, added, second);
    forall i | 0 <= i < |lines| ensures NewLine(kept[i], second) == NewLine(lines[i], first + second) {
      LineTwice(lines[i], first, second);
    }
    assert Kept(kept, second) == Kept(lines, first + second);
    forall i | 0 <= i < |added| ensures NewLine(added[i], second) == added[i] {
      AppendedLine(lines, first, second, i);
    }
    assert Kept(added, second) == added;
  }

  // Two updates with disjoint keys, one after the other, succeed exactly when the update
  // with both mappings does, and leave the same text, if the first keeps the newline style.
  lemma DisjointUpdatesCompose(text: Option<string>, first: seq<Setting>, second: seq<Setting>)
    requires ValidMapping(first + second) && ValidMapping(first) && first != [] && !TurnsCRLF(text, first)
    ensures Update(text, first + second).Ok? <==>
            Update(text, first).Ok? && Update(Some(Update(text, first).value.0), second).Ok?
    ensures Update(text, first + second).Ok? ==>
            Update(text, first + second).value.0 == Update(Some(Update(text, first).value.0), second).value.0
  {
    var l := LayoutOf(text);
    LinesTwice(l.lines, first, second);
    DuplicatesTwice(l.lines, first, second);
    if Update(text, first).Ok? {
      SomeLines(l.lines, first);
      EditReadsBack(text, first);
    }
  }

  lemma SomeLines(lines: seq<string>, mapping: seq<Setting>)
    requires mapping != []
    ensures NewLines(lines, mapping) != []
  {
    if lines == [] {
      NothingMissing(lines, mapping);
      assert Count(lines, mapping[0].key) == 0;
    }
  }
}
