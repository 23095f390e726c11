// What an update of a dotenv file writes, reports and refuses, told from the text and the
// assignment pattern alone.
module DotenvMeaning {
  import opened Wrappers
  import opened Lines
  import opened DotenvLine
  import opened DotenvComment
  import opened Dotenv
  import opened DotenvSpec
  import opened DotenvText

  /* The text as lines. */

  // Lines without newlines in them; the newline is "\r\n" if the text has one anywhere. Only
  // a last newline counts as ending the last line, and a missing or empty text ends so.
  ghost predicate TextLines(text: Option<string>, lines: seq<string>, newline: string, trailing: bool) {
    if text == None || text == Some("") then lines == [] && newline == "\n" && trailing
    else
      && newline == (if exists i :: BreakAt(text.value, "\r\n", i) then "\r\n" else "\n")
      && lines != [] && (forall k, i :: 0 <= k < |lines| ==> !BreakAt(lines[k], newline, i))
      && text.value == Join(lines, newline) + (if trailing then newline else "")
      && (!trailing ==> !BreakAt(text.value, newline, |text.value| - |newline|))
  }

  lemma LayoutIs(text: Option<string>)
    ensures var l := LayoutOf(text); TextLines(text, l.lines, l.newline, l.trailing)
  {
    hide Split, Join, Contains;
    if text.Some? && text.value != "" {
      var l := LayoutOf(text);
      ContainsIff(text.value, CRLF);
      PrintParse(text.value);
      var body := if l.trailing then text.value[..|text.value| - |l.newline|] else text.value;
      SplitUnbroken(body, l.newline);
      forall k, i | 0 <= k < |l.lines| ensures !BreakAt(l.lines[k], l.newline, i) {
        ContainsIff(l.lines[k], l.newline);
      }
      EndIff(text.value, l.newline);
    }
  }

  lemma EndIff(s: string, sep: string)
    ensures EndsWith(s, sep) <==> BreakAt(s, sep, |s| - |sep|)
  {
  }

  /* The lines of a key. */

  ghost function LinesOf(lines: seq<string>, key: string): set<int> {
    set i | 0 <= i < |lines| && Assigning(lines[i], key)
  }

  lemma LinesSnoc(lines: seq<string>, key: string)
    requires lines != []
    ensures var init, last := LinesOf(lines[..|lines| - 1], key), |lines| - 1;
      last !in init && LinesOf(lines, key) == if Assigning(lines[last], key) then init + {last} else init
  {
    hide Assigning;
  }

  lemma {:induction false} OccurrencesCount(lines: seq<string>, key: string)
    requires ValidKey(key)
    ensures |Occurrences(lines, key)| == |LinesOf(lines, key)|
    ensures forall i :: i in LinesOf(lines, key) <==> i in Occurrences(lines, key)
  {
    hide Assigning, Assigns, LinesOf, ValidKey;
    if lines == [] {
      assert LinesOf(lines, key) == {} by {
        NoLines(key);
      }
    } else {
      OccurrencesCount(lines[..|lines| - 1], key);
      LinesSnoc(lines, key);
      AssignsIff(lines[|lines| - 1], key);
    }
  }

  lemma NoLines(key: string)
    ensures LinesOf([], key) == {}
  {
  }

  lemma Single(s: set<int>, i: int)
    requires |s| == 1 && i in s
    ensures s == {i}
  {
    assert |s - {i}| == 0;
  }

  /* One item for some elements of a sequence, in order. */

  ghost predicate InOrder<S, T>(xs: seq<S>, out: seq<T>, order: seq<nat>, gives: (S, T) -> bool, skips: S -> bool) {
    && |order| == |out| && Increasing(order)
    && (forall i :: 0 <= i < |out| ==> order[i] < |xs| && gives(xs[order[i]], out[i]))
    && (forall k :: 0 <= k < |xs| ==> k in order || skips(xs[k]))
  }

  lemma NoneInOrder<S, T>(gives: (S, T) -> bool, skips: S -> bool)
    ensures InOrder([], [], [], gives, skips)
  {
  }

  lemma OneInOrder<S, T>(xs: seq<S>, x: S, out: seq<T>, t: T, order: seq<nat>, gives: (S, T) -> bool, skips: S -> bool)
    requires InOrder(xs, out, order, gives, skips) && gives(x, t)
    ensures InOrder(xs + [x], out + [t], order + [|xs|], gives, skips)
  {
    hide Increasing;
    NextIncreasing(order, |xs|);
    forall k | 0 <= k < |xs + [x]| ensures k in order + [|xs|] || skips((xs + [x])[k]) {
      if k == |xs| {
        assert (order + [|xs|])[|order|] == k;
      }
    }
  }

  lemma SkipInOrder<S, T>(xs: seq<S>, x: S, out: seq<T>, order: seq<nat>, gives: (S, T) -> bool, skips: S -> bool)
    requires InOrder(xs, out, order, gives, skips) && skips(x)
    ensures InOrder(xs + [x], out, order, gives, skips)
  {
    hide Increasing;
  }

  /* Refusals. */

  // A key assigned on more than one line, with the numbers of those lines, from 1 and in
  // order.
  ghost predicate IsDuplicate(lines: seq<string>, s: Setting, d: Duplicate) {
    && d.key == s.key && |LinesOf(lines, s.key)| > 1 && Increasing(d.lineNumbers)
    && forall n: nat :: n in d.lineNumbers <==> n - 1 in LinesOf(lines, s.key)
  }

  lemma NumbersShift(indices: seq<nat>, n: nat)
    ensures n in LineNumbers(indices) <==> n - 1 in indices
  {
    if n - 1 in indices {
      var k :| 0 <= k < |indices| && indices[k] == n - 1;
      assert LineNumbers(indices)[k] == n;
    }
  }

  lemma DuplicateFound(lines: seq<string>, s: Setting)
    requires ValidKey(s.key) && |Occurrences(lines, s.key)| > 1
    ensures IsDuplicate(lines, s, Duplicate(s.key, LineNumbers(Occurrences(lines, s.key))))
  {
    hide LinesOf, Assigns, ValidKey;
    var indices := Occurrences(lines, s.key);
    OccurrencesCount(lines, s.key);
    OccurrencesAre(lines, s.key);
    forall n: nat ensures n in LineNumbers(indices) <==> n - 1 in LinesOf(lines, s.key) {
      NumbersShift(indices, n);
    }
  }

  ghost predicate DuplicatesAre(lines: seq<string>, mapping: seq<Setting>, ds: seq<Duplicate>, order: seq<nat>) {
    InOrder(mapping, ds, order, (s: Setting, d) => IsDuplicate(lines, s, d),
            (s: Setting) => |LinesOf(lines, s.key)| <= 1)
  }

  lemma {:induction false} DuplicatesInOrder(lines: seq<string>, mapping: seq<Setting>) returns (order: seq<nat>)
    requires ValidMapping(mapping)
    ensures DuplicatesAre(lines, mapping, Duplicates(lines, mapping), order)
  {
    hide InOrder, IsDuplicate, LinesOf, Occurrences, LineNumbers, ValidKey, PlainValue;
    var gives := (s: Setting, d) => IsDuplicate(lines, s, d);
    var skips := (s: Setting) => |LinesOf(lines, s.key)| <= 1;
    order := [];
    if mapping == [] {
      NoneInOrder(gives, skips);
    } else {
      var init, last := mapping[..|mapping| - 1], mapping[|mapping| - 1];
      assert mapping == init + [last];
      order := DuplicatesInOrder(lines, init);
      OccurrencesCount(lines, last.key);
      var ds, indices := Duplicates(lines, init), Occurrences(lines, last.key);
      if |indices| > 1 {
        DuplicateFound(lines, last);
        OneInOrder(init, last, ds, Duplicate(last.key, LineNumbers(indices)), order, gives, skips);
        order := order + [|init|];
      } else {
        SkipInOrder(init, last, ds, order, gives, skips);
      }
    }
  }

  /* Changes. */

  // What the one line of the key read before, or nothing.
  ghost predicate Before(lines: seq<string>, key: string, b: Option<string>) {
    if LinesOf(lines, key) == {} then b == None
    else exists i :: LinesOf(lines, key) == {i} && b.Some? && Reads(lines[i], key, b.value)
  }

  // A change is told unless the line read as the new value already.
  ghost predicate IsChange(lines: seq<string>, s: Setting, c: Change) {
    c.key == s.key && c.after == s.value && Before(lines, s.key, c.before) && c.before != Some(s.value)
  }

  lemma BeforeIs(lines: seq<string>, key: string)
    requires ValidKey(key) && |Occurrences(lines, key)| <= 1
    ensures var indices := Occurrences(lines, key);
      Before(lines, key, if indices == [] then None else ReadBack(lines[indices[0]], key))
  {
    hide LinesOf, Assigns, Reads, ReadBack, ValidKey;
    var indices := Occurrences(lines, key);
    OccurrencesCount(lines, key);
    if indices == [] {
      assert LinesOf(lines, key) == {};
    } else {
      var i := indices[0];
      assert i in indices;
      Single(LinesOf(lines, key), i);
      ReadsSomething(lines[i], key);
    }
  }

  lemma ReadsSomething(line: string, key: string)
    requires ValidKey(key) && Assigns(line, key)
    ensures ReadBack(line, key).Some? && Reads(line, key, ReadBack(line, key).value)
  {
    hide Reads;
    ReadBackIff(line, key, ReadBack(line, key).value);
  }

  ghost predicate ChangesAre(lines: seq<string>, mapping: seq<Setting>, changes: seq<Change>, order: seq<nat>) {
    InOrder(mapping, changes, order, (s: Setting, c) => IsChange(lines, s, c),
            (s: Setting) => Before(lines, s.key, Some(s.value)))
  }

  lemma {:induction false} ChangesInOrder(lines: seq<string>, mapping: seq<Setting>) returns (order: seq<nat>)
    requires ValidMapping(mapping) && forall k :: 0 <= k < |mapping| ==> |Occurrences(lines, mapping[k].key)| <= 1
    ensures ChangesAre(lines, mapping, Changes(lines, mapping), order)
  {
    hide InOrder, Before, Occurrences, ReadBack, ValidKey, PlainValue;
    var gives := (s: Setting, c) => IsChange(lines, s, c);
    var skips := (s: Setting) => Before(lines, s.key, Some(s.value));
    order := [];
    if mapping == [] {
      NoneInOrder(gives, skips);
    } else {
      var init, last := mapping[..|mapping| - 1], mapping[|mapping| - 1];
      assert mapping == init + [last];
      order := ChangesInOrder(lines, init);
      BeforeIs(lines, last.key);
      var changes, more := Changes(lines, init), ChangeOf(lines, last);
      if more == [] {
        SkipInOrder(init, last, changes, order, gives, skips);
        assert changes + more == changes;
      } else {
        OneInOrder(init, last, changes, more[0], order, gives, skips);
        order := order + [|init|];
        assert changes + more == changes + [more[0]];
      }
    }
  }

  /* The whole. */

  // The lines edited in place, `tail` behind them, and a newline at the end if there was one
  // or something was added.
  ghost predicate Rewritten(lines: seq<string>, newline: string, trailing: bool, mapping: seq<Setting>,
                            newLines: seq<string>, order: seq<nat>, now: string) {
    && LinesKept(lines, newLines, mapping)
    && InOrder(mapping, newLines[|lines|..], order,
               (s: Setting, l) => LinesOf(lines, s.key) == {} && l == s.key + "=" + s.value,
               (s: Setting) => LinesOf(lines, s.key) != {})
    && now == Join(newLines, newline) + if trailing || order != [] then newline else ""
  }

  // An update writes exactly this and reports these changes, or refuses for the duplicates.
  ghost predicate Means(text: Option<string>, lines: seq<string>, newline: string, trailing: bool,
                        mapping: seq<Setting>, r: Result<(string, seq<Change>), seq<Duplicate>>) {
    && TextLines(text, lines, newline, trailing)
    && match r
       case Ok(done) =>
         && (forall k :: 0 <= k < |mapping| ==> |LinesOf(lines, mapping[k].key)| <= 1)
         && (exists newLines, order :: Rewritten(lines, newline, trailing, mapping, newLines, order, done.0))
         && (exists order :: ChangesAre(lines, mapping, done.1, order))
       case Err(ds) => ds != [] && exists order :: DuplicatesAre(lines, mapping, ds, order)
  }

  lemma {:induction false} AppendedInOrder(lines: seq<string>, mapping: seq<Setting>) returns (order: seq<nat>)
    requires ValidMapping(mapping)
    ensures InOrder(mapping, Appended(lines, mapping), order,
                    (s: Setting, l) => LinesOf(lines, s.key) == {} && l == s.key + "=" + s.value,
                    (s: Setting) => LinesOf(lines, s.key) != {})
  {
    hide InOrder, LinesOf, Occurrences, ValidKey, PlainValue;
    var gives := (s: Setting, l) => LinesOf(lines, s.key) == {} && l == s.key + "=" + s.value;
    var skips := (s: Setting) => LinesOf(lines, s.key) != {};
    order := [];
    if mapping == [] {
      NoneInOrder(gives, skips);
    } else {
      var init, last := mapping[..|mapping| - 1], mapping[|mapping| - 1];
      assert mapping == init + [last];
      order := AppendedInOrder(lines, init);
      OccurrencesCount(lines, last.key);
      if Occurrences(lines, last.key) == [] {
        OneInOrder(init, last, Appended(lines, init), Assignment(last.key, last.value), order, gives, skips);
        order := order + [|init|];
      } else {
        SkipInOrder(init, last, Appended(lines, init), order, gives, skips);
      }
    }
  }

  lemma UpdateRewrites(lines: seq<string>, newline: string, trailing: bool, mapping: seq<Setting>)
    requires ValidMapping(mapping)
    ensures var now := Render(NewLines(lines, mapping), newline, Appended(lines, mapping) != [] || trailing);
      exists order :: Rewritten(lines, newline, trailing, mapping, NewLines(lines, mapping), order, now)
  {
    hide LinesKept, InOrder, LinesOf, Appended, Join;
    KeptLines(lines, mapping);
    var order := AppendedInOrder(lines, mapping);
    assert NewLines(lines, mapping)[|lines|..] == Appended(lines, mapping);
    SameLength(mapping, Appended(lines, mapping), order,
               (s: Setting, l) => LinesOf(lines, s.key) == {} && l == s.key + "=" + s.value,
               (s: Setting) => LinesOf(lines, s.key) != {});
    assert Rewritten(lines, newline, trailing, mapping, NewLines(lines, mapping), order,
                     Render(NewLines(lines, mapping), newline, Appended(lines, mapping) != [] || trailing));
  }

  lemma SameLength<S, T>(xs: seq<S>, out: seq<T>, order: seq<nat>, gives: (S, T) -> bool, skips: S -> bool)
    requires InOrder(xs, out, order, gives, skips)
    ensures |order| == |out|
  {
  }

  lemma UpdateMeans(text: Option<string>, mapping: seq<Setting>)
    requires ValidMapping(mapping)
    ensures var l := LayoutOf(text);
      Means(text, l.lines, l.newline, l.trailing, mapping, Update(text, mapping))
  {
    hide LayoutOf, TextLines, LinesOf, Occurrences, Duplicates, Changes, NewLines, Render, DuplicatesAre, ChangesAre,
      Rewritten, ValidMapping, Appended;
    var l := LayoutOf(text);
    LayoutIs(text);
    NoDuplicatesIff(l.lines, mapping);
    if Update(text, mapping).Ok? {
      forall k | 0 <= k < |mapping| ensures |LinesOf(l.lines, mapping[k].key)| <= 1 {
        KeyValid(mapping, k);
        OccurrencesCount(l.lines, mapping[k].key);
      }
      UpdateRewrites(l.lines, l.newline, l.trailing, mapping);
      var order := ChangesInOrder(l.lines, mapping);
    } else {
      var order := DuplicatesInOrder(l.lines, mapping);
    }
  }

  lemma KeyValid(mapping: seq<Setting>, k: nat)
    requires ValidMapping(mapping) && k < |mapping|
    ensures ValidKey(mapping[k].key)
  {
  }
}
