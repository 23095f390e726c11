// Where the comment of a dotenv value starts, told by how the characters before it are put
// together.
module DotenvComment {
  import opened Wrappers
  import opened Chars
  import opened CharsSpec
  import opened DotenvLine

  // One character that neither quotes nor comments, or a quoted group up to the first quote
  // like the one that opened it.
  ghost predicate Piece(p: string) {
    || (|p| == 1 && p[0] !in {'\'', '"', '#'})
    || Quoted(p, '\'')
    || Quoted(p, '"')
  }

  ghost predicate Quoted(p: string, quote: char) {
    |p| >= 2 && p[0] == quote == p[|p| - 1] && quote !in p[1..|p| - 1]
  }

  ghost function Concat(ps: seq<string>): string {
    if ps == [] then "" else Concat(ps[..|ps| - 1]) + ps[|ps| - 1]
  }

  ghost predicate AllPieces(ps: seq<string>) {
    forall k :: 0 <= k < |ps| ==> Piece(ps[k])
  }

  // Every quote in it is closed, and every '#' is quoted.
  ghost predicate Closed(s: string) {
    exists ps :: AllPieces(ps) && Concat(ps) == s
  }

  // A '#' no quote is open at.
  ghost predicate CommentAt(rest: string, n: int) {
    0 <= n < |rest| && rest[n] == '#' && Closed(rest[..n])
  }

  /* From pieces to the scan. */

  // Behind an opened quote the scan only waits for the same one.
  lemma {:induction false} SkipInside(rest: string, i: nat, j: nat, quote: char)
    requires i <= j <= |rest| && (quote == '\'' || quote == '"') && quote !in rest[i..j]
    ensures CommentStart(rest, i, quote == '\'', quote == '"') == CommentStart(rest, j, quote == '\'', quote == '"')
    decreases j - i
  {
    if i < j {
      assert rest[i] == rest[i..j][0] && rest[i + 1..j] == rest[i..j][1..];
      SkipInside(rest, i + 1, j, quote);
    }
  }

  lemma SkipPiece(rest: string, i: nat, p: string)
    requires i + |p| <= |rest| && rest[i..i + |p|] == p && Piece(p)
    ensures CommentStart(rest, i, false, false) == CommentStart(rest, i + |p|, false, false)
  {
    var j := i + |p|;
    assert rest[i] == p[0] && rest[j - 1] == p[|p| - 1];
    if |p| == 1 {
      SkipPlain(rest, i, j);
    } else {
      assert rest[i + 1..j - 1] == rest[i..j][1..|p| - 1];
      SkipInside(rest, i + 1, j - 1, p[0]);
    }
  }

  lemma {:induction false} SkipPieces(rest: string, ps: seq<string>)
    requires AllPieces(ps) && Concat(ps) <= rest
    ensures CommentStart(rest, 0, false, false) == CommentStart(rest, |Concat(ps)|, false, false)
  {
    hide Piece, CommentStart;
    if ps != [] {
      var init, p := ps[..|ps| - 1], ps[|ps| - 1];
      var n := |Concat(init)|;
      assert Concat(ps) == Concat(init) + p;
      assert rest[..n + |p|] == Concat(init) + p;
      assert Concat(init) == rest[..n] && p == rest[n..n + |p|];
      SkipPieces(rest, init);
      SkipPiece(rest, n, p);
    }
  }

  lemma CommentFound(rest: string, n: int)
    requires CommentAt(rest, n)
    ensures CommentStart(rest, 0, false, false) == n
  {
    hide Piece;
    var ps :| AllPieces(ps) && Concat(ps) == rest[..n];
    SkipPieces(rest, ps);
    CommentHere(rest, n);
  }

  /* From the scan to pieces. */

  lemma OneMore(s: string, p: string)
    requires Closed(s) && Piece(p)
    ensures Closed(s + p)
  {
    hide Piece;
    var ps :| AllPieces(ps) && Concat(ps) == s;
    var more := ps + [p];
    assert more[..|ps|] == ps;
    assert AllPieces(more) && Concat(more) == s + p;
  }

  lemma NothingClosed()
    ensures Closed("")
  {
    assert AllPieces([]) && Concat([]) == "";
  }

  lemma {:induction false} ScanOutside(rest: string, i: nat)
    requires i <= |rest| && Closed(rest[..i])
    ensures var n := CommentStart(rest, i, false, false); n < |rest| ==> Closed(rest[..n])
    decreases |rest| - i
  {
    hide Closed, Piece;
    if i < |rest| {
      var c := rest[i];
      if c == '\'' || c == '"' {
        ScanInside(rest, i, i + 1, c);
      } else if c != '#' {
        CharPiece(c);
        OneMore(rest[..i], [c]);
        assert rest[..i + 1] == rest[..i] + [c];
        ScanOutside(rest, i + 1);
      }
    }
  }

  lemma CharPiece(c: char)
    requires c !in {'\'', '"', '#'}
    ensures Piece([c])
  {
  }

  // `q` is where the open quote stands.
  lemma {:induction false} ScanInside(rest: string, q: nat, i: nat, quote: char)
    requires q < i <= |rest| && Closed(rest[..q]) && rest[q] == quote && (quote == '\'' || quote == '"')
    requires quote !in rest[q + 1..i]
    ensures var n := CommentStart(rest, i, quote == '\'', quote == '"'); n < |rest| ==> Closed(rest[..n])
    decreases |rest| - i
  {
    hide Closed, Piece;
    if i < |rest| {
      if rest[i] == quote {
        QuotedPiece(rest[q..i + 1], quote, rest[q + 1..i]);
        OneMore(rest[..q], rest[q..i + 1]);
        assert rest[..i + 1] == rest[..q] + rest[q..i + 1];
        ScanOutside(rest, i + 1);
      } else {
        assert rest[q + 1..i + 1] == rest[q + 1..i] + [rest[i]];
        ScanInside(rest, q, i + 1, quote);
      }
    }
  }

  lemma QuotedPiece(p: string, quote: char, inside: string)
    requires (quote == '\'' || quote == '"') && p == [quote] + inside + [quote] && quote !in inside
    ensures Piece(p)
  {
    assert p[1..|p| - 1] == inside;
  }

  // The comment starts exactly at the '#' no quote is open at, and there is only one such.
  lemma CommentIff(rest: string, n: int)
    ensures CommentStart(rest, 0, false, false) == n && n < |rest| <==> CommentAt(rest, n)
  {
    hide Closed, CommentStart;
    if CommentAt(rest, n) {
      CommentFound(rest, n);
    }
    NothingClosed();
    assert rest[..0] == "";
    ScanOutside(rest, 0);
  }

  // Value and comment: split at that '#', or no comment where there is none.
  ghost predicate Splits(rest: string, value: string, comment: string) {
    && rest == value + comment
    && if comment == "" then forall n :: !CommentAt(rest, n) else CommentAt(rest, |value|)
  }

  lemma SplitsIff(rest: string, value: string, comment: string)
    ensures Splits(rest, value, comment) <==> ValuePart(rest) == value && CommentPart(rest) == comment
  {
    hide CommentAt, CommentStart;
    var n := CommentStart(rest, 0, false, false);
    CommentIff(rest, n);
    forall k | CommentAt(rest, k) ensures k == n < |rest| {
      CommentIff(rest, k);
    }
    if Splits(rest, value, comment) && comment == "" {
      assert n == |rest|;
    }
    assert rest == rest[..n] + rest[n..];
  }

  /* Whole lines. */

  ghost predicate Assigning(line: string, key: string) {
    exists m :: RegexMatches(line, key, m)
  }

  lemma AssignsIff(line: string, key: string)
    requires ValidKey(key)
    ensures Assigns(line, key) <==> Assigning(line, key)
  {
    hide RegexMatches, MatchKey;
    if Assigns(line, key) {
      MatchesPattern(line, key, MatchKey(line, key).value);
    }
    forall m | RegexMatches(line, key, m) ensures Assigns(line, key) {
      MatchesPattern(line, key, m);
    }
  }

  // The value a line gives the key: behind `KEY=`, up to the comment, trimmed.
  ghost predicate Reads(line: string, key: string, v: string) {
    exists m, value, comment :: RegexMatches(line, key, m) && Splits(m.rest, value, comment) && Trims(value, v)
  }

  lemma ReadBackIff(line: string, key: string, v: string)
    requires ValidKey(key)
    ensures ReadBack(line, key) == Some(v) <==> Reads(line, key, v)
  {
    hide RegexMatches, MatchKey, Splits, Trims, ValuePart, CommentPart, Strip;
    if Assigns(line, key) {
      var m := MatchKey(line, key).value;
      MatchesPattern(line, key, m);
      SplitsIff(m.rest, ValuePart(m.rest), CommentPart(m.rest));
      StripIff(ValuePart(m.rest), v);
    }
    forall m, value, comment | RegexMatches(line, key, m) && Splits(m.rest, value, comment) && Trims(value, v)
      ensures ReadBack(line, key) == Some(v)
    {
      MatchesPattern(line, key, m);
      SplitsIff(m.rest, value, comment);
      StripIff(value, v);
    }
  }

  // Behind the same prefix the key gets the new value, and the comment stands two spaces
  // behind it.
  ghost predicate LineEdited(line: string, key: string, v: string, now: string) {
    exists m, value, comment :: RegexMatches(line, key, m) && Splits(m.rest, value, comment) &&
      now == m.prefix + key + "=" + v + if comment == "" then "" else "  " + comment
  }

  lemma RewriteEdits(line: string, key: string, v: string)
    requires ValidKey(key) && Assigns(line, key)
    ensures LineEdited(line, key, v, Rewrite(MatchKey(line, key).value, key, v))
  {
    hide RegexMatches, MatchKey, Splits, ValuePart, CommentPart;
    var m := MatchKey(line, key).value;
    MatchesPattern(line, key, m);
    SplitsIff(m.rest, ValuePart(m.rest), CommentPart(m.rest));
  }
}
