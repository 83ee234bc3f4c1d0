/**
 * The JavaScript string primitives the invoice generator relies on, over
 * `string` (a sequence of Unicode scalar values):
 *   - `trim()`, with ECMAScript's WhiteSpace and LineTerminator characters;
 *   - `startsWith`, `includes`;
 *   - `split(sep)` with a non-empty literal separator, scanning left to right
 *     for non-overlapping occurrences;
 *   - `replace(/lit/g, rep)` for a literal pattern.
 * `Join` (JavaScript's `Array.prototype.join`) is the partner of `Split`.
 */
module Text {

  /** ECMAScript WhiteSpace and LineTerminator code points: what `trim()` strips. */
  predicate IsJsWhitespace(c: char) {
    || c == '\t' || c == '\n' || c == '\U{000B}' || c == '\U{000C}' || c == '\r'
    || c == ' ' || c == '\U{00A0}' || c == '\U{1680}'
    || ('\U{2000}' <= c <= '\U{200A}')
    || c == '\U{2028}' || c == '\U{2029}' || c == '\U{202F}' || c == '\U{205F}'
    || c == '\U{3000}' || c == '\U{FEFF}'
  }

  /** Drops leading whitespace: the result is a suffix starting with a non-space. */
  function TrimStart(s: string): (r: string)
    ensures |r| <= |s| && r == s[|s| - |r|..]
    ensures r == [] || !IsJsWhitespace(r[0])
  {
    if s != [] && IsJsWhitespace(s[0]) then TrimStart(s[1..]) else s
  }

  /** Drops trailing whitespace: the result is a prefix ending with a non-space. */
  function TrimEnd(s: string): (r: string)
    ensures |r| <= |s| && r == s[..|r|]
    ensures r == [] || !IsJsWhitespace(r[|r| - 1])
  {
    if s != [] && IsJsWhitespace(s[|s| - 1]) then TrimEnd(s[..|s| - 1]) else s
  }

  /** JavaScript `s.trim()`. */
  function Trim(s: string): (r: string)
  {
    TrimEnd(TrimStart(s))
  }

  /** A field the source treats as missing: `!s.trim()`. */
  predicate IsBlank(s: string) {
    Trim(s) == []
  }

  /** What `TrimStart` drops is whitespace: it keeps the longest such suffix. */
  lemma {:induction false} TrimStartDropsWhitespace(s: string)
    ensures forall k :: 0 <= k < |s| - |TrimStart(s)| ==> IsJsWhitespace(s[k])
    decreases |s|
  {
    if s != [] && IsJsWhitespace(s[0]) {
      TrimStartDropsWhitespace(s[1..]);
      forall k | 1 <= k < |s| - |TrimStart(s)| ensures IsJsWhitespace(s[k]) {
        assert s[k] == s[1..][k - 1];
      }
    }
  }

  /** What `TrimEnd` drops is whitespace: it keeps the longest such prefix. */
  lemma {:induction false} TrimEndDropsWhitespace(s: string)
    ensures forall k :: |TrimEnd(s)| <= k < |s| ==> IsJsWhitespace(s[k])
    decreases |s|
  {
    if s != [] && IsJsWhitespace(s[|s| - 1]) {
      TrimEndDropsWhitespace(s[..|s| - 1]);
      forall k | |TrimEnd(s)| <= k < |s| - 1 ensures IsJsWhitespace(s[k]) {
        assert s[k] == s[..|s| - 1][k];
      }
    }
  }

  /**
   * `Trim` keeps one contiguous slice of its input, removes only whitespace
   * before and after it, and leaves no whitespace at either end.
   */
  lemma {:induction false} TrimSpec(s: string)
    ensures var i := |s| - |TrimStart(s)|;
      && i + |Trim(s)| <= |s|
      && (forall k :: 0 <= k < |Trim(s)| ==> Trim(s)[k] == s[i + k])
      && (forall k :: 0 <= k < i ==> IsJsWhitespace(s[k]))
      && (forall k :: i + |Trim(s)| <= k < |s| ==> IsJsWhitespace(s[k]))
    ensures Trim(s) == [] || (!IsJsWhitespace(Trim(s)[0]) && !IsJsWhitespace(Trim(s)[|Trim(s)| - 1]))
  {
    TrimKeepsSlice(s);
    TrimStartDropsWhitespace(s);
    TrimDropsTrailing(s);
    TrimEnds(s);
  }

  lemma {:induction false} TrimKeepsSlice(s: string)
    ensures var i := |s| - |TrimStart(s)|;
      i + |Trim(s)| <= |s| && forall k :: 0 <= k < |Trim(s)| ==> Trim(s)[k] == s[i + k]
  {
    var t := TrimStart(s);
    var r := TrimEnd(t);
    var i := |s| - |t|;
    assert t == s[i..] && r == t[..|r|];
    forall k | 0 <= k < |r| ensures r[k] == s[i + k] {
      assert r[k] == t[k] == s[i + k];
    }
  }

  lemma {:induction false} TrimDropsTrailing(s: string)
    ensures var i := |s| - |TrimStart(s)|; forall k :: i + |Trim(s)| <= k < |s| ==> IsJsWhitespace(s[k])
  {
    var t := TrimStart(s);
    TrimEndDropsWhitespace(t);
    SuffixWhitespace(s, t, |TrimEnd(t)|);
  }

  /** Whitespace at the end of a suffix `t` of `s` is whitespace at the end of `s`. */
  lemma SuffixWhitespace(s: string, t: string, n: nat)
    requires |t| <= |s| && t == s[|s| - |t|..] && n <= |t|
    requires forall k :: n <= k < |t| ==> IsJsWhitespace(t[k])
    ensures forall k :: |s| - |t| + n <= k < |s| ==> IsJsWhitespace(s[k])
  {
    var i := |s| - |t|;
    forall k | i + n <= k < |s| ensures IsJsWhitespace(s[k]) {
      assert s[k] == t[k - i];
    }
  }

  lemma {:induction false} TrimEnds(s: string)
    ensures Trim(s) == [] || (!IsJsWhitespace(Trim(s)[0]) && !IsJsWhitespace(Trim(s)[|Trim(s)| - 1]))
  {
    var t := TrimStart(s);
    var r := TrimEnd(t);
    if r != [] {
      assert r[0] == t[0];
    }
  }

  /** A string is blank exactly when every character in it is whitespace. */
  lemma BlankIffAllWhitespace(s: string)
    ensures IsBlank(s) <==> forall k :: 0 <= k < |s| ==> IsJsWhitespace(s[k])
  {
    TrimSpec(s);
  }

  /** `trim()` leaves a string with no whitespace at its ends unchanged. */
  lemma TrimNoop(s: string)
    requires s == [] || (!IsJsWhitespace(s[0]) && !IsJsWhitespace(s[|s| - 1]))
    ensures Trim(s) == s
  {
  }

  /** Trimming twice is trimming once. */
  lemma TrimIdempotent(s: string)
    ensures Trim(Trim(s)) == Trim(s)
  {
    TrimSpec(s);
    TrimNoop(Trim(s));
  }

  /** `s.startsWith(p)`. */
  predicate StartsWith(s: string, p: string) {
    |p| <= |s| && s[..|p|] == p
  }

  /** `s.includes(d)`: some position of `s` starts an occurrence of `d`. */
  predicate Contains(s: string, d: string)
    decreases |s|
  {
    |d| <= |s| && (s[..|d|] == d || Contains(s[1..], d))
  }

  /** For a one-character needle, `includes` is membership. */
  lemma {:induction false} ContainsChar(s: string, c: char)
    ensures Contains(s, [c]) <==> c in s
    decreases |s|
  {
    if |s| > 0 {
      ContainsChar(s[1..], c);
      assert s == [s[0]] + s[1..];
    }
  }

  /** A string whose characters avoid the needle's first character does not contain it. */
  lemma {:induction false} NotContainsFirst(s: string, d: string)
    requires |d| > 0 && d[0] !in s
    ensures !Contains(s, d)
    decreases |s|
  {
    if |d| <= |s| {
      assert s[..|d|][0] == s[0];
      NotContainsFirst(s[1..], d);
    }
  }

  /** Number of occurrences of `d` found by a left-to-right, non-overlapping scan. */
  function Count(s: string, d: string): nat
    requires |d| > 0
    decreases |s|
  {
    if |s| < |d| then 0
    else if s[..|d|] == d then 1 + Count(s[|d|..], d)
    else Count(s[1..], d)
  }

  /**
   * `s.split(d)` for a non-empty literal separator. The first piece is always
   * a prefix of `s`.
   */
  function Split(s: string, d: string): (r: seq<string>)
    requires |d| > 0
    ensures |r| >= 1
    ensures |r[0]| <= |s| && r[0] == s[..|r[0]|]
    decreases |s|
  {
    if |s| < |d| then [s]
    else if s[..|d|] == d then [""] + Split(s[|d|..], d)
    else
      var rest := Split(s[1..], d);
      [[s[0]] + rest[0]] + rest[1..]
  }

  /** `parts.join(d)`. */
  function Join(parts: seq<string>, d: string): string
  {
    if |parts| == 0 then ""
    else if |parts| == 1 then parts[0]
    else parts[0] + d + Join(parts[1..], d)
  }

  /** `s.replace(/d/g, rep)` for a literal pattern `d`. */
  function ReplaceAll(s: string, d: string, rep: string): string
    requires |d| > 0
    decreases |s|
  {
    if |s| < |d| then s
    else if s[..|d|] == d then rep + ReplaceAll(s[|d|..], d, rep)
    else [s[0]] + ReplaceAll(s[1..], d, rep)
  }

  lemma JoinPrepend(c: char, parts: seq<string>, d: string)
    requires |parts| >= 1
    ensures Join([[c] + parts[0]] + parts[1..], d) == [c] + Join(parts, d)
  {
  }

  /** Splitting yields one more piece than there are separators. */
  lemma {:induction false} SplitCount(s: string, d: string)
    requires |d| > 0
    ensures |Split(s, d)| == Count(s, d) + 1
    decreases |s|
  {
    if |s| < |d| {
    } else if s[..|d|] == d {
      SplitCount(s[|d|..], d);
    } else {
      SplitCount(s[1..], d);
    }
  }

  /** Joining the pieces with the separator gives back the original string. */
  lemma {:induction false} JoinSplit(s: string, d: string)
    requires |d| > 0
    ensures Join(Split(s, d), d) == s
    decreases |s|
  {
    if |s| < |d| {
    } else if s[..|d|] == d {
      var rest := Split(s[|d|..], d);
      assert Split(s, d) == [""] + rest;
      assert ([""] + rest)[1..] == rest;
      JoinSplit(s[|d|..], d);
      assert Join([""] + rest, d) == "" + d + s[|d|..];
      assert s == d + s[|d|..];
    } else {
      var rest := Split(s[1..], d);
      assert Split(s, d) == [[s[0]] + rest[0]] + rest[1..];
      JoinSplit(s[1..], d);
      JoinPrepend(s[0], rest, d);
      assert s == [s[0]] + s[1..];
    }
  }

  /** No piece of a split contains the separator. */
  lemma {:induction false} SplitPiecesFree(s: string, d: string)
    requires |d| > 0
    ensures forall i :: 0 <= i < |Split(s, d)| ==> !Contains(Split(s, d)[i], d)
    decreases |s|
  {
    if |s| < |d| {
    } else if s[..|d|] == d {
      SplitPiecesFree(s[|d|..], d);
      var rest := Split(s[|d|..], d);
      forall i | 0 <= i < |Split(s, d)| ensures !Contains(Split(s, d)[i], d) {
        if i > 0 { assert Split(s, d)[i] == rest[i - 1]; }
      }
    } else {
      SplitPiecesFree(s[1..], d);
      var rest := Split(s[1..], d);
      var first := [s[0]] + rest[0];
      assert first == s[..|first|];
      if |d| <= |first| {
        assert first[..|d|] == s[..|d|];
        assert first[1..] == rest[0];
      }
      forall i | 0 <= i < |Split(s, d)| ensures !Contains(Split(s, d)[i], d) {
        if i > 0 { assert Split(s, d)[i] == rest[i]; }
      }
    }
  }

  /** A string without the separator is a single piece. */
  lemma {:induction false} SplitNoSeparator(s: string, d: string)
    requires |d| > 0 && !Contains(s, d)
    ensures Split(s, d) == [s]
    decreases |s|
  {
    if |d| <= |s| {
      SplitNoSeparator(s[1..], d);
      assert s == [s[0]] + s[1..];
    }
  }

  /**
   * A separator after a prefix that cannot start one ends the first piece.
   */
  lemma {:induction false} SplitAfterPrefix(a: string, d: string, b: string)
    requires |d| > 0 && d[0] !in a
    ensures Split(a + d + b, d) == [a] + Split(b, d)
    decreases |a|
  {
    var s := a + d + b;
    if a == [] {
      assert s == d + b;
      assert s[..|d|] == d && s[|d|..] == b;
    } else {
      assert s[0] == a[0] != d[0];
      assert s[..|d|][0] == s[0];
      SplitAfterPrefix(a[1..], d, b);
      assert s[1..] == a[1..] + d + b;
      assert a == [a[0]] + a[1..];
    }
  }

  /** An occurrence of `d` at position `k` of `t` makes `t` contain `d`. */
  lemma {:induction false} ContainsAt(t: string, d: string, k: nat)
    requires k + |d| <= |t| && t[k..k + |d|] == d
    ensures Contains(t, d)
    decreases k
  {
    if k > 0 {
      assert t[1..][k - 1..k - 1 + |d|] == t[k..k + |d|];
      ContainsAt(t[1..], d, k - 1);
    } else {
      assert t[..|d|] == t[0..|d|];
    }
  }

  /** What a prefix contains, the whole string contains. */
  lemma {:induction false} ContainsPrefix(t: string, n: nat, d: string)
    requires n <= |t| && Contains(t[..n], d)
    ensures Contains(t, d)
    decreases n
  {
    if t[..n][..|d|] == d {
      assert t[..|d|] == t[..n][..|d|];
    } else {
      assert t[..n][1..] == t[1..][..n - 1];
      ContainsPrefix(t[1..], n - 1, d);
    }
  }

  /**
   * `split` cuts at the leftmost occurrence: when no occurrence of `d` starts
   * inside `a` (not even one running into the `d` that follows it), the first
   * piece of `a + d + b` is `a`.
   */
  lemma {:induction false} SplitLeftmost(a: string, d: string, b: string)
    requires |d| > 0 && !Contains(a + d[..|d| - 1], d)
    ensures Split(a + d + b, d) == [a] + Split(b, d)
    decreases |a|
  {
    var s := a + d + b;
    if a == [] {
      assert s == d + b;
      assert s[..|d|] == d && s[|d|..] == b;
    } else {
      LeftmostHead(a, d, b);
      LeftmostTail(a, d);
      assert s[1..] == a[1..] + d + b;
      SplitLeftmost(a[1..], d, b);
      var rest := Split(s[1..], d);
      assert rest == [a[1..]] + Split(b, d);
      assert Split(s, d) == [[s[0]] + rest[0]] + rest[1..];
      assert [s[0]] + rest[0] == a;
    }
  }

  lemma LeftmostHead(a: string, d: string, b: string)
    requires |d| > 0 && a != [] && !Contains(a + d[..|d| - 1], d)
    ensures (a + d + b)[..|d|] != d
  {
    var s, t := a + d + b, a + d[..|d| - 1];
    assert t == s[..|t|];
    assert t[..|d|] == s[..|d|];
  }

  lemma LeftmostTail(a: string, d: string)
    requires |d| > 0 && a != [] && !Contains(a + d[..|d| - 1], d)
    ensures !Contains(a[1..] + d[..|d| - 1], d)
  {
    var t := a + d[..|d| - 1];
    assert t[1..] == a[1..] + d[..|d| - 1];
  }

  /** When `split` returns several pieces, the first is followed by the separator in `s`. */
  lemma {:induction false} SplitFirstCut(s: string, d: string)
    requires |d| > 0 && |Split(s, d)| >= 2
    ensures |Split(s, d)[0]| + |d| <= |s| && s[..|Split(s, d)[0]| + |d|] == Split(s, d)[0] + d
    decreases |s|
  {
    if s[..|d|] != d {
      var rest := Split(s[1..], d);
      SplitFirstCut(s[1..], d);
      assert s[..|rest[0]| + 1 + |d|] == [s[0]] + s[1..][..|rest[0]| + |d|];
    }
  }

  /**
   * Every piece but the last ends at the leftmost occurrence of the separator
   * after it starts: no occurrence starts inside the piece, not even one
   * overlapping the separator that ends it.
   */
  lemma {:induction false} SplitCutsLeftmost(s: string, d: string)
    requires |d| > 0
    ensures forall i :: 0 <= i < |Split(s, d)| - 1 ==> !Contains(Split(s, d)[i] + d[..|d| - 1], d)
    decreases |s|
  {
    var d' := d[..|d| - 1];
    var r := Split(s, d);
    if |s| < |d| {
    } else if s[..|d|] == d {
      var rest := Split(s[|d|..], d);
      SplitCutsLeftmost(s[|d|..], d);
      forall i | 0 <= i < |r| - 1 ensures !Contains(r[i] + d', d) {
        if i > 0 { assert r[i] == rest[i - 1]; } else { assert r[0] + d' == d'; }
      }
    } else {
      var rest := Split(s[1..], d);
      SplitCutsLeftmost(s[1..], d);
      forall i | 0 <= i < |r| - 1 ensures !Contains(r[i] + d', d) {
        if i > 0 {
          assert r[i] == rest[i];
        } else {
          var t := r[0] + d';
          assert t[1..] == rest[0] + d';
          SplitFirstCut(s, d);
          assert t == s[..|t|];
          if |d| <= |t| {
            assert t[..|d|] == s[..|d|];
          }
        }
      }
    }
  }

  /**
   * The leftmost-cut property pins `split` down: pieces that join back to `s`,
   * whose last piece holds no separator and whose other pieces are cut at the
   * leftmost occurrence, are exactly `Split(s, d)`.
   */
  lemma {:induction false} SplitUnique(parts: seq<string>, d: string)
    requires |d| > 0 && |parts| >= 1
    requires forall i :: 0 <= i < |parts| - 1 ==> !Contains(parts[i] + d[..|d| - 1], d)
    requires !Contains(parts[|parts| - 1], d)
    ensures Split(Join(parts, d), d) == parts
    decreases |parts|
  {
    if |parts| == 1 {
      SplitNoSeparator(parts[0], d);
    } else {
      SplitUnique(parts[1..], d);
      SplitLeftmost(parts[0], d, Join(parts[1..], d));
      assert parts == [parts[0]] + parts[1..];
    }
  }

  /**
   * For a one-character separator, splitting undoes joining pieces that do
   * not contain it.
   */
  lemma {:induction false} SplitJoin(parts: seq<string>, c: char)
    requires |parts| >= 1
    requires forall i :: 0 <= i < |parts| ==> c !in parts[i]
    ensures Split(Join(parts, [c]), [c]) == parts
    decreases |parts|
  {
    if |parts| == 1 {
      NotContainsFirst(parts[0], [c]);
      SplitNoSeparator(parts[0], [c]);
    } else {
      SplitJoin(parts[1..], c);
      SplitAfterPrefix(parts[0], [c], Join(parts[1..], [c]));
      assert parts == [parts[0]] + parts[1..];
    }
  }

  /** Global replacement is splitting and joining with the replacement. */
  lemma {:induction false} ReplaceAllIsSplitJoin(s: string, d: string, rep: string)
    requires |d| > 0
    ensures ReplaceAll(s, d, rep) == Join(Split(s, d), rep)
    decreases |s|
  {
    if |s| < |d| {
    } else if s[..|d|] == d {
      ReplaceAllIsSplitJoin(s[|d|..], d, rep);
    } else {
      ReplaceAllIsSplitJoin(s[1..], d, rep);
      JoinPrepend(s[0], Split(s[1..], d), rep);
    }
  }

  /** A character in neither the input nor the replacement is not in the output. */
  lemma {:induction false} ReplaceAllAvoids(s: string, d: string, rep: string, c: char)
    requires |d| > 0 && c !in s && c !in rep
    ensures c !in ReplaceAll(s, d, rep)
    decreases |s|
  {
    if |s| < |d| {
    } else if s[..|d|] == d {
      ReplaceAllAvoids(s[|d|..], d, rep, c);
    } else {
      ReplaceAllAvoids(s[1..], d, rep, c);
    }
  }

  /** Text without the needle's first character is left as it is. */
  lemma {:induction false} ReplaceAllFree(s: string, d: string, rep: string)
    requires |d| > 0 && d[0] !in s
    ensures ReplaceAll(s, d, rep) == s
    decreases |s|
  {
    if |s| >= |d| {
      assert s[..|d|][0] == s[0];
      ReplaceAllFree(s[1..], d, rep);
      assert s == [s[0]] + s[1..];
    }
  }

  /** The first occurrence is replaced when nothing before it could start one. */
  lemma {:induction false} ReplaceAllFirst(a: string, d: string, b: string, rep: string)
    requires |d| > 0 && d[0] !in a
    ensures ReplaceAll(a + d + b, d, rep) == a + rep + ReplaceAll(b, d, rep)
    decreases |a|
  {
    var s := a + d + b;
    if a == [] {
      assert s[..|d|] == d && s[|d|..] == b;
    } else {
      assert s[..|d|][0] == a[0] != d[0];
      assert s[1..] == a[1..] + d + b;
      assert ReplaceAll(s, d, rep) == [a[0]] + ReplaceAll(a[1..] + d + b, d, rep);
      ReplaceAllFirst(a[1..], d, b, rep);
      assert a == [a[0]] + a[1..];
    }
  }


  /** Trimming cannot create an occurrence of a needle. */
  lemma NotContainsTrim(s: string, d: string)
    requires !Contains(s, d)
    ensures !Contains(Trim(s), d)
  {
    var t := TrimStart(s);
    NotContainsSuffix(s, |s| - |t|, d);
    NotContainsPrefix(t, |Trim(s)|, d);
  }

  /** A suffix of a string that does not contain a needle does not contain it either. */
  lemma {:induction false} NotContainsSuffix(s: string, i: nat, d: string)
    requires i <= |s| && !Contains(s, d)
    ensures !Contains(s[i..], d)
    decreases i
  {
    if i > 0 {
      assert |d| > |s| || !Contains(s[1..], d);
      if |d| <= |s| {
        NotContainsSuffix(s[1..], i - 1, d);
        assert s[1..][i - 1..] == s[i..];
      }
    }
  }

  /** Likewise for a prefix. */
  lemma {:induction false} NotContainsPrefix(s: string, j: nat, d: string)
    requires j <= |s| && !Contains(s, d)
    ensures !Contains(s[..j], d)
    decreases |s|
  {
    if |d| <= j {
      assert s[..j][..|d|] == s[..|d|];
      NotContainsPrefix(s[1..], j - 1, d);
      assert s[..j][1..] == s[1..][..j - 1];
    }
  }

  /** Joining two non-empty lists of pieces joins each and puts one separator between. */
  lemma {:induction false} JoinAppend(a: seq<string>, b: seq<string>, d: string)
    requires |a| >= 1 && |b| >= 1
    ensures Join(a + b, d) == Join(a, d) + d + Join(b, d)
    decreases |a|
  {
    if |a| == 1 {
      assert (a + b)[1..] == b;
    } else {
      JoinAppend(a[1..], b, d);
      assert (a + b)[1..] == a[1..] + b;
    }
  }

  /** A character absent from a string is absent from every piece of its split. */
  lemma {:induction false} SplitPiecesAvoid(s: string, d: string, c: char)
    requires |d| > 0 && c !in s
    ensures forall i :: 0 <= i < |Split(s, d)| ==> c !in Split(s, d)[i]
    decreases |s|
  {
    if |s| < |d| {
    } else if s[..|d|] == d {
      SplitPiecesAvoid(s[|d|..], d, c);
      var rest := Split(s[|d|..], d);
      forall i | 0 <= i < |Split(s, d)| ensures c !in Split(s, d)[i] {
        if i > 0 { assert Split(s, d)[i] == rest[i - 1]; }
      }
    } else {
      SplitPiecesAvoid(s[1..], d, c);
      var rest := Split(s[1..], d);
      forall i | 0 <= i < |Split(s, d)| ensures c !in Split(s, d)[i] {
        if i > 0 { assert Split(s, d)[i] == rest[i]; }
      }
    }
  }

  /** Three pieces joined: the first, the separator, the second, the separator, the third. */
  lemma JoinThree(l: seq<string>, d: string)
    requires |l| == 3
    ensures Join(l, d) == l[0] + d + l[1] + d + l[2]
  {
    assert l[1..][0] == l[1] && l[1..][1..] == [l[2]];
    assert Join(l[1..], d) == l[1] + d + l[2];
  }

  /** Trimming cannot introduce a character. */
  lemma TrimAvoids(s: string, c: char)
    requires c !in s
    ensures c !in Trim(s)
  {
    TrimSpec(s);
  }

}
