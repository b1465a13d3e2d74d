/**
 * String primitives of JavaScript, as the core uses them: `trim`, `startsWith`,
 * `endsWith`, `includes`, `split` on one character, `join`, ASCII case mapping
 * and the `/\/$/` and `/\/+$/` replacements.
 */
module Text {

  /** The characters JavaScript's `trim` removes and `\s` matches (WhiteSpace and LineTerminator). */
  predicate IsSpace(c: char) {
    if c <= ' ' then c == ' ' || '\t' <= c <= '\r'
    else if c < '\U{00A0}' then false
    else IsWideSpace(c)
  }

  /** The white space characters above U+009F. */
  predicate IsWideSpace(c: char) {
    || c == '\U{00A0}' || c == '\U{1680}' || ('\U{2000}' <= c <= '\U{200A}')
    || c == '\U{2028}' || c == '\U{2029}' || c == '\U{202F}' || c == '\U{205F}'
    || c == '\U{3000}' || c == '\U{FEFF}'
  }

  /** A string that `trim` turns into "" (this includes ""). */
  predicate IsBlank(s: string) {
    forall i :: 0 <= i < |s| ==> IsSpace(s[i])
  }

  /** `trimStart`: drops the maximal run of leading white space. */
  function TrimStart(s: string): (r: string)
    ensures |r| <= |s| && r == s[|s| - |r|..]
    ensures r == [] || !IsSpace(r[0])
    ensures forall i :: 0 <= i < |s| - |r| ==> IsSpace(s[i])
    decreases |s|
  {
    if |s| > 0 && IsSpace(s[0]) then TrimStart(s[1..]) else s
  }

  /** `trimEnd`: drops the maximal run of trailing white space. */
  function TrimEnd(s: string): (r: string)
    ensures |r| <= |s| && r == s[..|r|]
    ensures r == [] || !IsSpace(r[|r| - 1])
    ensures forall i :: |r| <= i < |s| ==> IsSpace(s[i])
    decreases |s|
  {
    if |s| > 0 && IsSpace(s[|s| - 1]) then TrimEnd(s[..|s| - 1]) else s
  }

  /** `trim`. */
  function Trim(s: string): (r: string)
    ensures |r| <= |s|
    ensures r == [] <==> IsBlank(s)
    ensures r != [] ==> !IsSpace(r[0]) && !IsSpace(r[|r| - 1])
  {
    var t := TrimStart(s);
    var r := TrimEnd(t);
    assert r == [] ==> t == [];
    r
  }

  /** `trim` keeps a prefix of what `trimStart` keeps. */
  lemma TrimOfStart(s: string)
    ensures Trim(s) == TrimStart(s)[..|Trim(s)|]
  {
  }

  /** A trimmed string is its own trim. */
  lemma {:induction false} TrimOfTrimmed(s: string)
    requires s == [] || (!IsSpace(s[0]) && !IsSpace(s[|s| - 1]))
    ensures Trim(s) == s
  {
    assert TrimStart(s) == s;
  }

  /** A leading line feed before a trimmed string is all `trim` removes. */
  lemma TrimLeadingBreak(s: string)
    requires s != [] && !IsSpace(s[0]) && !IsSpace(s[|s| - 1])
    ensures Trim("\n" + s) == s
  {
    assert ("\n" + s)[1..] == s;
    TrimOfTrimmed(s);
  }

  lemma TrimIdempotent(s: string)
    ensures Trim(Trim(s)) == Trim(s)
  {
    TrimOfTrimmed(Trim(s));
  }

  predicate StartsWith(s: string, prefix: string) {
    |prefix| <= |s| && s[..|prefix|] == prefix
  }

  predicate EndsWith(s: string, suffix: string) {
    |suffix| <= |s| && s[|s| - |suffix|..] == suffix
  }

  /** `includes`: `sub` occurs somewhere in `s`. */
  predicate Contains(s: string, sub: string)
    decreases |s|
  {
    StartsWith(s, sub) || (|s| > 0 && Contains(s[1..], sub))
  }

  /** Whatever is spliced into a string occurs in it. */
  lemma {:induction false} ContainsSplice(a: string, sub: string, b: string)
    ensures Contains(a + sub + b, sub)
    decreases |a|
  {
    if a == [] {
      assert (a + sub + b)[..|sub|] == sub;
    } else {
      assert (a + sub + b)[1..] == a[1..] + sub + b;
      ContainsSplice(a[1..], sub, b);
    }
  }

  /** A string that occurs in a part of a string occurs in the string. */
  lemma {:induction false} ContainsInLeft(a: string, b: string, sub: string)
    requires Contains(a, sub)
    ensures Contains(a + b, sub)
    decreases |a|
  {
    if StartsWith(a, sub) {
      assert (a + b)[..|sub|] == a[..|sub|];
    } else {
      assert (a + b)[1..] == a[1..] + b;
      ContainsInLeft(a[1..], b, sub);
    }
  }

  lemma {:induction false} ContainsInRight(a: string, b: string, sub: string)
    requires Contains(b, sub)
    ensures Contains(a + b, sub)
    decreases |a|
  {
    if a == [] {
      assert a + b == b;
    } else {
      assert (a + b)[1..] == a[1..] + b;
      ContainsInRight(a[1..], b, sub);
    }
  }

  /** Nothing longer than a string occurs in it. */
  lemma {:induction false} ContainsShorter(s: string, sub: string)
    requires Contains(s, sub)
    ensures |sub| <= |s|
    decreases |s|
  {
    if !StartsWith(s, sub) {
      ContainsShorter(s[1..], sub);
    }
  }

  /** A one-character string occurs exactly when that character does. */
  lemma {:induction false} ContainsChar(s: string, c: char)
    ensures Contains(s, [c]) <==> c in s
    decreases |s|
  {
    if s != [] {
      ContainsChar(s[1..], c);
      assert s == [s[0]] + s[1..];
    }
  }

  /** `parts.join(sep)`. */
  function Join(parts: seq<string>, sep: string): string
    decreases |parts|
  {
    if |parts| == 0 then ""
    else if |parts| == 1 then parts[0]
    else parts[0] + sep + Join(parts[1..], sep)
  }

  lemma JoinSingle(p: string, sep: string)
    ensures Join([p], sep) == p
  {
  }

  /** The longest prefix of `s` without whitespace. */
  function LeadingWord(s: string): (w: string)
    ensures |w| <= |s| && w == s[..|w|]
    ensures forall i :: 0 <= i < |w| ==> !IsSpace(w[i])
    ensures |w| < |s| ==> IsSpace(s[|w|])
    decreases |s|
  {
    if s == [] || IsSpace(s[0]) then [] else [s[0]] + LeadingWord(s[1..])
  }

  /** A non-empty piece of text that contains no whitespace. */
  predicate IsWord(w: string) {
    w != [] && forall i :: 0 <= i < |w| ==> !IsSpace(w[i])
  }

  /** `s.split(/\s+/).filter(Boolean)`: the maximal runs of non-whitespace, in order. */
  function Tokens(s: string): seq<string>
    decreases |s|
  {
    var t := TrimStart(s);
    if t == [] then []
    else
      var w := LeadingWord(t);
      [w] + Tokens(t[|w|..])
  }

  /** Every token is a non-empty run without whitespace. */
  lemma {:induction false} TokensAreWords(s: string)
    ensures forall k :: 0 <= k < |Tokens(s)| ==> IsWord(Tokens(s)[k])
    decreases |s|
  {
    var t := TrimStart(s);
    if t != [] {
      var w := LeadingWord(t);
      TokensAreWords(t[|w|..]);
    }
  }

  /** Leading whitespace does not change the tokens. */
  lemma {:induction false} TokensAfterSpace(c: char, s: string)
    requires IsSpace(c)
    ensures Tokens([c] + s) == Tokens(s)
  {
    assert ([c] + s)[1..] == s;
  }

  /** Words joined by single spaces split back into the same words. */
  lemma {:induction false} TokensOfJoin(ws: seq<string>)
    requires forall k :: 0 <= k < |ws| ==> IsWord(ws[k])
    ensures Tokens(Join(ws, " ")) == ws
    decreases |ws|
  {
    if |ws| == 1 {
      TokensOfWord(ws[0]);
    } else if |ws| > 1 {
      TokensOfJoin(ws[1..]);
      TokensOfWordThen(ws[0], Join(ws[1..], " "));
      SeqCons(ws);
    }
  }

  /** A non-empty list is its head followed by its tail. */
  lemma SeqCons<T>(xs: seq<T>)
    requires xs != []
    ensures [xs[0]] + xs[1..] == xs
  {
  }

  /** A single word is its own only token. */
  lemma {:induction false} TokensOfWord(w: string)
    requires IsWord(w)
    ensures Tokens(w) == [w]
  {
    assert TrimStart(w) == w by { assert !IsSpace(w[0]); }
    assert LeadingWord(w) == w by {
      LeadingWordOfWord(w, "");
      assert w + "" == w;
    }
    assert w[|w|..] == [];
  }

  /** A word followed by a space contributes itself as the first token. */
  lemma {:induction false} TokensOfWordThen(w: string, rest: string)
    requires IsWord(w)
    ensures Tokens(w + " " + rest) == [w] + Tokens(rest)
  {
    var s := w + " " + rest;
    assert TrimStart(s) == s by { assert s[0] == w[0]; }
    assert LeadingWord(s) == w by {
      assert s == w + (" " + rest);
      LeadingWordOfWord(w, " " + rest);
    }
    assert Tokens(s[|w|..]) == Tokens(rest) by {
      assert s[|w|..] == [' '] + rest;
      TokensAfterSpace(' ', rest);
    }
  }

  /** The leading word of a word followed by nothing or by whitespace is that word. */
  lemma {:induction false} LeadingWordOfWord(w: string, tail: string)
    requires IsWord(w)
    requires tail == [] || IsSpace(tail[0])
    ensures LeadingWord(w + tail) == w
    decreases |w|
  {
    var s := w + tail;
    if |w| == 1 {
      assert s[1..] == tail;
    } else {
      assert s[1..] == w[1..] + tail;
      LeadingWordOfWord(w[1..], tail);
    }
  }

  function FirstIndex(s: string, c: char): (i: nat)
    requires c in s
    ensures i < |s| && s[i] == c && c !in s[..i]
  {
    if s[0] == c then 0 else 1 + FirstIndex(s[1..], c)
  }

  /** The first occurrence is the position before which `c` does not occur. */
  lemma {:induction false} FirstIndexAt(s: string, c: char, i: nat)
    requires i < |s| && s[i] == c && c !in s[..i]
    ensures FirstIndex(s, c) == i
  {
    if i > 0 {
      assert s[0] == s[..i][0];
      assert s[1..][..i - 1] == s[1..i];
      assert forall k :: 0 <= k < i - 1 ==> s[1..i][k] == s[..i][k + 1];
      FirstIndexAt(s[1..], c, i - 1);
    }
  }

  /** `s.split(c)[0]`: everything before the first `c`. */
  lemma SplitHead(s: string, c: char, i: nat)
    requires i < |s| && s[i] == c && c !in s[..i]
    ensures Split(s, c)[0] == s[..i]
  {
    FirstIndexAt(s, c, i);
  }

  /** `s.split(c)` for a one-character separator. */
  function Split(s: string, c: char): (parts: seq<string>)
    ensures |parts| >= 1
    ensures forall k :: 0 <= k < |parts| ==> c !in parts[k]
    decreases |s|
  {
    if c !in s then [s]
    else
      var i := FirstIndex(s, c);
      [s[..i]] + Split(s[i + 1..], c)
  }

  /** Joining the pieces of a split with the separator gives back the string. */
  lemma {:induction false} SplitJoin(s: string, c: char)
    ensures Join(Split(s, c), [c]) == s
    decreases |s|
  {
    if c in s {
      var i := FirstIndex(s, c);
      var rest := Split(s[i + 1..], c);
      SplitJoin(s[i + 1..], c);
      assert Split(s, c) == [s[..i]] + rest;
      assert s == s[..i] + [c] + s[i + 1..];
    }
  }

  /** Splitting at `c` undoes joining with `c`, when no part contains `c`. */
  lemma {:induction false} JoinSplit(parts: seq<string>, c: char)
    requires |parts| >= 1 && forall k :: 0 <= k < |parts| ==> c !in parts[k]
    ensures Split(Join(parts, [c]), c) == parts
    decreases |parts|
  {
    if |parts| > 1 {
      JoinSplit(parts[1..], c);
      SplitAfterPiece(parts[0], Join(parts[1..], [c]), c);
      SeqCons(parts);
    }
  }

  /** A piece without `c`, then `c`: the piece is the first part of the split. */
  lemma SplitAfterPiece(p: string, rest: string, c: char)
    requires c !in p
    ensures Split(p + [c] + rest, c) == [p] + Split(rest, c)
  {
    var s := p + [c] + rest;
    assert s[..|p|] == p && s[|p|] == c && s[|p| + 1..] == rest;
    FirstIndexAt(s, c, |p|);
  }

  /**
   * Concatenation regroups. Stated apart so that proofs about long concatenated texts can
   * call it instead of leaving the regrouping to the solver.
   */
  lemma ConcatAssociative(a: string, b: string, c: string)
    ensures a + (b + c) == a + b + c
  {
  }

  /** Joining two non-empty lists puts one separator between their joins. */
  lemma {:induction false} JoinAppend(a: seq<string>, b: seq<string>, sep: string)
    requires |a| >= 1 && |b| >= 1
    ensures Join(a + b, sep) == Join(a, sep) + sep + Join(b, sep)
    decreases |a|
  {
    assert (a + b)[0] == a[0];
    if |a| == 1 {
      assert (a + b)[1..] == b;
    } else {
      assert (a + b)[1..] == a[1..] + b;
      JoinAppend(a[1..], b, sep);
      assert Join(a + b, sep) == a[0] + sep + (Join(a[1..], sep) + sep + Join(b, sep));
    }
  }

  /** A text between an opening and a closing piece starts with one, ends with the other and holds the text between them. */
  lemma Enclosed(open: string, mid: string, close: string)
    ensures var s := open + mid + close;
            StartsWith(s, open) && EndsWith(s, close) && |s| == |open| + |mid| + |close|
            && s[|open|..|s| - |close|] == mid
  {
    var s := open + mid + close;
    assert s[..|open|] == open;
    assert s[|s| - |close|..] == close;
    assert s[|open|..|s| - |close|] == mid;
  }

  /** Joining with the empty separator distributes over concatenation. */
  lemma JoinNoSeparatorAppend(a: seq<string>, b: seq<string>)
    ensures Join(a + b, "") == Join(a, "") + Join(b, "")
  {
    if a == [] {
      assert a + b == b;
    } else if b == [] {
      assert a + b == a;
    } else {
      JoinAppend(a, b, "");
    }
  }

  /** A sequence is what comes before an element, the element, and what comes after it. */
  lemma SplitAround<T>(s: seq<T>, i: nat)
    requires i < |s|
    ensures s == s[..i] + ([s[i]] + s[i + 1..])
  {
    assert s[i..] == [s[i]] + s[i + 1..];
    assert s == s[..i] + s[i..];
  }

  /** Joined with the empty separator, each part sits between the parts before it and after it. */
  lemma JoinNoSeparatorAt(parts: seq<string>, i: nat)
    requires i < |parts|
    ensures Join(parts, "") == Join(parts[..i], "") + parts[i] + Join(parts[i + 1..], "")
  {
    var x, y := parts[..i], [parts[i]] + parts[i + 1..];
    SplitAround(parts, i);
    JoinNoSeparatorAppend(x, y);
    JoinNoSeparatorAppend([parts[i]], parts[i + 1..]);
    JoinSingle(parts[i], "");
    ConcatAssociative(Join(x, ""), parts[i], Join(parts[i + 1..], ""));
  }

  /**
   * Splitting `x + y`: the pieces of `x` before its last one, then the pieces of its last
   * piece followed by `y`.
   */
  lemma SplitAppend(x: string, y: string, c: char)
    ensures var p := Split(x, c);
            Split(x + y, c) == p[..|p| - 1] + Split(p[|p| - 1] + y, c)
  {
    var p := Split(x, c);
    if |p| == 1 {
      SplitJoin(x, c);
      assert x == p[0] && p[..0] == [];
    } else {
      SplitAppendAfterBreak(x, y, c);
    }
  }

  lemma SplitAppendAfterBreak(x: string, y: string, c: char)
    requires |Split(x, c)| > 1
    ensures var p := Split(x, c);
            Split(x + y, c) == p[..|p| - 1] + Split(p[|p| - 1] + y, c)
  {
    var p := Split(x, c);
    var init, last := p[..|p| - 1], p[|p| - 1];
    var q := Split(last + y, c);
    SplitJoin(x, c);
    SplitJoin(last + y, c);
    SeqSnoc(p);
    JoinAppendLast(init, last, y, q, [c]);
    PiecesWithout(init, q, c);
    JoinSplit(init + q, c);
  }

  /** A non-empty list is its front followed by its last element. */
  lemma SeqSnoc<T>(xs: seq<T>)
    requires xs != []
    ensures xs[..|xs| - 1] + [xs[|xs| - 1]] == xs
  {
  }

  /** Text appended after the last part of a join can be joined as a list of parts instead. */
  lemma JoinAppendLast(init: seq<string>, last: string, y: string, q: seq<string>, sep: string)
    requires |init| >= 1 && |q| >= 1 && Join(q, sep) == last + y
    ensures Join(init + [last], sep) + y == Join(init + q, sep)
  {
    JoinAppend(init, [last], sep);
    JoinAppend(init, q, sep);
    ConcatAssociative(Join(init, sep) + sep, last, y);
  }

  /** Neither list has a part with `c`, so their concatenation has none. */
  lemma PiecesWithout(a: seq<string>, b: seq<string>, c: char)
    requires forall k :: 0 <= k < |a| ==> c !in a[k]
    requires forall k :: 0 <= k < |b| ==> c !in b[k]
    ensures forall k :: 0 <= k < |a + b| ==> c !in (a + b)[k]
  {
  }

  function LowerChar(c: char): char {
    if 'A' <= c <= 'Z' then (c as int + 32) as char else c
  }

  function UpperChar(c: char): char {
    if 'a' <= c <= 'z' then (c as int - 32) as char else c
  }

  /** `toLowerCase`, for ASCII letters. */
  function ToLower(s: string): (r: string)
    ensures |r| == |s|
    ensures forall i :: 0 <= i < |s| ==> r[i] == LowerChar(s[i])
  {
    seq(|s|, i requires 0 <= i < |s| => LowerChar(s[i]))
  }

  /** `toUpperCase`, for ASCII letters. */
  function ToUpper(s: string): (r: string)
    ensures |r| == |s|
    ensures forall i :: 0 <= i < |s| ==> r[i] == UpperChar(s[i])
  {
    seq(|s|, i requires 0 <= i < |s| => UpperChar(s[i]))
  }

  /** `/[A-Z]/.test(s)`. */
  predicate HasUpperAscii(s: string) {
    exists i :: 0 <= i < |s| && 'A' <= s[i] <= 'Z'
  }

  /** `s.replace(/\/$/, "")`: at most one trailing slash removed. */
  function StripTrailingSlash(s: string): (r: string)
    ensures r == s || r + "/" == s
    ensures EndsWith(s, "/") <==> r != s
  {
    if |s| > 0 && s[|s| - 1] == '/' then s[..|s| - 1] else s
  }

  /** `s.replace(/\/+$/, "")`: every trailing slash removed. */
  function StripTrailingSlashes(s: string): (r: string)
    ensures |r| <= |s| && r == s[..|r|]
    ensures r == [] || r[|r| - 1] != '/'
    ensures forall i :: |r| <= i < |s| ==> s[i] == '/'
    decreases |s|
  {
    if |s| > 0 && s[|s| - 1] == '/' then StripTrailingSlashes(s[..|s| - 1]) else s
  }

  /** `s.replace(/c/g, w)`: every `c` replaced by `w`. */
  function ReplaceChar(s: string, c: char, w: string): (r: string)
    ensures c !in w ==> c !in r
    ensures c !in s ==> r == s
    decreases |s|
  {
    if s == [] then ""
    else (if s[0] == c then w else [s[0]]) + ReplaceChar(s[1..], c, w)
  }

  /**
   * `s.length`: the number of UTF-16 code units. A character outside the Basic Multilingual
   * Plane is written as a surrogate pair and counts twice.
   */
  function JsLength(s: string): (n: nat)
    ensures |s| <= n <= 2 * |s|
    decreases |s|
  {
    if s == [] then 0 else (if s[0] as int >= 0x10000 then 2 else 1) + JsLength(s[1..])
  }

  /** Text within the Basic Multilingual Plane has one code unit per character. */
  lemma {:induction false} JsLengthOfBmp(s: string)
    requires forall i :: 0 <= i < |s| ==> (s[i] as int) < 0x10000
    ensures JsLength(s) == |s|
    decreases |s|
  {
    if s != [] {
      JsLengthOfBmp(s[1..]);
    }
  }

  /** Text made only of characters outside the Basic Multilingual Plane has two code units per character. */
  lemma {:induction false} JsLengthOfAstral(s: string)
    requires forall i :: 0 <= i < |s| ==> (s[i] as int) >= 0x10000
    ensures JsLength(s) == 2 * |s|
    decreases |s|
  {
    if s != [] {
      JsLengthOfAstral(s[1..]);
    }
  }

  /** `"x".repeat(n)`. */
  function Repeat(x: string, n: nat): (r: string)
    ensures |r| == n * |x|
  {
    if n == 0 then "" else x + Repeat(x, n - 1)
  }
}
