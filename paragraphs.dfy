/**
 * `text.split(/\n\n+/).filter(Boolean)`: a plain text cut into paragraphs at every run of two
 * or more line feeds, with the empty pieces dropped. The e-mail tool and the CMS draft tool
 * both start from these paragraphs.
 */
module Paragraphs {
  import opened Common

  /** No two adjacent line feeds: the separator cannot match inside `t`. */
  predicate NoBreak(t: string) {
    forall k :: 0 <= k < |t| - 1 ==> !(t[k] == '\n' && t[k + 1] == '\n')
  }

  /** A suffix of a piece without a break has none either. */
  lemma NoBreakDrop(t: string, i: nat)
    requires NoBreak(t) && i <= |t|
    ensures NoBreak(t[i..])
  {
    forall k | 0 <= k < |t| - i - 1
      ensures !(t[i..][k] == '\n' && t[i..][k + 1] == '\n')
    {
      assert t[i..][k] == t[i + k] && t[i..][k + 1] == t[i + k + 1];
    }
  }

  /** So does a prefix. */
  lemma NoBreakTake(t: string, n: nat)
    requires NoBreak(t) && n <= |t|
    ensures NoBreak(t[..n])
  {
    forall k | 0 <= k < n - 1
      ensures !(t[..n][k] == '\n' && t[..n][k + 1] == '\n')
    {
      assert t[..n][k] == t[k] && t[..n][k + 1] == t[k + 1];
    }
  }

  /** Where the regular expression first matches: the first pair of adjacent line feeds. */
  function FirstBreak(s: string): (r: Option<nat>)
    ensures r.None? <==> NoBreak(s)
    ensures r.Some? ==> r.value + 1 < |s| && s[r.value] == '\n' && s[r.value + 1] == '\n'
    ensures r.Some? ==> NoBreak(s[..r.value + 1])
    decreases |s|
  {
    if |s| < 2 then None
    else if s[0] == '\n' && s[1] == '\n' then Some(0)
    else match FirstBreak(s[1..])
      case None => None
      case Some(i) =>
        assert s[..i + 2] == [s[0]] + s[1..][..i + 1];
        Some(i + 1)
  }

  /** The end of the run of line feeds starting at `i`: the greedy `+` takes all of them. */
  function RunEnd(s: string, i: nat): (j: nat)
    requires i <= |s|
    ensures i <= j <= |s|
    ensures forall k :: i <= k < j ==> s[k] == '\n'
    ensures j == |s| || s[j] != '\n'
    decreases |s| - i
  {
    if i < |s| && s[i] == '\n' then RunEnd(s, i + 1) else i
  }

  /** A run of `n` line feeds. */
  function LineFeeds(n: nat): (r: string)
    ensures |r| == n && forall k :: 0 <= k < n ==> r[k] == '\n'
  {
    seq(n, k => '\n')
  }

  /** The pieces of the split and, between each two, the length of the separator taken out. */
  datatype Cut = Cut(pieces: seq<string>, gaps: seq<nat>)

  /** The pieces interleaved with their separators: the text the split was made from. */
  function Weave(pieces: seq<string>, gaps: seq<nat>): string
    requires |pieces| == |gaps| + 1
    decreases |gaps|
  {
    if gaps == [] then pieces[0]
    else pieces[0] + LineFeeds(gaps[0]) + Weave(pieces[1..], gaps[1..])
  }

  /** `s.split(/\n\n+/)`, with the separators it removed. */
  function Split(s: string): (c: Cut)
    ensures |c.pieces| == |c.gaps| + 1
    ensures forall k :: 0 <= k < |c.pieces| ==> NoBreak(c.pieces[k])
    decreases |s|
  {
    match FirstBreak(s)
    case None => Cut([s], [])
    case Some(i) =>
      var j := RunEnd(s, i);
      var rest := Split(s[j..]);
      Cut([s[..i]] + rest.pieces, [j - i] + rest.gaps)
  }

  /** The first piece is where the text starts. */
  lemma SplitHead(t: string)
    ensures Split(t).pieces[0] <= t
  {
  }

  /** Each separator is at least two line feeds wide. */
  lemma {:induction false} GapsWide(s: string)
    ensures forall k :: 0 <= k < |Split(s).gaps| ==> Split(s).gaps[k] >= 2
    decreases |s|
  {
    match FirstBreak(s)
    case None =>
    case Some(i) =>
      var j := RunEnd(s, i);
      GapsWide(s[j..]);
      var rest := Split(s[j..]);
      assert Split(s).gaps == [j - i] + rest.gaps;
  }

  /** No piece after a separator starts with a line feed: the separator took them all. */
  lemma {:induction false} PiecesStartClean(s: string)
    ensures forall k :: 0 < k < |Split(s).pieces| ==> Split(s).pieces[k] == [] || Split(s).pieces[k][0] != '\n'
    decreases |s|
  {
    match FirstBreak(s)
    case None =>
    case Some(i) =>
      var j := RunEnd(s, i);
      PiecesStartClean(s[j..]);
      SplitHead(s[j..]);
      var rest := Split(s[j..]);
      var c := Split(s);
      assert c.pieces == [s[..i]] + rest.pieces;
      assert rest.pieces[0] != [] ==> rest.pieces[0][0] == s[j];
      forall k | 0 < k < |c.pieces| ensures c.pieces[k] == [] || c.pieces[k][0] != '\n' {
        assert c.pieces[k] == rest.pieces[k - 1];
      }
  }

  /** No piece before a separator ends with a line feed: the separator starts at the first one. */
  lemma {:induction false} PiecesEndClean(s: string)
    ensures forall k :: 0 <= k < |Split(s).gaps| ==>
      Split(s).pieces[k] == [] || Split(s).pieces[k][|Split(s).pieces[k]| - 1] != '\n'
    decreases |s|
  {
    match FirstBreak(s)
    case None =>
      assert Split(s) == Cut([s], []);
    case Some(i) =>
      var j := RunEnd(s, i);
      PiecesEndClean(s[j..]);
      var rest := Split(s[j..]);
      var c := Split(s);
      assert c.pieces == [s[..i]] + rest.pieces && c.gaps == [j - i] + rest.gaps;
      BeforeBreak(s, i);
      forall k | 0 <= k < |c.gaps| ensures c.pieces[k] == [] || c.pieces[k][|c.pieces[k]| - 1] != '\n' {
        if k > 0 {
          assert c.pieces[k] == rest.pieces[k - 1];
        }
      }
  }

  /** The first break is where the first pair of line feeds starts, so the character before it is no line feed. */
  lemma BeforeBreak(s: string, i: nat)
    requires FirstBreak(s) == Some(i)
    ensures s[..i] == [] || s[..i][i - 1] != '\n'
  {
    if i > 0 {
      var t := s[..i + 1];
      assert t[i - 1] == s[i - 1] && t[i] == '\n';
    }
  }

  /** The split loses nothing: putting the separators back gives the text. */
  lemma {:induction false} SplitWeave(s: string)
    ensures Weave(Split(s).pieces, Split(s).gaps) == s
    decreases |s|
  {
    match FirstBreak(s)
    case None =>
      assert Split(s) == Cut([s], []);
    case Some(i) =>
      var j := RunEnd(s, i);
      SplitWeave(s[j..]);
      var rest := Split(s[j..]);
      var c := Split(s);
      assert c.pieces == [s[..i]] + rest.pieces && c.gaps == [j - i] + rest.gaps;
      WeaveCons(s[..i], j - i, rest.pieces, rest.gaps);
      assert Weave(c.pieces, c.gaps) == s[..i] + LineFeeds(j - i) + s[j..];
      LineFeedRun(s, i, j);
  }

  /** A run of line feeds in the middle of a text: the text is what precedes it, the run, and the rest. */
  lemma LineFeedRun(s: string, i: nat, j: nat)
    requires i <= j <= |s| && forall k :: i <= k < j ==> s[k] == '\n'
    ensures s == s[..i] + LineFeeds(j - i) + s[j..]
  {
    assert s[i..j] == LineFeeds(j - i);
    assert s == s[..i] + s[i..j] + s[j..];
  }

  lemma WeaveCons(p: string, g: nat, ps: seq<string>, gs: seq<nat>)
    requires |ps| == |gs| + 1
    ensures Weave([p] + ps, [g] + gs) == p + LineFeeds(g) + Weave(ps, gs)
  {
    assert ([p] + ps)[1..] == ps && ([g] + gs)[1..] == gs;
  }

  /** A text without a double line feed is one piece. */
  lemma SplitNoBreak(s: string)
    requires NoBreak(s)
    ensures Split(s) == Cut([s], [])
  {
  }

  /** `.filter(Boolean)` on strings: the non-empty ones, in order. */
  function NonEmpty(ps: seq<string>): (r: seq<string>)
    ensures |r| <= |ps|
    ensures forall p :: p in r <==> p in ps && p != ""
    decreases |ps|
  {
    if ps == [] then []
    else
      assert ps == [ps[0]] + ps[1..];
      (if ps[0] != "" then [ps[0]] else []) + NonEmpty(ps[1..])
  }

  /** Dropping empty strings keeps the others in order, so filtering twice changes nothing. */
  lemma {:induction false} NonEmptyIdempotent(ps: seq<string>)
    ensures NonEmpty(NonEmpty(ps)) == NonEmpty(ps)
    decreases |ps|
  {
    if ps != [] {
      NonEmptyIdempotent(ps[1..]);
      if ps[0] != "" {
        var x := NonEmpty(ps[1..]);
        var y := [ps[0]] + x;
        assert y[1..] == x;
        assert NonEmpty(y) == [ps[0]] + NonEmpty(x);
      } else {
        assert NonEmpty(ps) == [] + NonEmpty(ps[1..]) == NonEmpty(ps[1..]);
      }
    }
  }

  /** The paragraphs of a text: the non-empty pieces of the split, in order. */
  function Of(s: string): (ps: seq<string>)
    ensures forall p :: p in ps ==> p != "" && NoBreak(p)
  {
    var c := Split(s);
    assert forall p :: p in c.pieces ==> NoBreak(p) by {
      forall p | p in c.pieces ensures NoBreak(p) {
        var k :| 0 <= k < |c.pieces| && c.pieces[k] == p;
      }
    }
    NonEmpty(c.pieces)
  }

  /** Every non-empty piece of the split is a paragraph, so no text is lost but separators. */
  lemma PieceKept(s: string, k: nat)
    requires k < |Split(s).pieces| && Split(s).pieces[k] != ""
    ensures Split(s).pieces[k] in Of(s)
  {
  }

  /** A non-empty text with no double line feed is one paragraph. */
  lemma SingleParagraph(s: string)
    requires s != "" && NoBreak(s)
    ensures Of(s) == [s]
  {
    SplitNoBreak(s);
    assert NonEmpty([s]) == [s] + NonEmpty([]);
  }

  /**
   * A text without paragraphs splits into empty pieces only, so it is made of line feeds
   * alone.
   */
  lemma NoParagraphs(s: string)
    requires Of(s) == []
    ensures forall k :: 0 <= k < |Split(s).pieces| ==> Split(s).pieces[k] == ""
    ensures forall k :: 0 <= k < |s| ==> s[k] == '\n'
  {
    forall k | 0 <= k < |Split(s).pieces| ensures Split(s).pieces[k] == "" {
      if Split(s).pieces[k] != "" {
        PieceKept(s, k);
      }
    }
    SplitWeave(s);
    WeaveOfEmpty(Split(s).pieces, Split(s).gaps);
  }

  /** Empty pieces woven together leave only the separators' line feeds. */
  lemma {:induction false} WeaveOfEmpty(pieces: seq<string>, gaps: seq<nat>)
    requires |pieces| == |gaps| + 1
    requires forall k :: 0 <= k < |pieces| ==> pieces[k] == ""
    ensures forall k :: 0 <= k < |Weave(pieces, gaps)| ==> Weave(pieces, gaps)[k] == '\n'
    decreases |gaps|
  {
    if gaps != [] {
      WeaveOfEmpty(pieces[1..], gaps[1..]);
      assert Weave(pieces, gaps) == LineFeeds(gaps[0]) + Weave(pieces[1..], gaps[1..]);
    }
  }
}
