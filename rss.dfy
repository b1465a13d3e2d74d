/**
 * `GET /rss.xml`: the RSS 2.0 feed of the CMS posts. The CMS fetch is replaced by the posts it
 * returns, and `new Date(d).toUTCString()` by a function parameter.
 */
module Rss {
  import opened Common
  import opened Text

  const BlogBase := "https://intersectionalsafety.org/blog/"
  const ContentType := "application/rss+xml; charset=utf-8"

  /** The channel around the items: everything before them, then everything after them. */
  const ChannelOpen := "<?xml version=\"1.0\" encoding=\"UTF-8\"?>\n<rss version=\"2.0\">\n  <channel>\n    <title>Intersectional Safety Journal</title>\n    <link>https://intersectionalsafety.org/blog</link>\n    <description>Articles from the International Intersectional Safety Foundation and Vector for Good.</description>\n    "
  const ChannelClose := "\n  </channel>\n</rss>"

  datatype RssPost = RssPost(title: string, slug: string, publishedAt: string, excerpt: Option<string>)

  /** `new Date(s).toUTCString()`. */
  type UtcRenderer = string -> string

  datatype Response = Response(status: int, contentType: string, body: string)

  function Link(slug: string): (l: string)
    ensures StartsWith(l, BlogBase) && l[|BlogBase|..] == slug
  {
    var l := BlogBase + slug;
    assert l[..|BlogBase|] == BlogBase;
    l
  }

  function CData(text: string): string {
    "<![CDATA[" + text + "]]>"
  }

  /** The `<description>` element: the excerpt, or "" when there is none. */
  function Description(excerpt: Option<string>): (d: string)
    ensures excerpt.None? ==> d == "<description><![CDATA[]]></description>"
  {
    "<description>" + CData(excerpt.GetOr("")) + "</description>"
  }

  /** The line break and indentation before each field of an item. */
  const Gap := "\n      "

  /** One `<item>`: the title, the link, the date and the excerpt (`""` when there is none). */
  function Item(p: RssPost, utc: UtcRenderer): (s: string)
    ensures StartsWith(s, "\n    <item>") && EndsWith(s, "</item>")
  {
    var s := "\n    <item>"
      + Gap + ("<title>" + CData(p.title) + "</title>")
      + Gap + ("<link>" + Link(p.slug) + "</link>")
      + Gap + ("<pubDate>" + utc(p.publishedAt) + "</pubDate>")
      + Gap + Description(p.excerpt)
      + "\n    </item>";
    assert s[..|"\n    <item>"|] == "\n    <item>";
    assert s[|s| - |"</item>"|..] == "</item>";
    s
  }

  /** `posts.map(...)`: one item per post, in the order fetched. */
  function ItemList(posts: seq<RssPost>, utc: UtcRenderer): (l: seq<string>)
    ensures |l| == |posts| && forall i :: 0 <= i < |posts| ==> l[i] == Item(posts[i], utc)
  {
    seq(|posts|, i requires 0 <= i < |posts| => Item(posts[i], utc))
  }

  /** `.join("")`: the items with nothing between them. */
  function Items(posts: seq<RssPost>, utc: UtcRenderer): string {
    Join(ItemList(posts, utc), "")
  }

  /** The items of two lists of posts are the items of the first, then those of the second. */
  lemma ItemsAppend(a: seq<RssPost>, b: seq<RssPost>, utc: UtcRenderer)
    ensures Items(a + b, utc) == Items(a, utc) + Items(b, utc)
  {
    assert ItemList(a + b, utc) == ItemList(a, utc) + ItemList(b, utc);
    JoinNoSeparatorAppend(ItemList(a, utc), ItemList(b, utc));
  }

  /** The feed: the channel holding the items; always 200, with the RSS media type. */
  function Feed(posts: seq<RssPost>, utc: UtcRenderer): (r: Response)
    ensures r.status == 200 && r.contentType == ContentType
    ensures StartsWith(r.body, ChannelOpen) && EndsWith(r.body, ChannelClose)
    ensures |r.body| == |ChannelOpen| + |Items(posts, utc)| + |ChannelClose|
    ensures r.body[|ChannelOpen|..|r.body| - |ChannelClose|] == Items(posts, utc)
  {
    Enclosed(ChannelOpen, Items(posts, utc), ChannelClose);
    Response(200, ContentType, ChannelOpen + Items(posts, utc) + ChannelClose)
  }

  /** The `i`-th item is the item of the `i`-th post, after the items of the posts before it. */
  lemma ItemInPlace(posts: seq<RssPost>, utc: UtcRenderer, i: nat)
    requires i < |posts|
    ensures Items(posts, utc) == Items(posts[..i], utc) + Item(posts[i], utc) + Items(posts[i + 1..], utc)
  {
    var l := ItemList(posts, utc);
    assert l[..i] == ItemList(posts[..i], utc);
    assert l[i + 1..] == ItemList(posts[i + 1..], utc);
    JoinNoSeparatorAt(l, i);
  }

  /** A post without an excerpt gets an empty description. */
  lemma MissingExcerptIsEmpty(p: RssPost, utc: UtcRenderer)
    requires p.excerpt.None?
    ensures Contains(Item(p, utc), "<description><![CDATA[]]></description>")
  {
    ItemCarriesPost(p, utc);
  }

  /** An item carries the post's title as CDATA, its link, its rendered date and its description. */
  lemma ItemCarriesPost(p: RssPost, utc: UtcRenderer)
    ensures Contains(Item(p, utc), "<title>" + CData(p.title) + "</title>")
    ensures Contains(Item(p, utc), "<link>" + Link(p.slug) + "</link>")
    ensures Contains(Item(p, utc), "<pubDate>" + utc(p.publishedAt) + "</pubDate>")
    ensures Contains(Item(p, utc), Description(p.excerpt))
  {
    FieldsOccur("\n    <item>", Gap, "<title>" + CData(p.title) + "</title>", "<link>" + Link(p.slug) + "</link>",
                "<pubDate>" + utc(p.publishedAt) + "</pubDate>", Description(p.excerpt), "\n    </item>");
  }

  /** Each field of a record laid out as `open f1 f2 f3 f4 close`, with a gap before each, occurs in it. */
  lemma FieldsOccur(open: string, gap: string, f1: string, f2: string, f3: string, f4: string, close: string)
    ensures var r := open + gap + f1 + gap + f2 + gap + f3 + gap + f4 + close;
            Contains(r, f1) && Contains(r, f2) && Contains(r, f3) && Contains(r, f4)
  {
    ContainsSplice(open + gap, f1, gap);
    ContainsInLeft(open + gap + f1 + gap, f2, f1);
    ContainsInLeft(open + gap + f1 + gap + f2, gap, f1);
    ContainsSplice(open + gap + f1 + gap, f2, gap);
    ContainsInLeft(open + gap + f1 + gap + f2 + gap, f3, f1);
    ContainsInLeft(open + gap + f1 + gap + f2 + gap, f3, f2);
    ContainsSplice(open + gap + f1 + gap + f2 + gap, f3, gap);
    ContainsInLeft(open + gap + f1 + gap + f2 + gap + f3, gap, f1);
    ContainsInLeft(open + gap + f1 + gap + f2 + gap + f3, gap, f2);
    var front := open + gap + f1 + gap + f2 + gap + f3 + gap;
    ContainsInLeft(front, f4, f1);
    ContainsInLeft(front, f4, f2);
    ContainsInLeft(front, f4, f3);
    ContainsSplice(front, f4, close);
    ContainsInLeft(front + f4, close, f1);
    ContainsInLeft(front + f4, close, f2);
    ContainsInLeft(front + f4, close, f3);
  }
}
