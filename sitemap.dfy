/**
 * The sitemap: the static pages, then one entry per blog post (from the CMS, or from the
 * local posts when the CMS cannot be reached), with repeated URLs dropped. The clock, date
 * parsing and the CMS fetch are parameters.
 */
module Sitemap {
  import opened Common
  import opened Counting
  import Blog
  import SeoWebhook

  /** A point in time, in milliseconds. */
  type Time = int

  datatype Frequency = Daily | Weekly | Monthly | Yearly

  /** A sitemap entry; the priority is written in tenths (`0.7` is 7). */
  datatype Entry = Entry(url: string, lastModified: Time, changeFrequency: Frequency, priority: nat)

  function UrlOf(e: Entry): string { e.url }

  datatype StaticRoute = StaticRoute(path: string, changeFrequency: Frequency, priority: nat)

  /** The static routes, in declared order; `/legal` itself is left out because it is not indexed. */
  const StaticRoutes := [
    StaticRoute("", Weekly, 10),
    StaticRoute("/charter", Monthly, 9),
    StaticRoute("/governance", Monthly, 8),
    StaticRoute("/blog", Daily, 8),
    StaticRoute("/legal/privacy", Yearly, 3),
    StaticRoute("/legal/terms", Yearly, 3),
    StaticRoute("/legal/imprint", Yearly, 3)]

  /** `SITE`: the same expression as the revalidation webhook's site URL. */
  function Site(env: Option<string>): string {
    SeoWebhook.SiteUrl(env)
  }

  /** `toAbsoluteUrl`. */
  function AbsoluteUrl(site: string, path: string): (u: string)
    ensures |u| == |site| + |path| && u[..|site|] == site && u[|site|..] == path
  {
    site + path
  }

  /** `toDate`: a missing, empty or unparsable date is the current time. */
  function ToDate(value: Option<string>, now: Time, parse: string -> Option<Time>): (t: Time)
    ensures value.None? || value.value == "" || parse(value.value).None? ==> t == now
    ensures value.Some? && value.value != "" && parse(value.value).Some? ==> t == parse(value.value).value
  {
    if value.None? || value.value == "" then now
    else match parse(value.value)
      case None => now
      case Some(t) => t
  }

  function StaticPages(site: string, now: Time): (es: seq<Entry>)
    ensures |es| == |StaticRoutes|
    ensures forall i :: 0 <= i < |es| ==>
      es[i] == Entry(AbsoluteUrl(site, StaticRoutes[i].path), now, StaticRoutes[i].changeFrequency, StaticRoutes[i].priority)
  {
    seq(|StaticRoutes|, i requires 0 <= i < |StaticRoutes| =>
      Entry(AbsoluteUrl(site, StaticRoutes[i].path), now, StaticRoutes[i].changeFrequency, StaticRoutes[i].priority))
  }

  /** A post as the CMS query returns it. */
  datatype CmsPost = CmsPost(slug: string, publishedAt: Option<string>, updatedAt: Option<string>)

  /** The CMS fetch: the posts, or a thrown error. */
  datatype CmsAnswer = Fetched(posts: seq<CmsPost>) | Unavailable

  /** `post._updatedAt || post.publishedAt`. */
  function CmsDate(p: CmsPost): Option<string> {
    if p.updatedAt.Some? && p.updatedAt.value != "" then p.updatedAt else p.publishedAt
  }

  function PostUrl(site: string, slug: string): string {
    AbsoluteUrl(site, "/blog/" + slug)
  }

  /** What the sitemap needs of a post, from either source: its slug and its date. */
  datatype Listing = Listing(slug: string, date: Option<string>)

  function CmsListing(p: CmsPost): Listing {
    Listing(p.slug, CmsDate(p))
  }

  function LocalListing(p: Blog.Post): Listing {
    Listing(p.slug, Some(p.date))
  }

  /** The entry of a post with a slug. */
  function PostEntry(site: string, l: Listing, now: Time, parse: string -> Option<Time>): Entry {
    Entry(PostUrl(site, l.slug), ToDate(l.date, now, parse), Weekly, 7)
  }

  /** `posts.filter((p) => Boolean(p.slug)).map(...)`: an entry per post with a slug, in order. */
  function PostPages(site: string, ls: seq<Listing>, now: Time, parse: string -> Option<Time>): (es: seq<Entry>)
    ensures |es| <= |ls|
    ensures forall i :: 0 <= i < |es| ==> es[i].changeFrequency == Weekly && es[i].priority == 7
    decreases |ls|
  {
    if ls == [] then []
    else
      var n := |ls| - 1;
      PostPages(site, ls[..n], now, parse) + (if ls[n].slug != "" then [PostEntry(site, ls[n], now, parse)] else [])
  }

  function CmsListings(posts: seq<CmsPost>): (ls: seq<Listing>)
    ensures |ls| == |posts| && forall i :: 0 <= i < |ls| ==> ls[i] == CmsListing(posts[i])
  {
    seq(|posts|, i requires 0 <= i < |posts| => CmsListing(posts[i]))
  }

  function LocalListings(posts: seq<Blog.Post>): (ls: seq<Listing>)
    ensures |ls| == |posts| && forall i :: 0 <= i < |ls| ==> ls[i] == LocalListing(posts[i])
  {
    seq(|posts|, i requires 0 <= i < |posts| => LocalListing(posts[i]))
  }

  /** The CMS posts with a non-empty slug, as entries, in the order fetched. */
  function CmsPages(site: string, posts: seq<CmsPost>, now: Time, parse: string -> Option<Time>): seq<Entry>
  {
    PostPages(site, CmsListings(posts), now, parse)
  }

  /** The local posts with a non-empty slug, as entries, in the order given. */
  function LocalPages(site: string, posts: seq<Blog.Post>, now: Time, parse: string -> Option<Time>): seq<Entry>
  {
    PostPages(site, LocalListings(posts), now, parse)
  }

  /** Every post with a slug gets its entry. */
  lemma {:induction false} PostPagesListed(site: string, ls: seq<Listing>, now: Time, parse: string -> Option<Time>, l: Listing)
    requires l in ls && l.slug != ""
    ensures PostEntry(site, l, now, parse) in PostPages(site, ls, now, parse)
    decreases |ls|
  {
    var n := |ls| - 1;
    if ls[n] != l {
      assert ls == ls[..n] + [ls[n]];
      PostPagesListed(site, ls[..n], now, parse, l);
    }
  }

  /** Every entry is the entry of a post with a slug. */
  lemma {:induction false} PostPagesFromListings(site: string, ls: seq<Listing>, now: Time, parse: string -> Option<Time>, e: Entry)
    requires e in PostPages(site, ls, now, parse)
    ensures exists l :: l in ls && l.slug != "" && e == PostEntry(site, l, now, parse)
    decreases |ls|
  {
    var n := |ls| - 1;
    if e in PostPages(site, ls[..n], now, parse) {
      PostPagesFromListings(site, ls[..n], now, parse, e);
      var l :| l in ls[..n] && l.slug != "" && e == PostEntry(site, l, now, parse);
      assert l in ls;
    } else {
      assert ls[n] in ls;
    }
  }

  /** Filtering and mapping distribute over concatenation, so the entries keep the posts' order. */
  lemma {:induction false} PostPagesAppend(site: string, a: seq<Listing>, b: seq<Listing>, now: Time, parse: string -> Option<Time>)
    ensures PostPages(site, a + b, now, parse) == PostPages(site, a, now, parse) + PostPages(site, b, now, parse)
    decreases |b|
  {
    if b == [] {
      assert a + b == a;
    } else {
      var n := |b| - 1;
      assert (a + b)[..|a| + n] == a + b[..n];
      assert (a + b)[|a| + n] == b[n];
      PostPagesAppend(site, a, b[..n], now, parse);
    }
  }

  /** Every CMS post with a slug is listed with its updated-or-published date. */
  lemma CmsPostListed(site: string, posts: seq<CmsPost>, now: Time, parse: string -> Option<Time>, p: CmsPost)
    requires p in posts && p.slug != ""
    ensures Entry(PostUrl(site, p.slug), ToDate(CmsDate(p), now, parse), Weekly, 7) in CmsPages(site, posts, now, parse)
  {
    var ls := CmsListings(posts);
    var i :| 0 <= i < |posts| && posts[i] == p;
    PostPagesListed(site, ls, now, parse, ls[i]);
  }

  /** Every CMS entry comes from a CMS post with a slug. */
  lemma CmsEntryIsPost(site: string, posts: seq<CmsPost>, now: Time, parse: string -> Option<Time>, e: Entry)
    requires e in CmsPages(site, posts, now, parse)
    ensures exists p :: p in posts && p.slug != "" && e == Entry(PostUrl(site, p.slug), ToDate(CmsDate(p), now, parse), Weekly, 7)
  {
    var ls := CmsListings(posts);
    PostPagesFromListings(site, ls, now, parse, e);
    var l :| l in ls && l.slug != "" && e == PostEntry(site, l, now, parse);
    var i :| 0 <= i < |ls| && ls[i] == l;
    assert posts[i] in posts;
  }

  /** Every local post with a slug is listed with its date. */
  lemma LocalPostListed(site: string, posts: seq<Blog.Post>, now: Time, parse: string -> Option<Time>, p: Blog.Post)
    requires p in posts && p.slug != ""
    ensures Entry(PostUrl(site, p.slug), ToDate(Some(p.date), now, parse), Weekly, 7) in LocalPages(site, posts, now, parse)
  {
    var ls := LocalListings(posts);
    var i :| 0 <= i < |posts| && posts[i] == p;
    PostPagesListed(site, ls, now, parse, ls[i]);
  }

  /** Every local entry comes from a local post with a slug. */
  lemma LocalEntryIsPost(site: string, posts: seq<Blog.Post>, now: Time, parse: string -> Option<Time>, e: Entry)
    requires e in LocalPages(site, posts, now, parse)
    ensures exists p :: p in posts && p.slug != "" && e == Entry(PostUrl(site, p.slug), ToDate(Some(p.date), now, parse), Weekly, 7)
  {
    var ls := LocalListings(posts);
    PostPagesFromListings(site, ls, now, parse, e);
    var l :| l in ls && l.slug != "" && e == PostEntry(site, l, now, parse);
    var i :| 0 <= i < |ls| && ls[i] == l;
    assert posts[i] in posts;
  }

  /** The blog entries: from the CMS, or from the local posts when the CMS fetch throws. */
  function BlogPages(site: string, cms: CmsAnswer, files: seq<string>, load: Blog.Loader, now: Time,
                     parse: string -> Option<Time>): seq<Entry>
  {
    match cms
    case Fetched(posts) => CmsPages(site, posts, now, parse)
    case Unavailable => LocalPages(site, Blog.AllPosts(files, load), now, parse)
  }

  /** `sitemap()`: static pages then blog pages, keeping the first entry of every URL. */
  function Sitemap(env: Option<string>, cms: CmsAnswer, files: seq<string>, load: Blog.Loader, now: Time,
                   parse: string -> Option<Time>): (es: seq<Entry>)
    ensures DistinctBy(es, UrlOf)
    ensures KeysOf(es, UrlOf) == KeysOf(StaticPages(Site(env), now) + BlogPages(Site(env), cms, files, load, now, parse), UrlOf)
  {
    var all := StaticPages(Site(env), now) + BlogPages(Site(env), cms, files, load, now, parse);
    DedupIsFirstsFilter(all, UrlOf);
    FirstsFilter(all, UrlOf)
  }

  lemma StaticPathsDistinct()
    ensures forall i, j :: 0 <= i < j < |StaticRoutes| ==> StaticRoutes[i].path != StaticRoutes[j].path
  {
    assert StaticRoutes[4].path[7] != StaticRoutes[6].path[7];
  }

  lemma StaticUrlsDistinct(site: string, now: Time)
    ensures DistinctBy(StaticPages(site, now), UrlOf)
  {
    var st := StaticPages(site, now);
    StaticPathsDistinct();
    forall i, j | 0 <= i < j < |st| ensures UrlOf(st[i]) != UrlOf(st[j]) {
      assert st[i].url[|site|..] == StaticRoutes[i].path;
      assert st[j].url[|site|..] == StaticRoutes[j].path;
    }
  }

  lemma SitemapFilters(env: Option<string>, cms: CmsAnswer, files: seq<string>, load: Blog.Loader, now: Time,
                        parse: string -> Option<Time>)
    ensures Sitemap(env, cms, files, load, now, parse)
         == FirstsFilter(StaticPages(Site(env), now) + BlogPages(Site(env), cms, files, load, now, parse), UrlOf)
  {
  }

  /** A prefix without repeated URLs is kept whole by the first-of-each-URL filter. */
  lemma DistinctPrefixKept(st: seq<Entry>, rest: seq<Entry>)
    requires DistinctBy(st, UrlOf)
    ensures st <= FirstsFilter(st + rest, UrlOf)
  {
    FirstsFilterOfDistinct(st, UrlOf);
    FirstsFilterExtends(st, rest, UrlOf);
  }

  /** The static pages come first, all of them, in their declared order. */
  lemma StaticPagesFirst(env: Option<string>, cms: CmsAnswer, files: seq<string>, load: Blog.Loader, now: Time,
                         parse: string -> Option<Time>)
    ensures StaticPages(Site(env), now) <= Sitemap(env, cms, files, load, now, parse)
  {
    SitemapFilters(env, cms, files, load, now, parse);
    StaticUrlsDistinct(Site(env), now);
    DistinctPrefixKept(StaticPages(Site(env), now), BlogPages(Site(env), cms, files, load, now, parse));
  }

  /** Entries that all lie under `/blog/`. */
  ghost predicate UnderBlog(site: string, es: seq<Entry>) {
    forall e :: e in es ==> exists slug :: e.url == PostUrl(site, slug)
  }

  /** The listings behind the blog entries. */
  function BlogListings(cms: CmsAnswer, files: seq<string>, load: Blog.Loader): seq<Listing> {
    match cms
    case Fetched(posts) => CmsListings(posts)
    case Unavailable => LocalListings(Blog.AllPosts(files, load))
  }

  lemma BlogPagesUnderBlog(site: string, cms: CmsAnswer, files: seq<string>, load: Blog.Loader, now: Time,
                           parse: string -> Option<Time>)
    ensures UnderBlog(site, BlogPages(site, cms, files, load, now, parse))
  {
    var ls := BlogListings(cms, files, load);
    var bp := BlogPages(site, cms, files, load, now, parse);
    assert bp == PostPages(site, ls, now, parse);
    forall e | e in bp ensures exists slug :: e.url == PostUrl(site, slug) {
      PostPagesFromListings(site, ls, now, parse, e);
      var l :| l in ls && l.slug != "" && e == PostEntry(site, l, now, parse);
      assert e.url == PostUrl(site, l.slug);
    }
  }
  lemma LegalNotListed(site: string, now: Time, bp: seq<Entry>)
    requires UnderBlog(site, bp)
    ensures AbsoluteUrl(site, "/legal") !in KeysOf(StaticPages(site, now) + bp, UrlOf)
  {
    var legal := AbsoluteUrl(site, "/legal");
    var st := StaticPages(site, now);
    var all := st + bp;
    forall i | 0 <= i < |all| ensures UrlOf(all[i]) != legal {
      if i < |st| {
        assert all[i] == st[i];
        assert |StaticRoutes[i].path| != 6;
      } else {
        assert all[i] in bp;
        var slug :| all[i].url == PostUrl(site, slug);
        assert all[i].url[|site|..] == "/blog/" + slug;
        assert ("/blog/" + slug)[1] == 'b';
      }
    }
  }

  /** The noindex `/legal` page is never listed. */
  lemma LegalAbsent(env: Option<string>, cms: CmsAnswer, files: seq<string>, load: Blog.Loader, now: Time,
                    parse: string -> Option<Time>)
    ensures AbsoluteUrl(Site(env), "/legal") !in KeysOf(Sitemap(env, cms, files, load, now, parse), UrlOf)
  {
    BlogPagesUnderBlog(Site(env), cms, files, load, now, parse);
    LegalNotListed(Site(env), now, BlogPages(Site(env), cms, files, load, now, parse));
  }

  /** When the CMS cannot be reached, every local post with a slug is listed under /blog/. */
  lemma FallbackListsLocalPosts(env: Option<string>, files: seq<string>, load: Blog.Loader, now: Time,
                                parse: string -> Option<Time>, p: Blog.Post)
    requires p in Blog.AllPosts(files, load) && p.slug != ""
    ensures PostUrl(Site(env), p.slug) in KeysOf(Sitemap(env, Unavailable, files, load, now, parse), UrlOf)
  {
    var site := Site(env);
    var bp := LocalPages(site, Blog.AllPosts(files, load), now, parse);
    var e := Entry(PostUrl(site, p.slug), ToDate(Some(p.date), now, parse), Weekly, 7);
    LocalPostListed(site, Blog.AllPosts(files, load), now, parse, p);
    var st := StaticPages(site, now);
    var k :| 0 <= k < |bp| && bp[k] == e;
    assert UrlOf((st + bp)[|st| + k]) == e.url;
  }

  /** A post with an empty slug contributes no entry, whichever source the posts come from. */
  lemma EmptySlugsSkipped(site: string, cms: CmsAnswer, files: seq<string>, load: Blog.Loader, now: Time,
                          parse: string -> Option<Time>)
    ensures forall e :: e in BlogPages(site, cms, files, load, now, parse) ==> e.url != PostUrl(site, "")
  {
    var ls := BlogListings(cms, files, load);
    forall e | e in BlogPages(site, cms, files, load, now, parse) ensures e.url != PostUrl(site, "") {
      PostPagesFromListings(site, ls, now, parse, e);
      var l :| l in ls && l.slug != "" && e == PostEntry(site, l, now, parse);
      assert |e.url| != |PostUrl(site, "")|;
    }
  }
}
