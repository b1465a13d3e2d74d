/**
 * The local blog index (`getAllPosts`): every `.mdx` file of the blog directory becomes a
 * post, named after the file, and the posts are ordered newest date first. Reading the
 * directory and loading each module's `metadata` are replaced by their results.
 */
module Blog {
  import opened Common
  import opened Text

  /** The `metadata` a post module exports; `None` for a missing field (or no metadata at all). */
  datatype Metadata = Metadata(title: Option<string>, date: Option<string>, description: Option<string>)

  datatype Post = Post(slug: string, title: string, date: string, description: Option<string>)

  /** Loading a post module by file name gives its metadata. */
  type Loader = string -> Metadata

  const Extension := ".mdx"

  /** The directory entries that are posts, in directory order. */
  function MdxFiles(files: seq<string>): (r: seq<string>)
    ensures forall f :: f in r <==> f in files && EndsWith(f, Extension)
    decreases |files|
  {
    if files == [] then []
    else
      var n := |files| - 1;
      assert files == files[..n] + [files[n]];
      MdxFiles(files[..n]) + (if EndsWith(files[n], Extension) then [files[n]] else [])
  }

  /** `file.replace(/\.mdx$/, "")` on a file that ends in ".mdx". */
  function SlugOf(file: string): (slug: string)
    requires EndsWith(file, Extension)
    ensures slug + Extension == file
  {
    file[..|file| - |Extension|]
  }

  /** One post: the slug from the file name, the title defaulting to the slug, the date to "". */
  function PostOf(file: string, meta: Metadata): (p: Post)
    requires EndsWith(file, Extension)
    ensures p.slug + Extension == file
    ensures p.title == (if meta.title.Some? then meta.title.value else p.slug)
    ensures p.date == (if meta.date.Some? then meta.date.value else "")
    ensures p.description == meta.description
  {
    var slug := SlugOf(file);
    Post(slug, meta.title.GetOr(slug), meta.date.GetOr(""), meta.description)
  }

  function PostsOf(files: seq<string>, load: Loader): (ps: seq<Post>)
    requires forall f :: f in files ==> EndsWith(f, Extension)
    ensures |ps| == |files| && forall i :: 0 <= i < |files| ==> ps[i] == PostOf(files[i], load(files[i]))
  {
    seq(|files|, i requires 0 <= i < |files| => PostOf(files[i], load(files[i])))
  }

  /** `a < b` on strings, character by character, a proper prefix being smaller. */
  predicate Before(a: string, b: string)
    decreases |a|
  {
    if a == [] then b != []
    else if b == [] then false
    else if a[0] != b[0] then a[0] < b[0]
    else Before(a[1..], b[1..])
  }

  lemma {:induction false} BeforeTotal(a: string, b: string)
    ensures a == b || Before(a, b) || Before(b, a)
    ensures !(Before(a, b) && Before(b, a))
    decreases |a|
  {
    if a != [] && b != [] && a[0] == b[0] {
      BeforeTotal(a[1..], b[1..]);
      if a[1..] == b[1..] {
        assert a == [a[0]] + a[1..] && b == [b[0]] + b[1..];
      }
    }
  }

  lemma {:induction false} BeforeTransitive(a: string, b: string, c: string)
    requires Before(a, b) && Before(b, c)
    ensures Before(a, c)
    decreases |a|
  {
    if a != [] && a[0] == b[0] && b[0] == c[0] {
      BeforeTransitive(a[1..], b[1..], c[1..]);
    }
  }

  /** Newest first: no post has an earlier date than a later one. */
  predicate Descending(ps: seq<Post>) {
    forall i, j :: 0 <= i < j < |ps| ==> !Before(ps[i].date, ps[j].date)
  }

  /** Inserting into a descending list: before the first post whose date is not after `p`'s. */
  function Insert(p: Post, ps: seq<Post>): (r: seq<Post>)
    ensures multiset(r) == multiset(ps) + multiset{p}
    decreases |ps|
  {
    if ps == [] then [p]
    else if !Before(p.date, ps[0].date) then [p] + ps
    else
      assert ps == [ps[0]] + ps[1..];
      [ps[0]] + Insert(p, ps[1..])
  }

  /** The sort by `(a, b) => a.date < b.date ? 1 : -1`, as an insertion sort. */
  function SortByDate(ps: seq<Post>): (r: seq<Post>)
    ensures multiset(r) == multiset(ps)
    decreases |ps|
  {
    if ps == [] then []
    else
      assert ps == [ps[0]] + ps[1..];
      Insert(ps[0], SortByDate(ps[1..]))
  }

  lemma {:induction false} InsertDescending(p: Post, ps: seq<Post>)
    requires Descending(ps)
    ensures Descending(Insert(p, ps))
    decreases |ps|
  {
    if ps != [] {
      var r := Insert(p, ps);
      if !Before(p.date, ps[0].date) {
        forall j | 0 < j < |r|
          ensures !Before(p.date, r[j].date)
        {
          assert r[j] == ps[j - 1];
          if j > 1 {
            NotBeforeChain(p.date, ps[0].date, ps[j - 1].date);
          }
        }
      } else {
        var tail := Insert(p, ps[1..]);
        InsertDescending(p, ps[1..]);
        assert r == [ps[0]] + tail;
        forall j | 0 <= j < |tail|
          ensures !Before(ps[0].date, tail[j].date)
        {
          assert tail[j] in multiset(ps[1..]) + multiset{p};
          if tail[j] == p {
            BeforeTotal(p.date, ps[0].date);
          } else {
            assert tail[j] in ps[1..];
            var k :| 0 <= k < |ps[1..]| && ps[1..][k] == tail[j];
            assert ps[k + 1] == tail[j];
          }
        }
      }
    }
  }

  lemma NotBeforeChain(a: string, b: string, c: string)
    requires !Before(a, b) && !Before(b, c)
    ensures !Before(a, c)
  {
    BeforeTotal(a, b);
    BeforeTotal(b, c);
    if Before(a, c) {
      if a == b {
      } else if b == c {
      } else {
        BeforeTransitive(c, b, a);
        BeforeTotal(a, c);
      }
    }
  }

  lemma {:induction false} SortDescending(ps: seq<Post>)
    ensures Descending(SortByDate(ps))
    decreases |ps|
  {
    if ps != [] {
      SortDescending(ps[1..]);
      InsertDescending(ps[0], SortByDate(ps[1..]));
    }
  }

  /** `getAllPosts`, given the directory listing and the loader of post modules. */
  function AllPosts(files: seq<string>, load: Loader): (posts: seq<Post>)
    ensures Descending(posts)
    ensures multiset(posts) == multiset(PostsOf(MdxFiles(files), load))
    ensures forall p :: p in posts ==> p.slug + Extension in files
  {
    var ps := PostsOf(MdxFiles(files), load);
    SortDescending(ps);
    var r := SortByDate(ps);
    assert forall p :: p in r ==> p.slug + Extension in files by {
      forall p | p in r ensures p.slug + Extension in files {
        assert p in multiset(ps);
        var i :| 0 <= i < |ps| && ps[i] == p;
      }
    }
    r
  }

  /** Every `.mdx` file of the directory becomes a post. */
  lemma OnePostPerFile(files: seq<string>, load: Loader, f: string)
    requires f in files && EndsWith(f, Extension)
    ensures PostOf(f, load(f)) in AllPosts(files, load)
  {
    var ps := PostsOf(MdxFiles(files), load);
    var i :| 0 <= i < |MdxFiles(files)| && MdxFiles(files)[i] == f;
    assert ps[i] == PostOf(f, load(f));
    assert PostOf(f, load(f)) in multiset(AllPosts(files, load));
  }
}
