/**
 * Aggregations over an in-memory list of blog records: the total of the
 * likes, the most-liked blog, and the author with the most blogs or the
 * most likes.
 *
 * Each `reduce` of the source is an index fold here. The per-author
 * dictionary that `mostBlogs` and `mostLikes` build by updating an object in
 * place is built by a loop (TallyByAuthor). The loop keeps the dictionary's
 * keys in insertion order, because that is the order `Object.keys` returns
 * and the tie-break follows it.
 *
 * The reference definitions (Sum, AuthorTotal, Authors, FirstBy) recurse on
 * the last element of the list, so that they unfold along a loop over
 * prefixes.
 */
module ListHelper {
  import opened Wrappers

  datatype Blog = Blog(title: string, author: string, url: string, likes: int)

  /** What `favoriteBlog` returns for a non-empty list: `{ title, author, likes }`. */
  datatype Favorite = Favorite(title: string, author: string, likes: int)

  /** What `mostBlogs` returns for a non-empty list: `{ author, blogs }`. */
  datatype AuthorBlogs = AuthorBlogs(author: string, blogs: int)

  /** What `mostLikes` returns for a non-empty list: `{ author, likes }`. */
  datatype AuthorLikes = AuthorLikes(author: string, likes: int)

  /** The quantity a blog adds to its author's entry: one blog, or its likes. */
  datatype Measure = BlogCount | LikeSum

  function Weight(m: Measure, b: Blog): int {
    match m
    case BlogCount => 1
    case LikeSum => b.likes
  }

  // ---------------------------------------------------------------------
  // Reference definitions

  /** The total weight of all blogs. */
  function Sum(blogs: seq<Blog>, m: Measure): int {
    if |blogs| == 0 then 0
    else Sum(blogs[..|blogs| - 1], m) + Weight(m, blogs[|blogs| - 1])
  }

  /** The total weight of the blogs written by `author`. */
  function AuthorTotal(blogs: seq<Blog>, m: Measure, author: string): int {
    if |blogs| == 0 then 0
    else
      var last := blogs[|blogs| - 1];
      AuthorTotal(blogs[..|blogs| - 1], m, author) + (if last.author == author then Weight(m, last) else 0)
  }

  /** The distinct authors, in the order of their first blog. */
  function Authors(blogs: seq<Blog>): seq<string> {
    if |blogs| == 0 then []
    else
      var earlier := Authors(blogs[..|blogs| - 1]);
      var author := blogs[|blogs| - 1].author;
      if author in earlier then earlier else earlier + [author]
  }

  /** The index of the first blog by `author`, or |blogs| when there is none. */
  function FirstBy(blogs: seq<Blog>, author: string): (i: nat)
    ensures i <= |blogs|
    ensures i < |blogs| ==> blogs[i].author == author
    ensures forall j :: 0 <= j < i ==> blogs[j].author != author
  {
    if |blogs| == 0 then 0
    else
      var i := FirstBy(blogs[..|blogs| - 1], author);
      if i < |blogs| - 1 then i
      else if blogs[|blogs| - 1].author == author then |blogs| - 1
      else |blogs|
  }

  /** The sum of the per-author totals over a list of authors. */
  function SumOver(blogs: seq<Blog>, m: Measure, authors: seq<string>): int {
    if |authors| == 0 then 0
    else SumOver(blogs, m, authors[..|authors| - 1]) + AuthorTotal(blogs, m, authors[|authors| - 1])
  }

  // ---------------------------------------------------------------------
  // dummy

  function Dummy(blogs: seq<Blog>): (r: int)
    ensures r == 1
  {
    1
  }

  // ---------------------------------------------------------------------
  // totalLikes

  function TotalLikes(blogs: seq<Blog>): int {
    LikesFrom(blogs, 0, 0)
  }

  /** `reduce((sum, blog) => sum + blog.likes, sum)` over blogs[i..]. */
  function LikesFrom(blogs: seq<Blog>, i: nat, sum: int): int
    requires i <= |blogs|
    decreases |blogs| - i
  {
    if i == |blogs| then sum else LikesFrom(blogs, i + 1, sum + blogs[i].likes)
  }

  lemma {:induction false} LikesFromIsSum(blogs: seq<Blog>, i: nat)
    requires i <= |blogs|
    ensures LikesFrom(blogs, i, Sum(blogs[..i], LikeSum)) == Sum(blogs, LikeSum)
    decreases |blogs| - i
  {
    if i == |blogs| {
      assert blogs[..i] == blogs;
    } else {
      assert blogs[..i + 1][..i] == blogs[..i];
      LikesFromIsSum(blogs, i + 1);
    }
  }

  /** totalLikes is the sum of the likes: 0 for the empty list. */
  lemma TotalLikesIsSum(blogs: seq<Blog>)
    ensures TotalLikes(blogs) == Sum(blogs, LikeSum)
    ensures |blogs| == 0 ==> TotalLikes(blogs) == 0
  {
    assert blogs[..0] == [];
    LikesFromIsSum(blogs, 0);
  }

  // ---------------------------------------------------------------------
  // favoriteBlog

  function FavoriteBlog(blogs: seq<Blog>): (r: Option<Favorite>)
    ensures r.None? <==> |blogs| == 0
  {
    if |blogs| == 0 then None
    else
      var favorite := FavoriteFrom(blogs, 0, blogs[0]);
      Some(Favorite(favorite.title, favorite.author, favorite.likes))
  }

  /** `reduce((favorite, blog) => blog.likes > favorite.likes ? blog : favorite, favorite)` over blogs[i..]. */
  function FavoriteFrom(blogs: seq<Blog>, i: nat, favorite: Blog): Blog
    requires i <= |blogs|
    decreases |blogs| - i
  {
    if i == |blogs| then favorite
    else FavoriteFrom(blogs, i + 1, if blogs[i].likes > favorite.likes then blogs[i] else favorite)
  }

  /** Blog k has the most likes, and every blog before it has strictly fewer. */
  ghost predicate IsFirstMostLiked(blogs: seq<Blog>, k: int) {
    && 0 <= k < |blogs|
    && (forall j :: 0 <= j < |blogs| ==> blogs[j].likes <= blogs[k].likes)
    && (forall j :: 0 <= j < k ==> blogs[j].likes < blogs[k].likes)
  }

  lemma {:induction false} FavoriteFromIsFirstMostLiked(blogs: seq<Blog>, i: nat, k: nat)
    requires i <= |blogs| && k < |blogs| && k <= i
    requires forall j :: 0 <= j < i ==> blogs[j].likes <= blogs[k].likes
    requires forall j :: 0 <= j < k ==> blogs[j].likes < blogs[k].likes
    ensures exists k' :: IsFirstMostLiked(blogs, k') && FavoriteFrom(blogs, i, blogs[k]) == blogs[k']
    decreases |blogs| - i
  {
    if i == |blogs| {
      assert IsFirstMostLiked(blogs, k);
    } else if blogs[i].likes > blogs[k].likes {
      FavoriteFromIsFirstMostLiked(blogs, i + 1, i);
    } else {
      FavoriteFromIsFirstMostLiked(blogs, i + 1, k);
    }
  }

  /**
   * For a non-empty list, favoriteBlog returns the title, author and likes
   * of the earliest blog with the most likes.
   */
  lemma FavoriteBlogIsFirstMostLiked(blogs: seq<Blog>)
    requires |blogs| > 0
    ensures exists k ::
      && IsFirstMostLiked(blogs, k)
      && FavoriteBlog(blogs) == Some(Favorite(blogs[k].title, blogs[k].author, blogs[k].likes))
  {
    FavoriteFromIsFirstMostLiked(blogs, 0, 0);
  }

  /** The earliest most-liked blog is a single blog, so favoriteBlog's result is determined. */
  lemma FirstMostLikedIsUnique(blogs: seq<Blog>, k1: int, k2: int)
    requires IsFirstMostLiked(blogs, k1) && IsFirstMostLiked(blogs, k2)
    ensures k1 == k2
  {
    // Both are most-liked, so their likes are equal; the tie-break then rules out k1 != k2.
    var b1, b2 := blogs[k1], blogs[k2];
    assert b1.likes == b2.likes;
  }

  // ---------------------------------------------------------------------
  // The per-author dictionary of mostBlogs and mostLikes

  lemma {:induction false} AuthorTotalOfAbsent(blogs: seq<Blog>, m: Measure, author: string)
    requires author !in Authors(blogs)
    ensures AuthorTotal(blogs, m, author) == 0
  {
    if |blogs| > 0 {
      AuthorTotalOfAbsent(blogs[..|blogs| - 1], m, author);
    }
  }

  /**
   * Builds the per-author dictionary: `authors` is the key order that
   * `Object.keys` returns and `totals` maps each author to their total.
   */
  method TallyByAuthor(blogs: seq<Blog>, m: Measure) returns (authors: seq<string>, totals: map<string, int>)
    ensures authors == Authors(blogs)
    ensures forall a :: a in totals <==> a in authors
    ensures forall a :: a in totals ==> totals[a] == AuthorTotal(blogs, m, a)
  {
    authors, totals := [], map[];
    var i := 0;
    while i < |blogs|
      invariant 0 <= i <= |blogs|
      invariant authors == Authors(blogs[..i])
      invariant forall a :: a in totals <==> a in authors
      invariant forall a :: a in totals ==> totals[a] == AuthorTotal(blogs[..i], m, a)
    {
      var blog := blogs[i];
      assert blogs[..i + 1][..i] == blogs[..i];
      // `(counts[author] || 0)`: an absent entry counts as 0 (a stored 0 stays 0).
      var prior := if blog.author in totals then totals[blog.author] else 0;
      if blog.author !in totals {
        AuthorTotalOfAbsent(blogs[..i], m, blog.author);
        authors := authors + [blog.author];
      }
      totals := totals[blog.author := prior + Weight(m, blog)];
      i := i + 1;
    }
    assert blogs[..i] == blogs;
  }

  /** Authors lists exactly the authors that occur, in the order of their first blog. */
  lemma {:induction false} AuthorsInFirstAppearanceOrder(blogs: seq<Blog>)
    ensures forall a :: a in Authors(blogs) <==> FirstBy(blogs, a) < |blogs|
    ensures forall k1, k2 :: 0 <= k1 < k2 < |Authors(blogs)| ==>
      FirstBy(blogs, Authors(blogs)[k1]) < FirstBy(blogs, Authors(blogs)[k2])
  {
    if |blogs| > 0 {
      var p := blogs[..|blogs| - 1];
      var author := blogs[|blogs| - 1].author;
      AuthorsInFirstAppearanceOrder(p);
      var earlier := Authors(p);
      forall a ensures FirstBy(blogs, a) == if FirstBy(p, a) < |p| then FirstBy(p, a) else if author == a then |p| else |p| + 1 {
      }
      if author !in earlier {
        assert FirstBy(blogs, author) == |p|;
        forall k1, k2 | 0 <= k1 < k2 < |Authors(blogs)|
          ensures FirstBy(blogs, Authors(blogs)[k1]) < FirstBy(blogs, Authors(blogs)[k2])
        {
          assert Authors(blogs)[k1] == earlier[k1];
          assert earlier[k1] in earlier;
          if k2 < |earlier| {
            assert Authors(blogs)[k2] == earlier[k2];
            assert earlier[k2] in earlier;
          }
        }
      } else {
        forall k1, k2 | 0 <= k1 < k2 < |Authors(blogs)|
          ensures FirstBy(blogs, Authors(blogs)[k1]) < FirstBy(blogs, Authors(blogs)[k2])
        {
          assert earlier[k1] in earlier && earlier[k2] in earlier;
        }
      }
    }
  }

  // ---------------------------------------------------------------------
  // The argmax over Object.keys

  /**
   * `Object.keys(totals).reduce((best, a) => totals[a] > totals[best] ? a : best)`:
   * with no initial value the fold starts at the first key.
   */
  function TopAuthor(keys: seq<string>, totals: map<string, int>): string
    requires |keys| > 0
    requires forall a :: a in keys ==> a in totals
  {
    TopFrom(keys, totals, 1, keys[0])
  }

  function TopFrom(keys: seq<string>, totals: map<string, int>, i: nat, best: string): string
    requires i <= |keys|
    requires forall a :: a in keys ==> a in totals
    requires best in totals
    decreases |keys| - i
  {
    if i == |keys| then best
    else TopFrom(keys, totals, i + 1, if totals[keys[i]] > totals[best] then keys[i] else best)
  }

  /** Key k has the largest total, and every key before it a strictly smaller one. */
  ghost predicate IsFirstTop(keys: seq<string>, totals: map<string, int>, k: int) {
    && (forall a :: a in keys ==> a in totals)
    && 0 <= k < |keys|
    && (forall j :: 0 <= j < |keys| ==> totals[keys[j]] <= totals[keys[k]])
    && (forall j :: 0 <= j < k ==> totals[keys[j]] < totals[keys[k]])
  }

  lemma {:induction false} TopFromIsFirstTop(keys: seq<string>, totals: map<string, int>, i: nat, k: nat)
    requires forall a :: a in keys ==> a in totals
    requires k < i <= |keys|
    requires forall j :: 0 <= j < i ==> totals[keys[j]] <= totals[keys[k]]
    requires forall j :: 0 <= j < k ==> totals[keys[j]] < totals[keys[k]]
    ensures exists k' :: IsFirstTop(keys, totals, k') && TopFrom(keys, totals, i, keys[k]) == keys[k']
    decreases |keys| - i
  {
    assert keys[k] in keys;
    if i == |keys| {
      assert IsFirstTop(keys, totals, k);
    } else {
      assert keys[i] in keys;
      if totals[keys[i]] > totals[keys[k]] {
        TopFromIsFirstTop(keys, totals, i + 1, i);
      } else {
        TopFromIsFirstTop(keys, totals, i + 1, k);
      }
    }
  }

  /** The argmax returns the first key with the largest total. */
  lemma TopAuthorIsFirstTop(keys: seq<string>, totals: map<string, int>)
    requires |keys| > 0
    requires forall a :: a in keys ==> a in totals
    ensures exists k :: IsFirstTop(keys, totals, k) && TopAuthor(keys, totals) == keys[k]
  {
    TopFromIsFirstTop(keys, totals, 1, 0);
  }

  // ---------------------------------------------------------------------
  // mostBlogs and mostLikes

  /**
   * `author` wins a per-author tally: some blog is theirs, no author has a
   * larger total, and every blog before their first blog is by an author with
   * a strictly smaller total (the earlier author wins a tie).
   */
  ghost predicate IsTopAuthor(blogs: seq<Blog>, m: Measure, author: string) {
    && FirstBy(blogs, author) < |blogs|
    && (forall j :: 0 <= j < |blogs| ==> AuthorTotal(blogs, m, blogs[j].author) <= AuthorTotal(blogs, m, author))
    && (forall j :: 0 <= j < FirstBy(blogs, author) ==> AuthorTotal(blogs, m, blogs[j].author) < AuthorTotal(blogs, m, author))
  }

  /** The winner of a tally is determined: two winners are the same author. */
  lemma TopAuthorIsUnique(blogs: seq<Blog>, m: Measure, a1: string, a2: string)
    requires IsTopAuthor(blogs, m, a1) && IsTopAuthor(blogs, m, a2)
    ensures a1 == a2
  {
    // The first blog of each winner bounds the other winner's total.
    var b1, b2 := blogs[FirstBy(blogs, a1)], blogs[FirstBy(blogs, a2)];
    assert AuthorTotal(blogs, m, b1.author) <= AuthorTotal(blogs, m, a2);
    assert AuthorTotal(blogs, m, b2.author) <= AuthorTotal(blogs, m, a1);
  }

  /** The tallied dictionary: keys in first-appearance order, each mapped to its author's total. */
  ghost predicate IsTally(blogs: seq<Blog>, m: Measure, authors: seq<string>, totals: map<string, int>) {
    && authors == Authors(blogs)
    && (forall a :: a in totals <==> a in authors)
    && (forall a :: a in totals ==> totals[a] == AuthorTotal(blogs, m, a))
  }

  /** The winning key's total bounds every blog's author's total, strictly before its first blog. */
  lemma FirstTopBeatsBlog(blogs: seq<Blog>, m: Measure, authors: seq<string>, totals: map<string, int>, k: int, j: int)
    requires IsTally(blogs, m, authors, totals) && IsFirstTop(authors, totals, k) && 0 <= j < |blogs|
    ensures AuthorTotal(blogs, m, blogs[j].author) <= AuthorTotal(blogs, m, authors[k])
    ensures j < FirstBy(blogs, authors[k]) ==> AuthorTotal(blogs, m, blogs[j].author) < AuthorTotal(blogs, m, authors[k])
  {
    AuthorsInFirstAppearanceOrder(blogs);
    var a := blogs[j].author;
    assert FirstBy(blogs, a) <= j;
    assert a in authors;
    var ka :| 0 <= ka < |authors| && authors[ka] == a;
    assert authors[k] in authors;
    if j < FirstBy(blogs, authors[k]) {
      assert ka < k;
    }
  }

  /** The argmax over the tallied dictionary picks the winner of the tally. */
  lemma TallyWinnerIsTopAuthor(blogs: seq<Blog>, m: Measure, authors: seq<string>, totals: map<string, int>)
    requires |blogs| > 0
    requires IsTally(blogs, m, authors, totals)
    ensures |authors| > 0
    ensures IsTopAuthor(blogs, m, TopAuthor(authors, totals))
  {
    AuthorsInFirstAppearanceOrder(blogs);
    assert FirstBy(blogs, blogs[0].author) == 0;
    TopAuthorIsFirstTop(authors, totals);
    var k :| IsFirstTop(authors, totals, k) && TopAuthor(authors, totals) == authors[k];
    assert authors[k] in authors;
    forall j | 0 <= j < |blogs|
      ensures AuthorTotal(blogs, m, blogs[j].author) <= AuthorTotal(blogs, m, authors[k])
      ensures j < FirstBy(blogs, authors[k]) ==> AuthorTotal(blogs, m, blogs[j].author) < AuthorTotal(blogs, m, authors[k])
    {
      FirstTopBeatsBlog(blogs, m, authors, totals, k, j);
    }
  }

  /** The shared body of mostBlogs and mostLikes for a non-empty list. */
  method TopByAuthor(blogs: seq<Blog>, m: Measure) returns (author: string, total: int)
    requires |blogs| > 0
    ensures total == AuthorTotal(blogs, m, author) && IsTopAuthor(blogs, m, author)
  {
    var authors, totals := TallyByAuthor(blogs, m);
    TallyWinnerIsTopAuthor(blogs, m, authors, totals);
    author := TopAuthor(authors, totals);
    assert author in totals by {
      TopAuthorIsFirstTop(authors, totals);
    }
    total := totals[author];
  }

  method MostBlogs(blogs: seq<Blog>) returns (r: Option<AuthorBlogs>)
    ensures match r
      case None => |blogs| == 0
      case Some(top) => |blogs| > 0 && top.blogs == AuthorTotal(blogs, BlogCount, top.author) && IsTopAuthor(blogs, BlogCount, top.author)
  {
    if |blogs| == 0 {
      return None;
    }
    var author, count := TopByAuthor(blogs, BlogCount);
    r := Some(AuthorBlogs(author, count));
  }

  method MostLikes(blogs: seq<Blog>) returns (r: Option<AuthorLikes>)
    ensures match r
      case None => |blogs| == 0
      case Some(top) => |blogs| > 0 && top.likes == AuthorTotal(blogs, LikeSum, top.author) && IsTopAuthor(blogs, LikeSum, top.author)
  {
    if |blogs| == 0 {
      return None;
    }
    var author, likes := TopByAuthor(blogs, LikeSum);
    r := Some(AuthorLikes(author, likes));
  }

  // ---------------------------------------------------------------------
  // The per-author totals add up to the overall total

  /** No author appears twice. */
  ghost predicate Distinct(authors: seq<string>) {
    forall i, j :: 0 <= i < j < |authors| ==> authors[i] != authors[j]
  }

  lemma AuthorsAreDistinct(blogs: seq<Blog>)
    ensures Distinct(Authors(blogs))
  {
    AuthorsInFirstAppearanceOrder(blogs);
  }

  lemma AuthorTotalOfAppended(p: seq<Blog>, blog: Blog, m: Measure, author: string)
    ensures AuthorTotal(p + [blog], m, author) ==
      AuthorTotal(p, m, author) + (if blog.author == author then Weight(m, blog) else 0)
  {
    assert (p + [blog])[..|p|] == p;
  }

  lemma {:induction false} SumOverAppendedBlog(p: seq<Blog>, blog: Blog, m: Measure, authors: seq<string>)
    requires Distinct(authors)
    ensures SumOver(p + [blog], m, authors) ==
      SumOver(p, m, authors) + (if blog.author in authors then Weight(m, blog) else 0)
  {
    if |authors| > 0 {
      var front := authors[..|authors| - 1];
      var last := authors[|authors| - 1];
      assert authors == front + [last];
      assert last !in front;
      assert Distinct(front);
      SumOverAppendedBlog(p, blog, m, front);
      AuthorTotalOfAppended(p, blog, m, last);
    }
  }

  /** Summing every author's total gives the total weight of the list. */
  lemma {:induction false} AuthorTotalsAddUp(blogs: seq<Blog>, m: Measure)
    ensures SumOver(blogs, m, Authors(blogs)) == Sum(blogs, m)
  {
    if |blogs| > 0 {
      var p := blogs[..|blogs| - 1];
      var blog := blogs[|blogs| - 1];
      assert blogs == p + [blog];
      AuthorTotalsAddUp(p, m);
      var earlier := Authors(p);
      AuthorsAreDistinct(p);
      SumOverAppendedBlog(p, blog, m, earlier);
      if blog.author !in earlier {
        assert (earlier + [blog.author])[..|earlier|] == earlier;
        AuthorTotalOfAbsent(p, m, blog.author);
        AuthorTotalOfAppended(p, blog, m, blog.author);
      }
    }
  }

  lemma {:induction false} CountIsLength(blogs: seq<Blog>)
    ensures Sum(blogs, BlogCount) == |blogs|
  {
    if |blogs| > 0 {
      CountIsLength(blogs[..|blogs| - 1]);
    }
  }

  /** The counts of mostBlogs's dictionary add up to the number of blogs. */
  lemma BlogCountsAddUpToLength(blogs: seq<Blog>)
    ensures SumOver(blogs, BlogCount, Authors(blogs)) == |blogs|
  {
    AuthorTotalsAddUp(blogs, BlogCount);
    CountIsLength(blogs);
  }

  /** The like sums of mostLikes's dictionary add up to totalLikes. */
  lemma AuthorLikesAddUpToTotalLikes(blogs: seq<Blog>)
    ensures SumOver(blogs, LikeSum, Authors(blogs)) == TotalLikes(blogs)
  {
    AuthorTotalsAddUp(blogs, LikeSum);
    TotalLikesIsSum(blogs);
  }
}
