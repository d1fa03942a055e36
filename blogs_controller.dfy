/**
 * The blog routes: list all blogs, create a blog, update one and delete one.
 *
 * The MongoDB collection the routes work on is a class holding a sequence of
 * stored documents, each with a unique id. `Blog.find`, `save`,
 * `findByIdAndUpdate` and `findByIdAndDelete` are its methods. What the
 * routes themselves decide (the checks of a new blog, and the record built
 * from a request body) is given by functions on values.
 */
module BlogsController {
  import opened Wrappers
  import opened Http

  /** A JSON request body: the four blog fields, each possibly absent, and whatever else was sent. */
  datatype RequestBody = RequestBody(
    title: Option<string>,
    author: Option<string>,
    url: Option<string>,
    likes: Option<int>,
    others: map<string, string>)

  /** The record the routes build and hand to the database: exactly four fields. */
  datatype BlogFields = BlogFields(title: Option<string>, author: Option<string>, url: Option<string>, likes: Option<int>)

  /** A document of the blogs collection. */
  datatype StoredBlog = StoredBlog(id: nat, fields: BlogFields)

  /** The JSON a blog route responds with: one blog, a list of blogs, or `null`. */
  datatype Payload = One(blog: StoredBlog) | Many(blogs: seq<StoredBlog>) | Null

  // ---------------------------------------------------------------------
  // Records built from a request body

  /** The update record of PUT: the body's title, author, url and likes, and nothing else. */
  function UpdateRecord(body: RequestBody): (r: BlogFields)
    ensures r.title == body.title && r.author == body.author
    ensures r.url == body.url && r.likes == body.likes
  {
    BlogFields(body.title, body.author, body.url, body.likes)
  }

  /** The checks of POST, in order: a falsy title, then a falsy url; otherwise the new record. */
  function NewBlogRecord(body: RequestBody): (r: Result<BlogFields, string>)
    ensures r.Success? <==> Truthy(body.title) && Truthy(body.url)
    ensures !Truthy(body.title) ==> r == Failure("title missing")
    ensures Truthy(body.title) && !Truthy(body.url) ==> r == Failure("url missing")
    ensures r.Success? ==> r.value == UpdateRecord(body)
  {
    if !Truthy(body.title) then Failure("title missing")
    else if !Truthy(body.url) then Failure("url missing")
    else Success(BlogFields(body.title, body.author, body.url, body.likes))
  }

  /** Fields of the body other than the four are dropped by POST and by PUT. */
  lemma OtherFieldsAreDropped(body: RequestBody, others: map<string, string>)
    ensures NewBlogRecord(body.(others := others)) == NewBlogRecord(body)
    ensures UpdateRecord(body.(others := others)) == UpdateRecord(body)
  {
  }

  /**
   * A field absent from an update record leaves the stored value as it is
   * (the database drops keys whose value is `undefined`).
   */
  function Merge(stored: BlogFields, update: BlogFields): (r: BlogFields)
    ensures r.title == (if update.title.Some? then update.title else stored.title)
    ensures r.author == (if update.author.Some? then update.author else stored.author)
    ensures r.url == (if update.url.Some? then update.url else stored.url)
    ensures r.likes == (if update.likes.Some? then update.likes else stored.likes)
  {
    BlogFields(
      if update.title.Some? then update.title else stored.title,
      if update.author.Some? then update.author else stored.author,
      if update.url.Some? then update.url else stored.url,
      if update.likes.Some? then update.likes else stored.likes)
  }

  /** Applying the same update twice is the same as applying it once. */
  lemma MergeIsIdempotent(stored: BlogFields, update: BlogFields)
    ensures Merge(Merge(stored, update), update) == Merge(stored, update)
  {
  }

  // ---------------------------------------------------------------------
  // Queries and updates of the stored documents

  /** No two stored documents share an id. */
  ghost predicate UniqueIds(blogs: seq<StoredBlog>) {
    forall i, j :: 0 <= i < j < |blogs| ==> blogs[i].id != blogs[j].id
  }

  /** `findById`: the document with the id, or none. */
  function Find(blogs: seq<StoredBlog>, id: nat): (r: Option<StoredBlog>)
    ensures r.Some? ==> r.value in blogs && r.value.id == id
    ensures r.None? <==> forall b :: b in blogs ==> b.id != id
  {
    if |blogs| == 0 then None
    else if blogs[0].id == id then Some(blogs[0])
    else Find(blogs[1..], id)
  }

  /** The documents after `findByIdAndDelete(id)`: every one whose id differs, in order. */
  function Without(blogs: seq<StoredBlog>, id: nat): (r: seq<StoredBlog>)
    ensures forall b :: b in r <==> b in blogs && b.id != id
    ensures |r| <= |blogs|
  {
    if |blogs| == 0 then []
    else if blogs[0].id == id then Without(blogs[1..], id)
    else [blogs[0]] + Without(blogs[1..], id)
  }

  /**
   * Deletion keeps the order of what remains: deleting from two lists put
   * together is deleting from each and putting the rests together.
   */
  lemma {:induction false} WithoutKeepsOrder(front: seq<StoredBlog>, back: seq<StoredBlog>, id: nat)
    ensures Without(front + back, id) == Without(front, id) + Without(back, id)
  {
    if |front| == 0 {
      assert front + back == back;
    } else {
      assert (front + back)[0] == front[0];
      assert (front + back)[1..] == front[1..] + back;
      WithoutKeepsOrder(front[1..], back, id);
    }
  }

  /** Deleting an id that is not stored changes nothing. */
  lemma {:induction false} WithoutAbsentId(blogs: seq<StoredBlog>, id: nat)
    requires Find(blogs, id).None?
    ensures Without(blogs, id) == blogs
  {
    if |blogs| > 0 {
      assert blogs[0] in blogs;
      assert Find(blogs[1..], id).None?;
      WithoutAbsentId(blogs[1..], id);
    }
  }

  /** With unique ids, deleting a stored id removes exactly one document. */
  lemma {:induction false} WithoutStoredId(blogs: seq<StoredBlog>, id: nat)
    requires UniqueIds(blogs)
    requires Find(blogs, id).Some?
    ensures |Without(blogs, id)| == |blogs| - 1
  {
    assert UniqueIds(blogs[1..]);
    if blogs[0].id == id {
      assert forall b :: b in blogs[1..] ==> b.id != id;
      WithoutAbsentId(blogs[1..], id);
    } else {
      WithoutStoredId(blogs[1..], id);
    }
  }

  /** Deleting twice is the same as deleting once. */
  lemma WithoutIsIdempotent(blogs: seq<StoredBlog>, id: nat)
    ensures Without(Without(blogs, id), id) == Without(blogs, id)
  {
    WithoutAbsentId(Without(blogs, id), id);
  }

  /** The documents after `findByIdAndUpdate(id, update)`: the one with the id has the update merged in. */
  function Updated(blogs: seq<StoredBlog>, id: nat, update: BlogFields): (r: seq<StoredBlog>)
    ensures |r| == |blogs|
    ensures forall i :: 0 <= i < |blogs| ==> r[i].id == blogs[i].id
    ensures forall i :: 0 <= i < |blogs| ==>
      r[i].fields == if blogs[i].id == id then Merge(blogs[i].fields, update) else blogs[i].fields
  {
    if |blogs| == 0 then []
    else
      var first := if blogs[0].id == id then StoredBlog(id, Merge(blogs[0].fields, update)) else blogs[0];
      [first] + Updated(blogs[1..], id, update)
  }

  // ---------------------------------------------------------------------
  // The collection and the routes

  class BlogStore {
    /** The documents of the collection, in insertion order. */
    var blogs: seq<StoredBlog>
    /** The id the next saved document gets. */
    var nextId: nat

    ghost predicate Valid()
      reads this
    {
      && UniqueIds(blogs)
      && forall i :: 0 <= i < |blogs| ==> blogs[i].id < nextId
    }

    constructor ()
      ensures Valid() && blogs == []
    {
      blogs := [];
      nextId := 0;
    }

    /** GET /: every stored blog. */
    method GetAll() returns (r: Response<Payload>)
      ensures r.status == 200 && r.body.JsonBody? && r.body.value.Many?
      ensures r.body.value.blogs == blogs
    {
      r := Response(200, JsonBody(Many(blogs)));
    }

    /** POST /: checks the body; stores and returns the new blog, or stores nothing and responds 400. */
    method Create(body: RequestBody) returns (r: Response<Payload>)
      requires Valid()
      modifies this
      ensures Valid()
      ensures NewBlogRecord(body).Failure? ==>
        && r == Response(400, ErrorBody(NewBlogRecord(body).error))
        && blogs == old(blogs) && nextId == old(nextId)
      ensures NewBlogRecord(body).Success? ==>
        && var saved := StoredBlog(old(nextId), NewBlogRecord(body).value);
        && Find(old(blogs), saved.id).None?
        && blogs == old(blogs) + [saved]
        && r == Response(201, JsonBody(One(saved)))
        && nextId == old(nextId) + 1
    {
      var record := NewBlogRecord(body);
      if record.Failure? {
        return Response(400, ErrorBody(record.error));
      }
      var saved := StoredBlog(nextId, record.value);
      assert forall b :: b in blogs ==> b.id != saved.id;
      blogs := blogs + [saved];
      nextId := nextId + 1;
      r := Response(201, JsonBody(One(saved)));
    }

    /** PUT /:id: merges the update record; responds with the updated blog, or `null` when there is none. */
    method Update(id: nat, body: RequestBody) returns (r: Response<Payload>)
      requires Valid()
      modifies this
      ensures Valid() && nextId == old(nextId)
      ensures blogs == Updated(old(blogs), id, UpdateRecord(body))
      ensures r.status == 200 && r.body.JsonBody?
      ensures r.body.value == match Find(blogs, id) case Some(b) => One(b) case None => Null
    {
      blogs := Updated(blogs, id, UpdateRecord(body));
      var found := Find(blogs, id);
      r := Response(200, JsonBody(match found case Some(b) => One(b) case None => Null));
    }

    /** DELETE /:id: removes the blog with the id, if any, and responds 204 in either case. */
    method Delete(id: nat) returns (r: Response<Payload>)
      requires Valid()
      modifies this
      ensures Valid() && nextId == old(nextId)
      ensures blogs == Without(old(blogs), id)
      ensures r == Response(204, NoBody)
    {
      ghost var before := blogs;
      blogs := Without(blogs, id);
      WithoutKeepsUniqueIds(before, id);
      r := Response(204, NoBody);
    }
  }

  lemma {:induction false} WithoutKeepsUniqueIds(blogs: seq<StoredBlog>, id: nat)
    requires UniqueIds(blogs)
    ensures UniqueIds(Without(blogs, id))
  {
    if |blogs| > 0 {
      assert UniqueIds(blogs[1..]);
      WithoutKeepsUniqueIds(blogs[1..], id);
      if blogs[0].id != id {
        var rest := Without(blogs[1..], id);
        forall b | b in rest ensures b.id != blogs[0].id {
          assert b in blogs[1..];
        }
      }
    }
  }

  /** On any store, a valid POST lists one more blog than before and responds 201. */
  method CreateGrowsTheList(store: BlogStore, body: RequestBody) returns (before: nat, after: nat, r: Response<Payload>)
    requires store.Valid() && NewBlogRecord(body).Success?
    modifies store
    ensures r.status == 201
    ensures before == |old(store.blogs)| && after == |store.blogs|
    ensures after == before + 1
    ensures exists b :: b in store.blogs && b.fields.title == body.title
  {
    var listed := store.GetAll();
    before := |listed.body.value.blogs|;
    r := store.Create(body);
    listed := store.GetAll();
    after := |listed.body.value.blogs|;
  }
}
