/**
 * app/api/admin/blogs/route.ts: the administrators' blog collection.  `POST`
 * creates a post when every required field is given and its slug is not
 * taken, stamps `publishedAt` exactly when the post is published and then
 * asks for the subscribers to be notified; `GET` lists the posts filtered by
 * publication state and category, newest first, one page at a time.
 */
module Blogs {
  import opened Wrappers
  import opened Text
  import opened Seqs
  import opened Pagination

  /** A row of the `blog` table (the author and category it links to are referenced by id). */
  datatype Blog = Blog(id: string, title: string, slug: string, excerpt: string, content: string,
                       coverImage: Option<string>, published: bool, publishedAt: Option<nat>,
                       authorId: string, categoryId: string, createdAt: nat)

  /** The request body of `POST`. */
  datatype BlogInput = BlogInput(title: Option<string>, slug: Option<string>, excerpt: Option<string>,
                                 content: Option<string>, coverImage: Option<string>, published: Option<bool>,
                                 authorId: Option<string>, categoryId: Option<string>)

  /** The slug column is unique. */
  predicate UniqueSlugs(blogs: seq<Blog>) {
    forall i, j :: 0 <= i < j < |blogs| ==> blogs[i].slug != blogs[j].slug
  }

  /** A post carries a publication time exactly when it is published. */
  predicate Stamped(b: Blog) {
    b.publishedAt.Some? <==> b.published
  }

  predicate AllStamped(blogs: seq<Blog>) {
    forall i :: 0 <= i < |blogs| ==> Stamped(blogs[i])
  }

  /** `findUnique({ where: { slug } })`. */
  function FindSlug(blogs: seq<Blog>, slug: string): (r: Option<nat>)
    ensures r.Some? ==> r.value < |blogs| && blogs[r.value].slug == slug
    ensures r.None? ==> forall i :: 0 <= i < |blogs| ==> blogs[i].slug != slug
  {
    FindLast(blogs, (b: Blog) => b.slug, slug)
  }

  /** `findUnique({ where: { id } })`. */
  function FindId(blogs: seq<Blog>, id: string): (r: Option<nat>)
    ensures r.Some? ==> r.value < |blogs| && blogs[r.value].id == id
    ensures r.None? ==> forall i :: 0 <= i < |blogs| ==> blogs[i].id != id
  {
    FindLast(blogs, (b: Blog) => b.id, id)
  }

  predicate RequiredGiven(input: BlogInput) {
    && Present(input.title) && Present(input.slug) && Present(input.excerpt) && Present(input.content)
    && Present(input.authorId) && Present(input.categoryId)
  }

  /** The row `create` stores for an accepted request: the cover image or null, unpublished unless asked. */
  function NewBlog(input: BlogInput, id: string, now: nat): (b: Blog)
    requires RequiredGiven(input)
    ensures b.published <==> input.published == Some(true)
    ensures Stamped(b) && (b.published ==> b.publishedAt == Some(now))
    ensures b.coverImage.Some? <==> Present(input.coverImage)
    ensures Present(input.coverImage) ==> b.coverImage == input.coverImage
    ensures b.id == id && b.slug == input.slug.value && b.title == input.title.value && b.createdAt == now
    ensures b.excerpt == input.excerpt.value && b.content == input.content.value
    ensures b.authorId == input.authorId.value && b.categoryId == input.categoryId.value
  {
    var published := input.published == Some(true);
    Blog(id, input.title.value, input.slug.value, input.excerpt.value, input.content.value,
         if Present(input.coverImage) then input.coverImage else None,
         published, if published then Some(now) else None,
         input.authorId.value, input.categoryId.value, now)
  }

  datatype PostReply = MissingFields | SlugTaken | Created(blog: Blog)

  function StatusCode(r: PostReply): nat {
    match r
    case MissingFields => 400
    case SlugTaken => 409
    case Created(_) => 200
  }

  /** The reply, the new table and the post whose subscribers are to be notified. */
  datatype PostOutcome = PostOutcome(reply: PostReply, blogs: seq<Blog>, notify: Option<string>)

  /** What one `POST` does; `id` is the identifier the database gives the new row. */
  function Post(blogs: seq<Blog>, input: BlogInput, id: string, now: nat): (o: PostOutcome)
    ensures o.reply == MissingFields <==> !RequiredGiven(input)
    ensures o.reply == SlugTaken <==> RequiredGiven(input) && FindSlug(blogs, input.slug.value).Some?
    ensures !o.reply.Created? ==> o.blogs == blogs && o.notify == None
    ensures o.reply.Created? ==>
      && RequiredGiven(input) && o.reply.blog == NewBlog(input, id, now)
      && o.blogs == blogs + [o.reply.blog]
      && (o.notify.Some? <==> o.reply.blog.published)
      && (o.notify.Some? ==> o.notify.value == id)
  {
    if !RequiredGiven(input) then PostOutcome(MissingFields, blogs, None)
    else if FindSlug(blogs, input.slug.value).Some? then PostOutcome(SlugTaken, blogs, None)
    else
      var blog := NewBlog(input, id, now);
      PostOutcome(Created(blog), blogs + [blog], if blog.published then Some(blog.id) else None)
  }

  /** `POST` keeps the slugs unique and every post stamped consistently. */
  lemma PostKeepsInvariant(blogs: seq<Blog>, input: BlogInput, id: string, now: nat)
    requires UniqueSlugs(blogs) && AllStamped(blogs)
    ensures var after := Post(blogs, input, id, now).blogs;
      UniqueSlugs(after) && AllStamped(after)
  {
  }

  /** A second post with the same slug is refused and changes nothing. */
  lemma SlugTakenAfterCreate(blogs: seq<Blog>, input: BlogInput, other: BlogInput, id: string, id': string, now: nat, now': nat)
    requires Post(blogs, input, id, now).reply.Created?
    requires RequiredGiven(other) && other.slug == input.slug
    ensures var after := Post(blogs, input, id, now).blogs;
      Post(after, other, id', now') == PostOutcome(SlugTaken, after, None)
  {
    var after := Post(blogs, input, id, now).blogs;
    assert after[|blogs|].slug == other.slug.value;
  }

  /** The query string of `GET`. */
  datatype Query = Query(page: Option<Positive>, limit: Option<Positive>, published: Option<string>, categoryId: Option<string>)

  const DefaultLimit: Positive := 10

  /** The `where` record: `published` is filtered whenever it is in the query, as `published === 'true'`. */
  predicate Matches(q: Query, b: Blog) {
    && (q.published.Some? ==> b.published == (q.published.value == "true"))
    && (Present(q.categoryId) ==> b.categoryId == q.categoryId.value)
  }

  function MatchesQuery(q: Query): Blog -> bool {
    b => Matches(q, b)
  }

  /** `orderBy: { createdAt: 'desc' }`. */
  predicate NewerFirst(a: Blog, b: Blog) {
    a.createdAt >= b.createdAt
  }

  lemma NewerFirstIsTotalPreorder()
    ensures TotalPreorder(NewerFirst)
  {
  }

  function Ordered(blogs: seq<Blog>, q: Query): (r: seq<Blog>)
    ensures multiset(r) == multiset(Filter(blogs, MatchesQuery(q)))
    ensures SortedBy(r, NewerFirst)
  {
    NewerFirstIsTotalPreorder();
    SortBy(Filter(blogs, MatchesQuery(q)), NewerFirst)
  }

  datatype Listing = Listing(blogs: seq<Blog>, page: nat, limit: nat, total: nat, totalPages: nat)

  /** `GET`. */
  function List(blogs: seq<Blog>, q: Query): (r: Listing)
    ensures r.page == q.page.GetOr(1) && r.limit == q.limit.GetOr(DefaultLimit)
    ensures r.total == Count(blogs, MatchesQuery(q))
    ensures r.totalPages == TotalPages(r.total, r.limit)
    ensures r.blogs == Page(Ordered(blogs, q), r.page, r.limit)
  {
    var page: Positive := q.page.GetOr(1);
    var limit: Positive := q.limit.GetOr(DefaultLimit);
    var total := Count(blogs, MatchesQuery(q));
    Listing(Page(Ordered(blogs, q), page, limit), page, limit, total, TotalPages(total, limit))
  }

  /** Every listed post is in the table and meets the filter. */
  lemma ListedPostsMatch(blogs: seq<Blog>, q: Query, b: Blog)
    requires b in List(blogs, q).blogs
    ensures b in blogs && Matches(q, b)
  {
    var o := Ordered(blogs, q);
    var r := List(blogs, q);
    var i :| 0 <= i < |r.blogs| && r.blogs[i] == b;
    assert b == o[(r.page - 1) * r.limit + i];
    assert b in multiset(o);
  }

  /** The listed posts are newest first. */
  lemma ListedNewestFirst(blogs: seq<Blog>, q: Query)
    ensures SortedBy(List(blogs, q).blogs, NewerFirst)
  {
    var o := Ordered(blogs, q);
    var r := List(blogs, q);
    forall a, c | 0 <= a < c < |r.blogs| ensures NewerFirst(r.blogs[a], r.blogs[c]) {
      assert r.blogs[a] == o[(r.page - 1) * r.limit + a];
      assert r.blogs[c] == o[(r.page - 1) * r.limit + c];
    }
  }

  /**
   * Any value of `published` other than "true" selects the drafts, so the
   * published and the unpublished listings together count every post of the
   * category once.
   */
  lemma PublishedSplitsCount(blogs: seq<Blog>, page: Option<Positive>, limit: Option<Positive>, category: Option<string>, other: string)
    requires other != "true"
    ensures List(blogs, Query(page, limit, Some("true"), category)).total
          + List(blogs, Query(page, limit, Some(other), category)).total
         == List(blogs, Query(page, limit, None, category)).total
  {
    CountPartition(blogs, MatchesQuery(Query(page, limit, None, category)),
                   MatchesQuery(Query(page, limit, Some("true"), category)),
                   MatchesQuery(Query(page, limit, Some(other), category)));
  }

  /** The `blog` table. */
  class BlogTable {
    var rows: seq<Blog>

    ghost predicate Valid()
      reads this
    {
      UniqueSlugs(rows) && AllStamped(rows)
    }

    constructor()
      ensures Valid() && rows == []
    {
      rows := [];
    }

    /** `POST`; `notify` is the post id sent to the notification route, when one is sent. */
    method Create(input: BlogInput, id: string, now: nat) returns (reply: PostReply, notify: Option<string>)
      requires Valid()
      modifies this
      ensures Valid()
      ensures var o := Post(old(rows), input, id, now);
        reply == o.reply && rows == o.blogs && notify == o.notify
    {
      if !RequiredGiven(input) {
        return MissingFields, None;
      }
      var existing := FindSlug(rows, input.slug.value);
      if existing.Some? {
        return SlugTaken, None;
      }
      var blog := NewBlog(input, id, now);
      rows := rows + [blog];
      reply := Created(blog);
      notify := if blog.published then Some(blog.id) else None;
    }
  }
}
