/**
 * The blog categories: the public route app/api/categories/route.ts, which
 * derives the slug from the name and stores the trimmed name, and the
 * administrators' route app/api/admin/categories/route.ts, which stores a
 * given name and slug verbatim after checking that the slug is free.  Both
 * list the categories by name with a count of their posts.
 */
module Categories {
  import opened Wrappers
  import opened Text
  import opened Seqs
  import opened Slug
  import Blogs

  /** A row of `blogCategory`. */
  datatype Category = Category(id: string, name: string, slug: string)

  /** The slug column is unique. */
  predicate UniqueSlugs(rows: seq<Category>) {
    forall i, j :: 0 <= i < j < |rows| ==> rows[i].slug != rows[j].slug
  }

  /** `findUnique({ where: { slug } })`. */
  function FindSlug(rows: seq<Category>, slug: string): (r: Option<nat>)
    ensures r.Some? ==> r.value < |rows| && rows[r.value].slug == slug
    ensures r.None? ==> forall i :: 0 <= i < |rows| ==> rows[i].slug != slug
  {
    FindLast(rows, (c: Category) => c.slug, slug)
  }

  predicate HasSlug(rows: seq<Category>, slug: string) {
    exists i :: 0 <= i < |rows| && rows[i].slug == slug
  }

  datatype CreateReply = MissingFields | Conflict | Created(category: Category)

  datatype Outcome = Outcome(reply: CreateReply, rows: seq<Category>)

  /**
   * The public `POST`.  The insert fails with a unique-constraint error when
   * the slug is taken, or when `otherConflict` says another unique column of
   * the table rejects the row.
   */
  function PublicCreate(rows: seq<Category>, name: Option<string>, id: string, otherConflict: bool): (o: Outcome)
    ensures o.reply == MissingFields <==> !Present(name)
    ensures o.reply == Conflict <==>
      Present(name) && (HasSlug(rows, GenerateSlug(name.value)) || otherConflict)
    ensures !o.reply.Created? ==> o.rows == rows
    ensures o.reply.Created? ==>
      && o.reply.category == Category(id, Trim(name.value), GenerateSlug(Trim(name.value)))
      && o.rows == rows + [o.reply.category]
  {
    if !Present(name) then Outcome(MissingFields, rows)
    else
      var slug := GenerateSlug(name.value);
      if FindSlug(rows, slug).Some? || otherConflict then Outcome(Conflict, rows)
      else
        SlugIgnoresTrim(name.value);
        var c := Category(id, Trim(name.value), slug);
        Outcome(Created(c), rows + [c])
  }

  /** The stored slug is well formed, and it is the slug of the stored name. */
  lemma PublicSlugIsCanonical(rows: seq<Category>, name: Option<string>, id: string, otherConflict: bool)
    requires PublicCreate(rows, name, id, otherConflict).reply.Created?
    ensures var c := PublicCreate(rows, name, id, otherConflict).reply.category;
      IsSlug(c.slug) && GenerateSlug(c.name) == c.slug && GenerateSlug(c.slug) == c.slug
  {
    var c := PublicCreate(rows, name, id, otherConflict).reply.category;
    SlugIdempotent(c.name);
  }

  /** The administrators' `POST`: both fields required, the slug free, the row stored as given. */
  function AdminCreate(rows: seq<Category>, name: Option<string>, slug: Option<string>, id: string): (o: Outcome)
    ensures o.reply == MissingFields <==> !Present(name) || !Present(slug)
    ensures o.reply == Conflict <==> Present(name) && Present(slug) && HasSlug(rows, slug.value)
    ensures !o.reply.Created? ==> o.rows == rows
    ensures o.reply.Created? ==>
      o.reply.category == Category(id, name.value, slug.value) && o.rows == rows + [o.reply.category]
  {
    if !Present(name) || !Present(slug) then Outcome(MissingFields, rows)
    else if FindSlug(rows, slug.value).Some? then Outcome(Conflict, rows)
    else
      var c := Category(id, name.value, slug.value);
      Outcome(Created(c), rows + [c])
  }

  /** Appending a row whose slug is free keeps the slugs unique. */
  lemma AppendKeepsUnique(rows: seq<Category>, c: Category)
    requires UniqueSlugs(rows) && !HasSlug(rows, c.slug)
    ensures UniqueSlugs(rows + [c])
  {
  }

  /** The administrators' route never stores a second row with a slug already in the table. */
  lemma AdminCreateKeepsUnique(rows: seq<Category>, name: Option<string>, slug: Option<string>, id: string)
    requires UniqueSlugs(rows)
    ensures UniqueSlugs(AdminCreate(rows, name, slug, id).rows)
  {
    var o := AdminCreate(rows, name, slug, id);
    if o.reply.Created? {
      AppendKeepsUnique(rows, o.reply.category);
    }
  }

  /** Nor does the public route. */
  lemma PublicCreateKeepsUnique(rows: seq<Category>, name: Option<string>, id: string, otherConflict: bool)
    requires UniqueSlugs(rows)
    ensures UniqueSlugs(PublicCreate(rows, name, id, otherConflict).rows)
  {
    var o := PublicCreate(rows, name, id, otherConflict);
    if o.reply.Created? {
      SlugIgnoresTrim(name.value);
      AppendKeepsUnique(rows, o.reply.category);
    }
  }

  /** The administrators' route does not normalise: a slug the public route could never produce is stored. */
  lemma AdminStoresVerbatim(rows: seq<Category>, id: string)
    requires !HasSlug(rows, "Not A Slug")
    ensures AdminCreate(rows, Some(" x "), Some("Not A Slug"), id).rows == rows + [Category(id, " x ", "Not A Slug")]
    ensures !IsSlug("Not A Slug")
  {
    assert !IsSlugChar("Not A Slug"[0]) && "Not A Slug"[0] != '-';
  }

  /** One entry of a listing: the category and the number of its posts counted. */
  datatype Entry = Entry(category: Category, count: nat)

  predicate ByName(a: Entry, b: Entry) {
    StrLe(a.category.name, b.category.name)
  }

  lemma ByNameIsTotalPreorder()
    ensures TotalPreorder(ByName)
  {
    forall a: Entry, b: Entry ensures ByName(a, b) || ByName(b, a) {
      StrLeTotal(a.category.name, b.category.name);
    }
    forall a: Entry, b: Entry, c: Entry | ByName(a, b) && ByName(b, c) ensures ByName(a, c) {
      StrLeTrans(a.category.name, b.category.name, c.category.name);
    }
  }

  function InCategory(c: Category): Blogs.Blog -> bool {
    (b: Blogs.Blog) => b.categoryId == c.id
  }

  function PublishedInCategory(c: Category): Blogs.Blog -> bool {
    (b: Blogs.Blog) => b.categoryId == c.id && b.published
  }

  /** Each category with its count under `counted`, ordered by name. */
  function Listing(rows: seq<Category>, blogs: seq<Blogs.Blog>, publishedOnly: bool): (r: seq<Entry>)
    ensures |r| == |rows|
    ensures multiset(r) == multiset(Entries(rows, blogs, publishedOnly))
    ensures SortedBy(r, ByName)
  {
    ByNameIsTotalPreorder();
    SortBy(Entries(rows, blogs, publishedOnly), ByName)
  }

  /** The rows with their counts, in table order. */
  function Entries(rows: seq<Category>, blogs: seq<Blogs.Blog>, publishedOnly: bool): (r: seq<Entry>)
    ensures |r| == |rows|
    ensures forall i :: 0 <= i < |rows| ==> r[i].category == rows[i]
    ensures forall i :: 0 <= i < |rows| ==>
      r[i].count == Count(blogs, if publishedOnly then PublishedInCategory(rows[i]) else InCategory(rows[i]))
  {
    seq(|rows|, i requires 0 <= i < |rows| =>
      Entry(rows[i], Count(blogs, if publishedOnly then PublishedInCategory(rows[i]) else InCategory(rows[i]))))
  }

  /** The public `GET`: by name, counting published posts only. */
  function PublicList(rows: seq<Category>, blogs: seq<Blogs.Blog>): seq<Entry> {
    Listing(rows, blogs, true)
  }

  /** The administrators' `GET`: by name, counting every post. */
  function AdminList(rows: seq<Category>, blogs: seq<Blogs.Blog>): seq<Entry> {
    Listing(rows, blogs, false)
  }

  /** Every category of the table is listed, once for each row. */
  lemma ListsEveryCategory(rows: seq<Category>, blogs: seq<Blogs.Blog>, c: Category)
    ensures c in rows <==> exists e :: e in PublicList(rows, blogs) && e.category == c
    ensures c in rows <==> exists e :: e in AdminList(rows, blogs) && e.category == c
  {
    forall publishedOnly: bool ensures c in rows <==> exists e :: e in Listing(rows, blogs, publishedOnly) && e.category == c {
      var es := Entries(rows, blogs, publishedOnly);
      var l := Listing(rows, blogs, publishedOnly);
      if c in rows {
        var i :| 0 <= i < |rows| && rows[i] == c;
        assert es[i] in multiset(l);
      }
      if e :| e in l && e.category == c {
        assert e in multiset(es);
        var i :| 0 <= i < |es| && es[i] == e;
        assert rows[i] == c;
      }
    }
  }

  /** The public count of a category never exceeds the administrators' count. */
  lemma PublishedCountAtMostAll(c: Category, blogs: seq<Blogs.Blog>)
    ensures Count(blogs, PublishedInCategory(c)) <= Count(blogs, InCategory(c))
  {
    CountMonotone(blogs, PublishedInCategory(c), InCategory(c));
  }

  /** The `blogCategory` table. */
  class CategoryTable {
    var rows: seq<Category>

    ghost predicate Valid()
      reads this
    {
      UniqueSlugs(rows)
    }

    constructor()
      ensures Valid() && rows == []
    {
      rows := [];
    }

    /** The public `POST`. */
    method PublicPost(name: Option<string>, id: string, otherConflict: bool) returns (reply: CreateReply)
      requires Valid()
      modifies this
      ensures Valid()
      ensures var o := PublicCreate(old(rows), name, id, otherConflict);
        reply == o.reply && rows == o.rows
    {
      if !Present(name) {
        return MissingFields;
      }
      var slug := GenerateSlug(name.value);
      if FindSlug(rows, slug).Some? || otherConflict {
        return Conflict;
      }
      SlugIgnoresTrim(name.value);
      var c := Category(id, Trim(name.value), slug);
      AppendKeepsUnique(rows, c);
      rows := rows + [c];
      reply := Created(c);
    }

    /** The administrators' `POST`. */
    method AdminPost(name: Option<string>, slug: Option<string>, id: string) returns (reply: CreateReply)
      requires Valid()
      modifies this
      ensures Valid()
      ensures var o := AdminCreate(old(rows), name, slug, id);
        reply == o.reply && rows == o.rows
    {
      if !Present(name) || !Present(slug) {
        return MissingFields;
      }
      var existing := FindSlug(rows, slug.value);
      if existing.Some? {
        return Conflict;
      }
      var c := Category(id, name.value, slug.value);
      AppendKeepsUnique(rows, c);
      rows := rows + [c];
      reply := Created(c);
    }
  }
}
