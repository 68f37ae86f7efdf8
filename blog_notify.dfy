/**
 * app/api/admin/blogs/notify/route.ts: the announcement of a new post to the
 * newsletter.  The post is looked up by id; every active subscriber is sent
 * one message built by the new-post template, fifty subscribers at a time,
 * and a failed send is ignored.
 */
module BlogNotify {
  import opened Wrappers
  import opened Text
  import opened Seqs
  import opened Pagination
  import opened EmailTemplates
  import opened EmailProcessor
  import Blogs
  import Newsletter

  const BatchSize: Positive := 50

  /** `findMany({ where: { active: true } })`, in table order. */
  function Active(subscribers: seq<Newsletter.Subscriber>): (r: seq<Newsletter.Subscriber>)
    ensures forall s :: s in r <==> s in subscribers && s.active
  {
    Filter(subscribers, (s: Newsletter.Subscriber) => s.active)
  }

  /** The name the greeting uses: `subscriber.name || 'Subscriber'`. */
  function Greeting(s: Newsletter.Subscriber): string {
    if Present(s.name) then s.name.value else "Subscriber"
  }

  /** The message for one subscriber. */
  function NotifyEmail(s: Newsletter.Subscriber, blog: Blogs.Blog, cfg: Config): (e: OutgoingEmail)
    ensures e.from == FromAddress(cfg) && e.to == [s.email]
    ensures PrefixedBy(e.subject, BlogPrefix, blog.title)
    ensures e.body.Rendered? && Value(Greeting(s)) in e.body.html && Value(BlogUrl(cfg.siteUrl, blog.slug)) in e.body.html
    ensures e.body.Rendered? && (Cover in e.body.html <==> Present(blog.coverImage))
  {
    var t := NewBlogNotification(cfg.siteUrl, Greeting(s), blog.title, blog.excerpt, blog.slug,
                                 if Present(blog.coverImage) then blog.coverImage else None);
    OutgoingEmail(FromAddress(cfg), [s.email], t.subject, Rendered(t.html))
  }

  /** One message per subscriber, in order (`batch.map`). */
  function NotifyEmails(subscribers: seq<Newsletter.Subscriber>, blog: Blogs.Blog, cfg: Config): (r: seq<OutgoingEmail>)
    ensures |r| == |subscribers|
    ensures forall j :: 0 <= j < |r| ==> r[j] == NotifyEmail(subscribers[j], blog, cfg)
  {
    seq(|subscribers|, j requires 0 <= j < |subscribers| => NotifyEmail(subscribers[j], blog, cfg))
  }

  lemma NotifyEmailsConcat(a: seq<Newsletter.Subscriber>, b: seq<Newsletter.Subscriber>, blog: Blogs.Blog, cfg: Config)
    ensures NotifyEmails(a + b, blog, cfg) == NotifyEmails(a, blog, cfg) + NotifyEmails(b, blog, cfg)
  {
  }

  /** No inactive subscriber is mailed when the e-mail column is unique. */
  lemma InactiveNotMailed(subscribers: seq<Newsletter.Subscriber>, blog: Blogs.Blog, cfg: Config, s: Newsletter.Subscriber)
    requires Newsletter.UniqueEmails(subscribers) && s in subscribers && !s.active
    ensures forall e :: e in NotifyEmails(Active(subscribers), blog, cfg) ==> e.to != [s.email]
  {
  }

  datatype NotifyReply = MissingBlogId | BlogNotFound | NoSubscribers | Notified(count: nat)

  function StatusCode(r: NotifyReply): nat {
    match r
    case MissingBlogId => 400
    case BlogNotFound => 404
    case NoSubscribers => 200
    case Notified(_) => 200
  }

  /** Batch `k` is page `k + 1` of the active subscribers. */
  ghost predicate BatchesArePages(active: seq<Newsletter.Subscriber>, batches: seq<seq<Newsletter.Subscriber>>) {
    forall k :: 0 <= k < |batches| ==> batches[k] == Page(active, k + 1, BatchSize)
  }

  /** The loop state after the batches sent so far. */
  ghost predicate SentSoFar(active: seq<Newsletter.Subscriber>, blog: Blogs.Blog, cfg: Config, i: nat,
                            batches: seq<seq<Newsletter.Subscriber>>, sends: seq<OutgoingEmail>)
  {
    && i == BatchSize * |batches|
    && (|batches| == 0 || (|batches| - 1) * BatchSize < |active|)
    && BatchesArePages(active, batches)
    && Concat(batches) == active[..Min(i, |active|)]
    && sends == NotifyEmails(active[..Min(i, |active|)], blog, cfg)
  }

  /** One more batch, `subscribers.slice(i, i + batchSize)`, keeps the loop state. */
  lemma NextBatch(active: seq<Newsletter.Subscriber>, blog: Blogs.Blog, cfg: Config, i: nat,
                  batches: seq<seq<Newsletter.Subscriber>>, sends: seq<OutgoingEmail>)
    requires i < |active| && SentSoFar(active, blog, cfg, i, batches, sends)
    ensures var batch := active[i..Min(i + BatchSize, |active|)];
      SentSoFar(active, blog, cfg, i + BatchSize, batches + [batch], sends + NotifyEmails(batch, blog, cfg))
  {
    PagesExtend(active, i, batches);
    assert Min(i, |active|) == i;
    PrefixExtend(active, blog, cfg, i, batches, sends);
  }

  lemma PagesExtend(active: seq<Newsletter.Subscriber>, i: nat, batches: seq<seq<Newsletter.Subscriber>>)
    requires i == BatchSize * |batches| && i < |active| && BatchesArePages(active, batches)
    ensures BatchesArePages(active, batches + [active[i..Min(i + BatchSize, |active|)]])
  {
    BatchIsPage(active, i, |batches|);
  }

  lemma PrefixExtend(active: seq<Newsletter.Subscriber>, blog: Blogs.Blog, cfg: Config, i: nat,
                     batches: seq<seq<Newsletter.Subscriber>>, sends: seq<OutgoingEmail>)
    requires i < |active| && Concat(batches) == active[..i] && sends == NotifyEmails(active[..i], blog, cfg)
    ensures var batch := active[i..Min(i + BatchSize, |active|)];
      && Concat(batches + [batch]) == active[..Min(i + BatchSize, |active|)]
      && sends + NotifyEmails(batch, blog, cfg) == NotifyEmails(active[..Min(i + BatchSize, |active|)], blog, cfg)
  {
    var batch := active[i..Min(i + BatchSize, |active|)];
    assert active[..Min(i + BatchSize, |active|)] == active[..i] + batch;
    ConcatAppend(batches, batch);
    NotifyEmailsConcat(active[..i], batch, blog, cfg);
  }

  /** `slice(i, i + batchSize)` at `i = batchSize * k` is page `k + 1`. */
  lemma BatchIsPage(active: seq<Newsletter.Subscriber>, i: nat, k: nat)
    requires i == BatchSize * k && i < |active|
    ensures active[i..Min(i + BatchSize, |active|)] == Page(active, k + 1, BatchSize)
  {
  }

  /** `POST`: the reply, the batches in the order they are sent, and the messages handed to the provider. */
  method Notify(blogs: seq<Blogs.Blog>, subscribers: seq<Newsletter.Subscriber>, blogId: Option<string>, cfg: Config)
    returns (reply: NotifyReply, batches: seq<seq<Newsletter.Subscriber>>, sends: seq<OutgoingEmail>)
    ensures !Present(blogId) ==> reply == MissingBlogId && batches == [] && sends == []
    ensures Present(blogId) && Blogs.FindId(blogs, blogId.value).None? ==> reply == BlogNotFound && batches == [] && sends == []
    ensures Present(blogId) && Blogs.FindId(blogs, blogId.value).Some? && Active(subscribers) == [] ==>
      reply == NoSubscribers && batches == [] && sends == []
    ensures Present(blogId) && Blogs.FindId(blogs, blogId.value).Some? && Active(subscribers) != [] ==>
      var active := Active(subscribers);
      && reply == Notified(|active|)
      && sends == NotifyEmails(active, blogs[Blogs.FindId(blogs, blogId.value).value], cfg)
      && |batches| == TotalPages(|active|, BatchSize)
      && (forall k :: 0 <= k < |batches| ==> batches[k] == Page(active, k + 1, BatchSize))
      && Concat(batches) == active
  {
    if !Present(blogId) {
      return MissingBlogId, [], [];
    }
    var found := Blogs.FindId(blogs, blogId.value);
    if found.None? {
      return BlogNotFound, [], [];
    }
    var blog := blogs[found.value];
    var active := Active(subscribers);
    if |active| == 0 {
      return NoSubscribers, [], [];
    }
    var i := 0;
    batches, sends := [], [];
    while i < |active|
      invariant SentSoFar(active, blog, cfg, i, batches, sends)
      decreases |active| - i
    {
      var batch := active[i..Min(i + BatchSize, |active|)];
      NextBatch(active, blog, cfg, i, batches, sends);
      sends := sends + NotifyEmails(batch, blog, cfg);
      batches := batches + [batch];
      i := i + BatchSize;
    }
    assert active[..|active|] == active;
    TotalPagesUnique(|active|, BatchSize, |batches|);
    reply := Notified(|active|);
  }

  /** Every batch holds between one and fifty subscribers. */
  lemma BatchesBounded(active: seq<Newsletter.Subscriber>, k: nat)
    requires 0 < k + 1 <= TotalPages(|active|, BatchSize)
    ensures 0 < |Page(active, k + 1, BatchSize)| <= BatchSize
  {
    PageNonEmptyIff(active, k + 1, BatchSize);
  }
}
