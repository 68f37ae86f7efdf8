/**
 * lib/email-templates.ts: the six templates, each a subject line and an HTML
 * body.  A body is modelled as the sequence of its fixed markup blocks (named
 * by what they show) and the values interpolated between them; the literal
 * markup and styling are not modelled.  The footer year, which the templates
 * read from the clock, is part of the fixed footer block here.
 */
module EmailTemplates {
  import opened Wrappers
  import opened Text

  datatype Part = Markup(block: string) | Value(text: string)

  type Html = seq<Part>

  datatype Email = Email(subject: string, html: Html)

  const ContactConfirmationSubject := "Thank you for contacting Dream Definers"
  const ConsultancyConfirmationSubject := "Your Free Consultancy Request - Dream Definers"
  const PasswordResetSubject := "Password Reset Request - Dream Definers Admin"
  const ContactAdminPrefix := "New Contact Form Submission: "
  const ConsultancyAdminPrefix := "New Consultancy Request: "
  const BlogPrefix := "New Blog Post: "
  const DefaultSiteUrl := "https://dreamdefiners.com"

  const Header := Markup("header")
  const Footer := Markup("footer")
  const AdditionalMessage := Markup("additional message")
  const Cover := Markup("cover image")

  /** The number of '\n' characters in `s`. */
  function NewlineCount(s: string): nat {
    if s == [] then 0 else (if s[0] == '\n' then 1 else 0) + NewlineCount(s[1..])
  }

  /** `message.replace(/\n/g, '<br>')`. */
  function BrLines(s: string): (r: string)
    ensures forall i :: 0 <= i < |r| ==> r[i] != '\n'
    ensures |r| == |s| + 3 * NewlineCount(s)
    ensures NewlineCount(s) == 0 ==> r == s
  {
    if s == [] then []
    else if s[0] == '\n' then "<br>" + BrLines(s[1..])
    else [s[0]] + BrLines(s[1..])
  }

  /** The replacement works line by line: rendering a concatenation renders each part. */
  lemma {:induction false} BrLinesConcat(a: string, b: string)
    ensures BrLines(a + b) == BrLines(a) + BrLines(b)
  {
    if a == [] {
      assert a + b == b;
    } else {
      assert (a + b)[1..] == a[1..] + b;
      BrLinesConcat(a[1..], b);
    }
  }

  /** `process.env.NEXT_PUBLIC_SITE_URL || 'https://dreamdefiners.com'`. */
  function SiteBase(siteUrl: Option<string>): string {
    if Present(siteUrl) then siteUrl.value else DefaultSiteUrl
  }

  /** `${process.env.NEXT_PUBLIC_SITE_URL}` with no default: "undefined" when the variable is unset. */
  function EnvText(siteUrl: Option<string>): string {
    if siteUrl.Some? then siteUrl.value else "undefined"
  }

  /** The link to a post: the site base, "/blogs/", then the slug. */
  function BlogUrl(siteUrl: Option<string>, slug: string): (url: string)
    ensures |url| >= |slug| + 7 && url[|url| - |slug|..] == slug
    ensures url[|url| - |slug| - 7..|url| - |slug|] == "/blogs/"
    ensures !Present(siteUrl) ==> url == DefaultSiteUrl + "/blogs/" + slug
  {
    var url := SiteBase(siteUrl) + "/blogs/" + slug;
    assert url[|url| - |slug|..] == slug;
    assert url[|url| - |slug| - 7..|url| - |slug|] == "/blogs/";
    url
  }

  /** Two blog URLs on the same site are equal only for equal slugs. */
  lemma BlogUrlInjective(siteUrl: Option<string>, s1: string, s2: string)
    requires BlogUrl(siteUrl, s1) == BlogUrl(siteUrl, s2)
    ensures s1 == s2
  {
  }

  function ContactConfirmation(name: string, subject: string): (e: Email)
    ensures e.subject == ContactConfirmationSubject
    ensures Value(name) in e.html && Value(subject) in e.html
  {
    Email(ContactConfirmationSubject,
      [Header, Value(name), Markup("inquiry"), Value(subject), Markup("what happens next"), Footer])
  }

  function ConsultancyConfirmation(name: string, program: string): (e: Email)
    ensures e.subject == ConsultancyConfirmationSubject
    ensures Value(name) in e.html && Value(program) in e.html
  {
    Email(ConsultancyConfirmationSubject,
      [Header, Value(name), Markup("consultation request"), Value(program), Markup("why choose us"), Footer])
  }

  /** `subject` is `prefix` followed by exactly `arg`. */
  predicate PrefixedBy(subject: string, prefix: string, arg: string) {
    |subject| == |prefix| + |arg| && subject[..|prefix|] == prefix && subject[|prefix|..] == arg
  }

  /** The prefix and the argument can be read back from a prefixed subject. */
  lemma PrefixedDetermines(subject: string, prefix: string, a1: string, a2: string)
    requires PrefixedBy(subject, prefix, a1) && PrefixedBy(subject, prefix, a2)
    ensures a1 == a2
  {
  }

  function ContactAdminNotification(name: string, email: string, phone: string, subject: string, message: string): (e: Email)
    ensures PrefixedBy(e.subject, ContactAdminPrefix, subject)
    ensures Value(BrLines(message)) in e.html
    ensures Value(name) in e.html && Value(email) in e.html && Value(phone) in e.html
  {
    Email(ContactAdminPrefix + subject,
      [Markup("new submission"), Value(name), Value(email), Value(phone), Value(subject),
       Markup("message"), Value(BrLines(message)), Markup("submitted at")])
  }

  /** The optional block: `${message ? ... : ''}`. */
  function MessageBlock(message: Option<string>): Html {
    if Present(message) then [AdditionalMessage, Value(BrLines(message.value))] else []
  }

  function ConsultancyAdminNotification(name: string, email: string, phone: string, program: string, message: Option<string>): (e: Email)
    ensures PrefixedBy(e.subject, ConsultancyAdminPrefix, program)
    ensures AdditionalMessage in e.html <==> Present(message)
    ensures Present(message) ==> Value(BrLines(message.value)) in e.html
    ensures Value(name) in e.html && Value(email) in e.html && Value(phone) in e.html && Value(program) in e.html
  {
    var before := [Markup("new request"), Value(name), Value(email), Value(phone), Value(program)];
    var html := before + MessageBlock(message) + [Markup("submitted at")];
    assert AdditionalMessage !in before;
    assert Present(message) ==> html[|before|] == AdditionalMessage && html[|before| + 1] == Value(BrLines(message.value));
    Email(ConsultancyAdminPrefix + program, html)
  }

  /** The optional cover block: `${coverImage ? ... : ''}`. */
  function CoverBlock(coverImage: Option<string>, blogTitle: string): Html {
    if Present(coverImage) then [Cover, Value(coverImage.value), Value(blogTitle)] else []
  }

  /** The unsubscribe link as written: the raw site variable and the subscriber's name. */
  function UnsubscribeLink(siteUrl: Option<string>, subscriberName: string): string {
    EnvText(siteUrl) + "/unsubscribe?email=" + subscriberName
  }

  function NewBlogNotification(siteUrl: Option<string>, subscriberName: string, blogTitle: string,
                               blogExcerpt: string, blogSlug: string, coverImage: Option<string>): (e: Email)
    ensures PrefixedBy(e.subject, BlogPrefix, blogTitle)
    ensures Cover in e.html <==> Present(coverImage)
    ensures Present(coverImage) ==> Value(coverImage.value) in e.html
    ensures Value(BlogUrl(siteUrl, blogSlug)) in e.html
    ensures Value(subscriberName) in e.html && Value(blogTitle) in e.html && Value(blogExcerpt) in e.html
  {
    var before := [Header, Value(subscriberName), Markup("new post")];
    var after := [Markup("article"), Value(blogTitle), Value(blogExcerpt), Markup("read full article"),
                  Value(BlogUrl(siteUrl, blogSlug)), Markup("unsubscribe"),
                  Value(UnsubscribeLink(siteUrl, subscriberName)), Footer];
    var html := before + CoverBlock(coverImage, blogTitle) + after;
    assert Cover !in before && Cover !in after;
    assert forall p :: p in after ==> p in html;
    assert Present(coverImage) ==> html[|before|] == Cover && html[|before| + 1] == Value(coverImage.value);
    Email(BlogPrefix + blogTitle, html)
  }

  /** With the site variable unset the unsubscribe link starts with "undefined" and carries the name, not an address. */
  lemma UnsubscribeLinkUnset(subscriberName: string)
    ensures UnsubscribeLink(None, subscriberName) == "undefined/unsubscribe?email=" + subscriberName
  {
  }

  function PasswordReset(name: string, resetLink: string): (e: Email)
    ensures e.subject == PasswordResetSubject
    ensures Value(resetLink) in e.html && Value(name) in e.html
  {
    Email(PasswordResetSubject,
      [Header, Value(name), Markup("reset button"), Value(resetLink), Markup("security notice"),
       Markup("copy this link"), Value(resetLink), Value(resetLink), Footer])
  }

  /** The three confirmation-style subjects do not depend on the arguments. */
  lemma ConstantSubjects(n1: string, a1: string, n2: string, a2: string)
    ensures ContactConfirmation(n1, a1).subject == ContactConfirmation(n2, a2).subject
    ensures ConsultancyConfirmation(n1, a1).subject == ConsultancyConfirmation(n2, a2).subject
    ensures PasswordReset(n1, a1).subject == PasswordReset(n2, a2).subject
  {
  }

  /** Whatever the other arguments, the admin and blog subjects determine the argument they were built from. */
  lemma PrefixedSubjectsInjective(n1: string, e1: string, p1: string, m1: string, a1: string,
                                  n2: string, e2: string, p2: string, m2: string, a2: string,
                                  o1: Option<string>, o2: Option<string>, u1: Option<string>, u2: Option<string>)
    ensures ContactAdminNotification(n1, e1, p1, a1, m1).subject == ContactAdminNotification(n2, e2, p2, a2, m2).subject ==> a1 == a2
    ensures ConsultancyAdminNotification(n1, e1, p1, a1, o1).subject == ConsultancyAdminNotification(n2, e2, p2, a2, o2).subject ==> a1 == a2
    ensures NewBlogNotification(u1, n1, a1, e1, p1, o1).subject == NewBlogNotification(u2, n2, a2, e2, p2, o2).subject ==> a1 == a2
  {
  }
}
