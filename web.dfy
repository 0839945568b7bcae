/**
 * The text side of web ingestion (backend/src/services/web.service.js): URL checks, href
 * resolution and categorisation, de-duplication of links, the link summary appended to a page,
 * and the acceptance checks and error mapping of the webpage and YouTube loaders.
 * The WHATWG URL parser, the HTML loaders, `fetch` and the YouTube id regex enter as parameters.
 */
module Web {
  import opened Wrappers
  import opened Text
  import opened Json
  import opened Collections

  /** The parts of a parsed URL the service reads. */
  datatype Url = Url(protocol: string, host: string, hostname: string)

  /** `new URL(s)`, with `None` where the constructor throws. */
  type UrlParser = string -> Option<Url>

  predicate IsWebProtocol(protocol: string) {
    protocol == "http:" || protocol == "https:"
  }

  /** `isValidUrl(url)` */
  function IsValidUrl(url: string, parse: UrlParser): (ok: bool)
    ensures ok ==> parse(url).Some? && IsWebProtocol(parse(url).value.protocol)
    ensures parse(url).None? ==> !ok
    ensures parse(url).Some? && IsWebProtocol(parse(url).value.protocol) ==> ok
  {
    match parse(url)
    case None => false
    case Some(u) => IsWebProtocol(u.protocol)
  }

  const UnknownWebsite := "Unknown Website"

  /** `extractDomainFromUrl(url)`: the host name without its first "www.". */
  function ExtractDomainFromUrl(url: string, parse: UrlParser): (d: string)
    ensures parse(url).None? ==> d == UnknownWebsite
    ensures parse(url).Some? && !Contains(parse(url).value.hostname, "www.") ==> d == parse(url).value.hostname
    ensures parse(url).Some? && Contains(parse(url).value.hostname, "www.") ==>
      var h := parse(url).value.hostname;
      var i := IndexOf(h, "www.").value;
      |d| == |h| - 4 && d == h[..i] + h[i + 4..]
  {
    match parse(url)
    case None => UnknownWebsite
    case Some(u) => ReplaceFirst(u.hostname, "www.", "")
  }

  /** A host name that begins with "www." loses exactly that prefix. */
  lemma DomainDropsLeadingWww(url: string, parse: UrlParser)
    requires parse(url).Some? && StartsWith(parse(url).value.hostname, "www.")
    ensures ExtractDomainFromUrl(url, parse) == parse(url).value.hostname[4..]
  {
    ReplacePrefix(parse(url).value.hostname, "www.");
  }

  /** The fixed list of social platforms. */
  const SocialDomains: seq<string> := [
    "facebook.com", "fb.com", "twitter.com", "x.com", "instagram.com", "linkedin.com",
    "youtube.com", "youtu.be", "tiktok.com", "github.com", "discord.com", "discord.gg",
    "telegram.org", "t.me", "whatsapp.com", "snapchat.com", "pinterest.com", "reddit.com",
    "medium.com", "behance.net", "dribbble.com", "vimeo.com", "twitch.tv"]

  /** `domains.some(d => s.includes(d))` */
  function AnyOccurs(s: string, domains: seq<string>): (b: bool)
    ensures b <==> exists i :: 0 <= i < |domains| && Contains(s, domains[i])
  {
    if domains == [] then false
    else if Contains(s, domains[0]) then true
    else
      var rest := AnyOccurs(s, domains[1..]);
      assert forall i :: 1 <= i < |domains| ==> domains[i] == domains[1..][i - 1];
      rest
  }

  /** `isSocialMediaUrl(url)`: some platform name occurs in the lower-cased URL. */
  function IsSocialMediaUrl(url: string): (b: bool)
    ensures b <==> exists i :: 0 <= i < |SocialDomains| && Contains(ToLower(url), SocialDomains[i])
  {
    AnyOccurs(ToLower(url), SocialDomains)
  }

  /** The test ignores case. */
  lemma SocialIgnoresCase(url: string)
    ensures IsSocialMediaUrl(ToLower(url)) == IsSocialMediaUrl(url)
  {
    ToLowerIdempotent(url);
  }

  /** Any URL that holds a social platform name anywhere is social, wherever it points. */
  lemma SocialAnywhere(a: string, b: string, c: string)
    requires IsSocialMediaUrl(b)
    ensures IsSocialMediaUrl(a + b + c)
  {
    var i :| 0 <= i < |SocialDomains| && Contains(ToLower(b), SocialDomains[i]);
    ToLowerConcat(a + b, c);
    ToLowerConcat(a, b);
    ContainsInContext(ToLower(a), ToLower(b), ToLower(c), SocialDomains[i]);
  }

  /**
   * Resolution of an `href` against the page URL: absolute links are kept, protocol-relative,
   * root-relative and plain relative links are completed, fragments and `javascript:` are skipped.
   */
  function ResolveHref(href: string, base: Url): (full: Option<string>)
    ensures full.None? <==> StartsWith(href, "#") || StartsWith(href, "javascript:")
    ensures StartsWith(href, "http") ==> full == Some(href)
    ensures full.Some? ==> EndsWith(full.value, href)
    ensures full.Some? && !StartsWith(href, "http") ==> StartsWith(full.value, base.protocol)
    ensures !StartsWith(href, "http") && StartsWith(href, "//") ==> full == Some(base.protocol + href)
    ensures !StartsWith(href, "http") && !StartsWith(href, "//") && StartsWith(href, "/") ==>
      full == Some(base.protocol + "//" + base.host + href)
    ensures !StartsWith(href, "http") && !StartsWith(href, "/") && !StartsWith(href, "#") &&
            !StartsWith(href, "javascript:") ==>
      full == Some(base.protocol + "//" + base.host + "/" + href)
  {
    if StartsWith(href, "http") then
      assert href[0] == "http"[0];
      Some(href)
    else if StartsWith(href, "//") then
      assert href[0] == "//"[0];
      Some(base.protocol + href)
    else if StartsWith(href, "/") then
      assert href[0] == "/"[0];
      Some(base.protocol + "//" + base.host + href)
    else if StartsWith(href, "#") || StartsWith(href, "javascript:") then None
    else Some(base.protocol + "//" + base.host + "/" + href)
  }

  /** The five buckets a link can land in. */
  datatype Category = Social | Email | Phone | Internal | External

  /** The first matching bucket, in the order social, mailto, tel, same host, other. */
  function Categorise(href: string, fullUrl: string, linkHostname: string, baseHostname: string): (c: Category)
    ensures c == Social <==> IsSocialMediaUrl(fullUrl)
    ensures c == Email <==> !IsSocialMediaUrl(fullUrl) && StartsWith(href, "mailto:")
    ensures c == Phone <==> !IsSocialMediaUrl(fullUrl) && !StartsWith(href, "mailto:") && StartsWith(href, "tel:")
    ensures c in {Internal, External} ==>
      !IsSocialMediaUrl(fullUrl) && !StartsWith(href, "mailto:") && !StartsWith(href, "tel:")
    ensures c == Internal ==> linkHostname == baseHostname
    ensures c == External ==> linkHostname != baseHostname
  {
    if IsSocialMediaUrl(fullUrl) then Social
    else if StartsWith(href, "mailto:") then Email
    else if StartsWith(href, "tel:") then Phone
    else if linkHostname == baseHostname then Internal
    else External
  }

  /**
   * A relative link on a page whose host is a social platform is completed with that host, so it
   * is filed as social: on such a site even a `mailto:` link never reaches the email bucket.
   */
  lemma RelativeLinksOnSocialSites(href: string, base: Url, linkHostname: string)
    requires IsSocialMediaUrl(base.host)
    requires !StartsWith(href, "http") && !StartsWith(href, "//")
    requires ResolveHref(href, base).Some?
    ensures Categorise(href, ResolveHref(href, base).value, linkHostname, base.hostname) == Social
  {
    if StartsWith(href, "/") {
      SocialAnywhere(base.protocol + "//", base.host, href);
      assert ResolveHref(href, base).value == base.protocol + "//" + base.host + href;
    } else {
      SocialAnywhere(base.protocol + "//", base.host, "/" + href);
      assert ResolveHref(href, base).value == base.protocol + "//" + base.host + ("/" + href);
    }
  }

  /** An anchor of the fetched page: its `href` and its rendered text. */
  datatype Anchor = Anchor(href: string, text: string)

  /** `{ url, text, domain }` */
  datatype Link = Link(url: string, text: string, domain: string)

  /** `{ email, text }` or `{ phone, text }` */
  datatype Contact = Contact(value: string, text: string)

  datatype ExtractedUrls = ExtractedUrls(socialMedia: seq<Link>, email: seq<Contact>, phone: seq<Contact>,
                                         internal: seq<Link>, external: seq<Link>)

  const NoUrls := ExtractedUrls([], [], [], [], [])

  const MaxSocialLinks: nat := 10
  const MaxExternalLinks: nat := 20
  const MaxInternalLinks: nat := 15

  /** The set of URLs of a list of links. */
  function Urls(links: seq<Link>): set<string> {
    set i | 0 <= i < |links| :: links[i].url
  }

  lemma UrlsAppend(links: seq<Link>, l: Link)
    ensures Urls(links + [l]) == Urls(links) + {l.url}
  {
    var s := links + [l];
    forall u | u in Urls(s) ensures u in Urls(links) + {l.url} {
      var i :| 0 <= i < |s| && s[i].url == u;
      if i < |links| { assert links[i].url == u; }
    }
    forall u | u in Urls(links) + {l.url} ensures u in Urls(s) {
      if u == l.url { assert s[|links|].url == u; }
      else { var i :| 0 <= i < |links| && links[i].url == u; assert s[i].url == u; }
    }
  }

  predicate DistinctUrls(links: seq<Link>) {
    forall i, j :: 0 <= i < j < |links| ==> links[i].url != links[j].url
  }

  /** The links with a repeated URL dropped, each URL kept at its first occurrence. */
  function Dedup(links: seq<Link>): (d: seq<Link>)
    ensures DistinctUrls(d)
    ensures Urls(d) == Urls(links)
    ensures forall i :: 0 <= i < |d| ==> d[i] in links
    ensures |d| <= |links|
  {
    if links == [] then []
    else
      var init := links[..|links| - 1];
      var last := links[|links| - 1];
      var d := Dedup(init);
      assert links == init + [last];
      UrlsAppend(init, last);
      if last.url in Urls(d) then d
      else
        UrlsAppend(d, last);
        assert forall i :: 0 <= i < |d| ==> d[i].url in Urls(d);
        d + [last]
  }

  /** A list whose URLs are already distinct is left as it is. */
  lemma {:induction false} DedupOfDistinct(links: seq<Link>)
    requires DistinctUrls(links)
    ensures Dedup(links) == links
  {
    if links != [] {
      var init := links[..|links| - 1];
      var last := links[|links| - 1];
      assert DistinctUrls(init) by {
        forall i, j | 0 <= i < j < |init| ensures init[i].url != init[j].url {
          assert init[i] == links[i] && init[j] == links[j];
        }
      }
      DedupOfDistinct(init);
      forall i | 0 <= i < |init| ensures init[i].url != last.url {
        assert init[i] == links[i];
      }
      assert last.url !in Urls(init);
      assert Dedup(links) == Dedup(init) + [last];
      assert links == init + [last];
    }
  }

  /** Removing duplicates twice is the same as once. */
  lemma DedupIdempotent(links: seq<Link>)
    ensures Dedup(Dedup(links)) == Dedup(links)
  {
    DedupOfDistinct(Dedup(links));
  }

  /** De-duplicating a longer list only appends: the result for a prefix is a prefix of the result. */
  lemma {:induction false} DedupPrefix(a: seq<Link>, b: seq<Link>)
    ensures Dedup(a) <= Dedup(a + b)
    decreases |b|
  {
    if b == [] {
      assert a + b == a;
    } else {
      var init := b[..|b| - 1];
      DedupPrefix(a, init);
      assert (a + b)[..|a + b| - 1] == a + init;
    }
  }

  /** The first link with a given URL is kept. */
  lemma {:induction false} DedupKeepsFirst(links: seq<Link>, j: nat)
    requires j < |links|
    requires forall k :: 0 <= k < j ==> links[k].url != links[j].url
    ensures links[j] in Dedup(links)
  {
    var init := links[..|links| - 1];
    if j == |links| - 1 {
      assert forall k :: 0 <= k < |init| ==> init[k].url != links[j].url;
    } else {
      DedupKeepsFirst(init, j);
      DedupPrefix(init, [links[|links| - 1]]);
      assert init + [links[|links| - 1]] == links;
    }
  }

  /** `removeDuplicateUrls(urls)`: a filter that remembers the URLs seen so far. */
  method RemoveDuplicateUrls(links: seq<Link>) returns (kept: seq<Link>)
    ensures kept == Dedup(links)
  {
    var seen: set<string> := {};
    kept := [];
    for k := 0 to |links|
      invariant kept == Dedup(links[..k])
      invariant seen == Urls(kept)
    {
      assert links[..k + 1][..k] == links[..k];
      if links[k].url !in seen {
        UrlsAppend(kept, links[k]);
        seen := seen + {links[k].url};
        kept := kept + [links[k]];
      }
    }
    assert links[..|links|] == links;
  }

  /** How many links and contacts were recorded in all. */
  function Total(u: ExtractedUrls): nat {
    |u.socialMedia| + |u.email| + |u.phone| + |u.internal| + |u.external|
  }

  /**
   * Every social link names a platform; internal links stay on the page's host and external links
   * leave it, neither naming a platform.
   */
  predicate WellFiled(u: ExtractedUrls, baseHostname: string) {
    && (forall i :: 0 <= i < |u.socialMedia| ==> IsSocialMediaUrl(u.socialMedia[i].url))
    && (forall i :: 0 <= i < |u.internal| ==>
          u.internal[i].domain == baseHostname && !IsSocialMediaUrl(u.internal[i].url))
    && (forall i :: 0 <= i < |u.external| ==>
          u.external[i].domain != baseHostname && !IsSocialMediaUrl(u.external[i].url))
  }

  /** What the `each` callback records for one anchor of the page at `base`: at most one entry. */
  function AddAnchor(acc: ExtractedUrls, a: Anchor, base: Url, parse: UrlParser): ExtractedUrls {
    if a.href == [] then acc
    else match ResolveHref(a.href, base)
      case None => acc
      case Some(full) =>
        match parse(full)
        case None => acc
        case Some(link) =>
          var text := Trim(a.text);
          var info := Link(full, text, link.hostname);
          match Categorise(a.href, full, link.hostname, base.hostname)
          case Social => acc.(socialMedia := acc.socialMedia + [info])
          case Email => acc.(email := acc.email + [Contact(ReplaceFirst(a.href, "mailto:", ""), text)])
          case Phone => acc.(phone := acc.phone + [Contact(ReplaceFirst(a.href, "tel:", ""), text)])
          case Internal => acc.(internal := acc.internal + [info])
          case External => acc.(external := acc.external + [info])
  }

  /** The buckets after visiting `anchors` in document order, before de-duplication. */
  function Categorised(anchors: seq<Anchor>, base: Url, parse: UrlParser): ExtractedUrls {
    if anchors == [] then NoUrls
    else AddAnchor(Categorised(anchors[..|anchors| - 1], base, parse), anchors[|anchors| - 1], base, parse)
  }

  /** One anchor adds at most one entry. */
  lemma AddAnchorCounts(acc: ExtractedUrls, a: Anchor, base: Url, parse: UrlParser)
    ensures Total(AddAnchor(acc, a, base, parse)) <= Total(acc) + 1
  {
  }

  lemma FileSocial(acc: ExtractedUrls, info: Link, host: string)
    requires WellFiled(acc, host) && IsSocialMediaUrl(info.url)
    ensures WellFiled(acc.(socialMedia := acc.socialMedia + [info]), host)
  {
  }

  lemma FileInternal(acc: ExtractedUrls, info: Link, host: string)
    requires WellFiled(acc, host) && info.domain == host && !IsSocialMediaUrl(info.url)
    ensures WellFiled(acc.(internal := acc.internal + [info]), host)
  {
  }

  lemma FileExternal(acc: ExtractedUrls, info: Link, host: string)
    requires WellFiled(acc, host) && info.domain != host && !IsSocialMediaUrl(info.url)
    ensures WellFiled(acc.(external := acc.external + [info]), host)
  {
  }

  /** One anchor lands only in the bucket its link belongs in. */
  lemma AddAnchorFiles(acc: ExtractedUrls, a: Anchor, base: Url, parse: UrlParser)
    requires WellFiled(acc, base.hostname)
    ensures WellFiled(AddAnchor(acc, a, base, parse), base.hostname)
  {
    if a.href != [] && ResolveHref(a.href, base).Some? && parse(ResolveHref(a.href, base).value).Some? {
      var full := ResolveHref(a.href, base).value;
      var host := parse(full).value.hostname;
      var info := Link(full, Trim(a.text), host);
      var r := AddAnchor(acc, a, base, parse);
      match Categorise(a.href, full, host, base.hostname)
      case Social =>
        assert r == acc.(socialMedia := acc.socialMedia + [info]);
        FileSocial(acc, info, base.hostname);
      case Email =>
        assert r.socialMedia == acc.socialMedia && r.internal == acc.internal && r.external == acc.external;
      case Phone =>
        assert r.socialMedia == acc.socialMedia && r.internal == acc.internal && r.external == acc.external;
      case Internal =>
        assert r == acc.(internal := acc.internal + [info]);
        FileInternal(acc, info, base.hostname);
      case External =>
        assert r == acc.(external := acc.external + [info]);
        FileExternal(acc, info, base.hostname);
    }
  }

  /** Each anchor is filed at most once, and every link is in the right bucket. */
  lemma {:induction false} CategorisedWellFiled(anchors: seq<Anchor>, base: Url, parse: UrlParser)
    ensures Total(Categorised(anchors, base, parse)) <= |anchors|
    ensures WellFiled(Categorised(anchors, base, parse), base.hostname)
  {
    if anchors != [] {
      var init := anchors[..|anchors| - 1];
      CategorisedWellFiled(init, base, parse);
      AddAnchorCounts(Categorised(init, base, parse), anchors[|anchors| - 1], base, parse);
      AddAnchorFiles(Categorised(init, base, parse), anchors[|anchors| - 1], base, parse);
    }
  }

  /** A prefix of a de-duplicated list keeps distinct URLs and takes its links from the list. */
  lemma TakeOfDedup(links: seq<Link>, n: nat)
    ensures DistinctUrls(Take(Dedup(links), n))
    ensures forall i :: 0 <= i < |Take(Dedup(links), n)| ==> Take(Dedup(links), n)[i] in links
  {
  }

  /** `c` is the first `n` elements of `s` (all of `s` when it is shorter), as `s.slice(0, n)` gives. */
  predicate FirstOf<T(==)>(c: seq<T>, s: seq<T>, n: nat) {
    |c| == (if |s| < n then |s| else n) && c == s[..|c|]
  }

  /** `Take` is the slice from the start. */
  lemma TakeIsFirstOf<T>(s: seq<T>, n: nat)
    ensures FirstOf(Take(s, n), s, n)
  {
  }

  /** `extractUrlsFromPage(url)`: the categorised links, de-duplicated and capped; nothing on failure. */
  function ExtractedFromPage(url: string, page: Option<seq<Anchor>>, parse: UrlParser): (u: ExtractedUrls)
    ensures |u.socialMedia| <= MaxSocialLinks && |u.internal| <= MaxInternalLinks
    ensures |u.external| <= MaxExternalLinks
    ensures DistinctUrls(u.socialMedia) && DistinctUrls(u.internal) && DistinctUrls(u.external)
    ensures page.None? || parse(url).None? ==> u == NoUrls
    ensures page.Some? && parse(url).Some? ==> WellFiled(u, parse(url).value.hostname)
    ensures page.Some? && parse(url).Some? ==>
      var raw := Categorised(page.value, parse(url).value, parse);
      && u.email == raw.email && u.phone == raw.phone
      && (forall i :: 0 <= i < |u.socialMedia| ==> u.socialMedia[i] in raw.socialMedia)
      && (forall i :: 0 <= i < |u.internal| ==> u.internal[i] in raw.internal)
      && (forall i :: 0 <= i < |u.external| ==> u.external[i] in raw.external)
      && (|Dedup(raw.socialMedia)| <= MaxSocialLinks ==> Urls(u.socialMedia) == Urls(raw.socialMedia))
      && (|Dedup(raw.internal)| <= MaxInternalLinks ==> Urls(u.internal) == Urls(raw.internal))
      && (|Dedup(raw.external)| <= MaxExternalLinks ==> Urls(u.external) == Urls(raw.external))
      && FirstOf(u.socialMedia, Dedup(raw.socialMedia), MaxSocialLinks)
      && FirstOf(u.internal, Dedup(raw.internal), MaxInternalLinks)
      && FirstOf(u.external, Dedup(raw.external), MaxExternalLinks)
  {
    if page.None? || parse(url).None? then NoUrls
    else
      var raw := Categorised(page.value, parse(url).value, parse);
      CategorisedWellFiled(page.value, parse(url).value, parse);
      TakeOfDedup(raw.socialMedia, MaxSocialLinks);
      TakeOfDedup(raw.internal, MaxInternalLinks);
      TakeOfDedup(raw.external, MaxExternalLinks);
      TakeIsFirstOf(Dedup(raw.socialMedia), MaxSocialLinks);
      TakeIsFirstOf(Dedup(raw.internal), MaxInternalLinks);
      TakeIsFirstOf(Dedup(raw.external), MaxExternalLinks);
      ExtractedUrls(Take(Dedup(raw.socialMedia), MaxSocialLinks), raw.email, raw.phone,
                    Take(Dedup(raw.internal), MaxInternalLinks), Take(Dedup(raw.external), MaxExternalLinks))
  }

  /** The `each` callback: files one anchor of the page at `base` into its bucket. */
  method FileAnchor(urls: ExtractedUrls, anchor: Anchor, base: Url, parse: UrlParser) returns (filed: ExtractedUrls)
    ensures filed == AddAnchor(urls, anchor, base, parse)
  {
    filed := urls;
    var href := anchor.href;
    var linkText := Trim(anchor.text);
    if href == [] {
      return;
    }
    var fullUrl := ResolveHref(href, base);
    if fullUrl.None? {
      return;
    }
    var linkUrl := parse(fullUrl.value);
    if linkUrl.None? {
      return;
    }
    var linkInfo := Link(fullUrl.value, linkText, linkUrl.value.hostname);
    match Categorise(href, fullUrl.value, linkUrl.value.hostname, base.hostname)
    case Social => filed := filed.(socialMedia := filed.socialMedia + [linkInfo]);
    case Email => filed := filed.(email := filed.email + [Contact(ReplaceFirst(href, "mailto:", ""), linkText)]);
    case Phone => filed := filed.(phone := filed.phone + [Contact(ReplaceFirst(href, "tel:", ""), linkText)]);
    case Internal => filed := filed.(internal := filed.internal + [linkInfo]);
    case External => filed := filed.(external := filed.external + [linkInfo]);
  }

  /**
   * `extractUrlsFromPage(url)` over the anchors of the fetched page (`None` when the fetch or the
   * read of its body threw): every anchor is filed in document order, then the link buckets are
   * de-duplicated and capped.
   */
  method ExtractUrlsFromPage(url: string, page: Option<seq<Anchor>>, parse: UrlParser) returns (urls: ExtractedUrls)
    ensures urls == ExtractedFromPage(url, page, parse)
  {
    if page.None? || parse(url).None? {
      return NoUrls;
    }
    var anchors := page.value;
    var base := parse(url).value;
    urls := NoUrls;
    for k := 0 to |anchors|
      invariant urls == Categorised(anchors[..k], base, parse)
    {
      assert anchors[..k + 1][..k] == anchors[..k];
      urls := FileAnchor(urls, anchors[k], base, parse);
    }
    assert anchors[..|anchors|] == anchors;
    assert urls == Categorised(anchors, base, parse);
    var socialMedia := RemoveDuplicateUrls(urls.socialMedia);
    var external := RemoveDuplicateUrls(urls.external);
    var internal := RemoveDuplicateUrls(urls.internal);
    urls := urls.(socialMedia := Take(socialMedia, MaxSocialLinks), external := Take(external, MaxExternalLinks),
                  internal := Take(internal, MaxInternalLinks));
  }

  const SocialHeader := "\n\n--- SOCIAL MEDIA LINKS ---\n"
  const EmailHeader := "\n\n--- EMAIL CONTACTS ---\n"
  const PhoneHeader := "\n\n--- PHONE CONTACTS ---\n"
  const ExternalHeader := "\n\n--- EXTERNAL LINKS ---\n"
  /** Only the first external links make it into the summary. */
  const MaxExternalInSummary: nat := 10

  /** `${link.text || fallback}: ${link.url}\n` */
  function LinkLine(link: Link, fallback: string): string {
    (if link.text != [] then link.text else fallback) + ": " + link.url + "\n"
  }

  /** `${kind}: ${value}\n` */
  function ContactLine(kind: string, contact: Contact): string {
    kind + ": " + contact.value + "\n"
  }

  function LinkLines(links: seq<Link>, fallback: string): (lines: seq<string>)
    ensures |lines| == |links|
    ensures forall i :: 0 <= i < |links| ==> lines[i] == LinkLine(links[i], fallback)
  {
    seq(|links|, i requires 0 <= i < |links| => LinkLine(links[i], fallback))
  }

  function ContactLines(kind: string, contacts: seq<Contact>): (lines: seq<string>)
    ensures |lines| == |contacts|
    ensures forall i :: 0 <= i < |contacts| ==> lines[i] == ContactLine(kind, contacts[i])
  {
    seq(|contacts|, i requires 0 <= i < |contacts| => ContactLine(kind, contacts[i]))
  }

  /** The lines written one after another. */
  function Concat(lines: seq<string>): string {
    if lines == [] then [] else Concat(lines[..|lines| - 1]) + lines[|lines| - 1]
  }

  /** Every line occurs in the concatenation. */
  lemma {:induction false} ConcatContains(lines: seq<string>, k: nat)
    requires k < |lines|
    ensures Contains(Concat(lines), lines[k])
  {
    var init := lines[..|lines| - 1];
    if k == |lines| - 1 {
      MatchInMiddle(Concat(init), lines[k], []);
      assert Concat(init) + lines[k] + [] == Concat(lines);
      ContainsIff(Concat(lines), lines[k]);
    } else {
      ConcatContains(init, k);
      ContainsInContext([], Concat(init), lines[|lines| - 1], lines[k]);
      assert [] + Concat(init) + lines[|lines| - 1] == Concat(lines);
    }
  }

  /** A header and its lines, or nothing at all when there are no lines. */
  function Section(header: string, lines: seq<string>): string {
    if lines == [] then [] else header + Concat(lines)
  }

  /** The sections appended to the page text, in the order social, email, phone, external. */
  function Summary(urls: ExtractedUrls): string {
    Section(SocialHeader, LinkLines(urls.socialMedia, "Social Link"))
      + Section(EmailHeader, ContactLines("Email", urls.email))
      + Section(PhoneHeader, ContactLines("Phone", urls.phone))
      + Section(ExternalHeader, LinkLines(Take(urls.external, MaxExternalInSummary), "External Link"))
  }

  /** `formatContentWithUrls(content, urls)` as a value: the page text, then the non-empty sections. */
  function FormattedContent(content: string, urls: ExtractedUrls): (r: string)
    ensures StartsWith(r, content)
    ensures urls.socialMedia == [] && urls.email == [] && urls.phone == [] && urls.external == [] ==> r == content
  {
    content + Summary(urls)
  }

  /** A link's URL is written on its line. */
  lemma LinkLineHasUrl(link: Link, fallback: string)
    ensures Contains(LinkLine(link, fallback), link.url)
  {
    var name := if link.text != [] then link.text else fallback;
    MatchInMiddle(name + ": ", link.url, "\n");
    ContainsIff(LinkLine(link, fallback), link.url);
  }

  /** The URL of every listed link occurs in a section that lists it. */
  lemma SectionHasUrl(header: string, links: seq<Link>, fallback: string, k: nat)
    requires k < |links|
    ensures Contains(Section(header, LinkLines(links, fallback)), links[k].url)
  {
    var lines := LinkLines(links, fallback);
    ConcatContains(lines, k);
    LinkLineHasUrl(links[k], fallback);
    ContainsTrans(Concat(lines), lines[k], links[k].url);
    ContainsInContext(header, Concat(lines), [], links[k].url);
    assert header + Concat(lines) + [] == Section(header, lines);
  }

  /** Every social link is written into the page text. */
  lemma SummaryListsSocialLinks(content: string, urls: ExtractedUrls, k: nat)
    requires k < |urls.socialMedia|
    ensures Contains(FormattedContent(content, urls), urls.socialMedia[k].url)
  {
    var url := urls.socialMedia[k].url;
    var s1 := Section(SocialHeader, LinkLines(urls.socialMedia, "Social Link"));
    var s2 := Section(EmailHeader, ContactLines("Email", urls.email));
    var s3 := Section(PhoneHeader, ContactLines("Phone", urls.phone));
    var s4 := Section(ExternalHeader, LinkLines(Take(urls.external, MaxExternalInSummary), "External Link"));
    SectionHasUrl(SocialHeader, urls.socialMedia, "Social Link", k);
    ContainsAppend(s1, s2, url);
    ContainsAppend(s1 + s2, s3, url);
    ContainsAppend(s1 + s2 + s3, s4, url);
    assert s1 + s2 + s3 + s4 == Summary(urls);
    ContainsPrepend(content, Summary(urls), url);
  }

  /** Each of the first ten external links is written into the page text. */
  lemma SummaryListsExternalLinks(content: string, urls: ExtractedUrls, k: nat)
    requires k < |urls.external| && k < MaxExternalInSummary
    ensures Contains(FormattedContent(content, urls), urls.external[k].url)
  {
    var front := Section(SocialHeader, LinkLines(urls.socialMedia, "Social Link"))
      + Section(EmailHeader, ContactLines("Email", urls.email))
      + Section(PhoneHeader, ContactLines("Phone", urls.phone));
    var shown := Take(urls.external, MaxExternalInSummary);
    SectionHasUrl(ExternalHeader, shown, "External Link", k);
    ContainsPrepend(front, Section(ExternalHeader, LinkLines(shown, "External Link")), shown[k].url);
    assert front + Section(ExternalHeader, LinkLines(shown, "External Link")) == Summary(urls);
    ContainsPrepend(content, Summary(urls), shown[k].url);
  }

  /** `forEach` over the lines of one section, appending each. */
  method AppendLines(text: string, lines: seq<string>) returns (r: string)
    ensures r == text + Concat(lines)
  {
    r := text;
    for i := 0 to |lines|
      invariant r == text + Concat(lines[..i])
    {
      assert lines[..i + 1][..i] == lines[..i];
      r := r + lines[i];
    }
    assert lines[..|lines|] == lines;
  }

  /** Appending a header and then its lines appends the section. */
  lemma AppendSection(text: string, header: string, lines: seq<string>)
    requires lines != []
    ensures text + header + Concat(lines) == text + Section(header, lines)
  {
  }

  lemma AppendAssoc(a: string, b: string, c: string)
    ensures a + b + c == a + (b + c)
  {
  }

  /** `formatContentWithUrls(content, urls)`: appends a section per non-empty bucket. */
  method FormatContentWithUrls(content: string, urls: ExtractedUrls) returns (enhancedContent: string)
    ensures enhancedContent == FormattedContent(content, urls)
  {
    enhancedContent := content;
    var social := LinkLines(urls.socialMedia, "Social Link");
    if |urls.socialMedia| > 0 {
      enhancedContent := AppendLines(enhancedContent + SocialHeader, social);
      AppendSection(content, SocialHeader, social);
    }
    ghost var summary := Section(SocialHeader, social);
    assert enhancedContent == content + summary;
    var emails := ContactLines("Email", urls.email);
    if |urls.email| > 0 {
      enhancedContent := AppendLines(enhancedContent + EmailHeader, emails);
      AppendSection(content + summary, EmailHeader, emails);
    }
    AppendAssoc(content, summary, Section(EmailHeader, emails));
    summary := summary + Section(EmailHeader, emails);
    assert enhancedContent == content + summary;
    var phones := ContactLines("Phone", urls.phone);
    if |urls.phone| > 0 {
      enhancedContent := AppendLines(enhancedContent + PhoneHeader, phones);
      AppendSection(content + summary, PhoneHeader, phones);
    }
    AppendAssoc(content, summary, Section(PhoneHeader, phones));
    summary := summary + Section(PhoneHeader, phones);
    assert enhancedContent == content + summary;
    var external := LinkLines(Take(urls.external, MaxExternalInSummary), "External Link");
    if |urls.external| > 0 {
      enhancedContent := AppendLines(enhancedContent + ExternalHeader, external);
      AppendSection(content + summary, ExternalHeader, external);
    }
    AppendAssoc(content, summary, Section(ExternalHeader, external));
    summary := summary + Section(ExternalHeader, external);
    assert enhancedContent == content + summary;
    assert summary == Summary(urls);
  }

  /** A document returned by a loader: its text and its metadata. */
  datatype Page = Page(pageContent: string, metadata: Obj)

  datatype Webpage = Webpage(title: Json, content: string, extractedUrls: ExtractedUrls, url: string, metadata: Obj)

  /** A page body shorter than this, once trimmed, is rejected. */
  const MinPageLength: nat := 100
  const WebpageErrorPrefix := "Error loading webpage: "
  /** The message of the `TypeError` the URL constructor throws. */
  const InvalidUrl := "Invalid URL"
  const UnsupportedProtocol := "Only HTTP and HTTPS URLs are supported"
  const NoPageContent := "No content found at the provided URL"
  const NoMeaningfulContent := "Unable to extract meaningful content from the webpage"

  /**
   * `content.replace(/\s+/g, " ").replace(/\n{3,}/g, "\n\n").trim()`; the second rewrite finds
   * nothing to replace (see `CollapsedHasNoNewline`), so it is left out of the composition.
   */
  function CleanPageText(content: string): (r: string)
    ensures |r| <= |content|
    ensures r == [] <==> IsBlank(CollapseSpaces(content))
    ensures Trimmed(r)
    ensures Filter(r, NotSpace) == Filter(content, NotSpace)
    ensures SingleSpaced(r)
    ensures r == Trim(Squeeze(Blanked(content)))
  {
    var collapsed := CollapseSpaces(content);
    CollapseKeepsText(content);
    CollapseIsSqueeze(content);
    TrimKeepsText(collapsed);
    TrimKeepsSingleSpaces(collapsed);
    Trim(collapsed)
  }

  /**
   * What `loadWebpage(url)` returns or throws: `docs` is what the HTML loader returned (or the
   * message it threw) and `page` the anchors of a second fetch of the same URL.
   */
  function LoadedWebpage(url: string, parse: UrlParser, docs: Result<seq<Page>, string>, page: Option<seq<Anchor>>)
    : (r: Result<Webpage, string>)
    ensures r.Failure? ==> StartsWith(r.error, WebpageErrorPrefix)
    ensures parse(url).None? ==> r == Failure(WebpageErrorPrefix + InvalidUrl)
    ensures parse(url).Some? && !IsWebProtocol(parse(url).value.protocol) ==>
      r == Failure(WebpageErrorPrefix + UnsupportedProtocol)
    ensures IsValidUrl(url, parse) && docs.Failure? ==> r == Failure(WebpageErrorPrefix + docs.error)
    ensures IsValidUrl(url, parse) && docs.Success? && docs.value == [] ==> r == Failure(WebpageErrorPrefix + NoPageContent)
    ensures IsValidUrl(url, parse) && docs.Success? && docs.value != [] && |Trim(docs.value[0].pageContent)| < MinPageLength ==>
      r == Failure(WebpageErrorPrefix + NoMeaningfulContent)
    ensures r.Success? <==>
      IsValidUrl(url, parse) && docs.Success? && docs.value != [] && |Trim(docs.value[0].pageContent)| >= MinPageLength
    ensures r.Success? ==>
      var doc := docs.value[0];
      var links := ExtractedFromPage(url, page, parse);
      r.value == Webpage(FieldOr(doc.metadata, "title", JStr(ExtractDomainFromUrl(url, parse))),
                         FormattedContent(CleanPageText(doc.pageContent), links), links, url, doc.metadata)
  {
    match parse(url)
    case None => Failure(WebpageErrorPrefix + InvalidUrl)
    case Some(u) =>
      if !IsWebProtocol(u.protocol) then Failure(WebpageErrorPrefix + UnsupportedProtocol)
      else match docs
        case Failure(e) => Failure(WebpageErrorPrefix + e)
        case Success(pages) =>
          if pages == [] then Failure(WebpageErrorPrefix + NoPageContent)
          else if |Trim(pages[0].pageContent)| < MinPageLength then Failure(WebpageErrorPrefix + NoMeaningfulContent)
          else
            var links := ExtractedFromPage(url, page, parse);
            Success(Webpage(FieldOr(pages[0].metadata, "title", JStr(ExtractDomainFromUrl(url, parse))),
                            FormattedContent(CleanPageText(pages[0].pageContent), links), links, url, pages[0].metadata))
  }

  /** `loadWebpage(url)`, step by step. */
  method LoadWebpage(url: string, parse: UrlParser, docs: Result<seq<Page>, string>, page: Option<seq<Anchor>>)
    returns (r: Result<Webpage, string>)
    ensures r == LoadedWebpage(url, parse, docs, page)
  {
    var urlObj := parse(url);
    if urlObj.None? {
      return Failure(WebpageErrorPrefix + InvalidUrl);
    }
    if !IsWebProtocol(urlObj.value.protocol) {
      return Failure(WebpageErrorPrefix + UnsupportedProtocol);
    }
    if docs.Failure? {
      return Failure(WebpageErrorPrefix + docs.error);
    }
    if docs.value == [] {
      return Failure(WebpageErrorPrefix + NoPageContent);
    }
    var doc := docs.value[0];
    var content := doc.pageContent;
    if |Trim(content)| < MinPageLength {
      return Failure(WebpageErrorPrefix + NoMeaningfulContent);
    }
    var extractedUrls := ExtractUrlsFromPage(url, page, parse);
    var cleanContent := CleanPageText(content);
    var title := FieldOr(doc.metadata, "title", JStr(ExtractDomainFromUrl(url, parse)));
    var enhancedContent := FormatContentWithUrls(cleanContent, extractedUrls);
    return Success(Webpage(title, enhancedContent, extractedUrls, url, doc.metadata));
  }

  /** The characters a `.` in a regular expression does not match. */
  predicate IsLineTerminator(c: char) {
    c == '\n' || c == '\r' || c == '\U{2028}' || c == '\U{2029}'
  }

  /** Where a lazy `.*?` followed by `close`, tried at `from`, ends: the first `close`, unless a line ends first. */
  function CloseFrom(s: string, close: char, from: nat): (r: Option<nat>)
    requires from <= |s|
    ensures r.Some? ==> from <= r.value < |s| && s[r.value] == close
    ensures r.Some? ==> forall k :: from <= k < r.value ==> s[k] != close && !IsLineTerminator(s[k])
    ensures r.None? ==>
      forall k :: from <= k < |s| && s[k] == close ==> exists m :: from <= m < k && IsLineTerminator(s[m])
    decreases |s| - from
  {
    if from == |s| then None
    else if s[from] == close then Some(from)
    else if IsLineTerminator(s[from]) then None
    else CloseFrom(s, close, from + 1)
  }

  /** `s.replace(/\[.*?\]/g, "")` for the pair `open`, `close`: every bracketed span within a line goes. */
  function StripEnclosed(s: string, open: char, close: char): (r: string)
    ensures |r| <= |s|
    ensures open !in s ==> r == s
    ensures close !in s ==> r == s
    decreases |s|
  {
    if s == [] then []
    else if s[0] == open then
      match CloseFrom(s, close, 1)
      case Some(j) => StripEnclosed(s[j + 1..], open, close)
      case None => [s[0]] + StripEnclosed(s[1..], open, close)
    else [s[0]] + StripEnclosed(s[1..], open, close)
  }

  /** The first two `replace` calls of `cleanTranscriptText`: `[...]` spans go, then `(...)` spans. */
  function StripCues(text: string): (t: string)
    ensures |t| <= |text|
  {
    StripEnclosed(StripEnclosed(text, '[', ']'), '(', ')')
  }

  /**
   * `cleanTranscriptText(text)`: drop `[...]` and `(...)` spans, then normalise the white space of
   * what is left exactly as a page's text is (each run one space, the ends trimmed).
   */
  function CleanTranscriptText(text: string): (r: string)
    ensures |r| <= |text|
    ensures '[' !in text && '(' !in text ==> r == CleanPageText(text)
    ensures Trimmed(r) && SingleSpaced(r)
    ensures Filter(r, NotSpace) == Filter(StripCues(text), NotSpace)
    ensures r == Trim(Squeeze(Blanked(StripCues(text))))
  {
    CleanPageText(StripCues(text))
  }

  /** Text before the first opening bracket is kept as it is. */
  lemma {:induction false} StripKeepsPlainPrefix(p: string, t: string, open: char, close: char)
    requires open !in p
    ensures StripEnclosed(p + t, open, close) == p + StripEnclosed(t, open, close)
    decreases |p|
  {
    if p != [] {
      assert (p + t)[0] == p[0];
      assert (p + t)[1..] == p[1..] + t;
      StripKeepsPlainPrefix(p[1..], t, open, close);
      assert p == [p[0]] + p[1..];
    } else {
      assert p + t == t;
    }
  }

  /** A closed span within one line goes, and what follows it is stripped on its own. */
  lemma StripDropsSpan(m: string, t: string, open: char, close: char)
    requires close !in m && forall k :: 0 <= k < |m| ==> !IsLineTerminator(m[k])
    ensures StripEnclosed([open] + m + [close] + t, open, close) == StripEnclosed(t, open, close)
  {
    var s := [open] + m + [close] + t;
    assert s[|m| + 1] == close;
    assert forall k :: 1 <= k <= |m| ==> s[k] == m[k - 1];
    assert CloseFrom(s, close, 1) == Some(|m| + 1);
    assert s[|m| + 2..] == t;
  }

  /** An opening bracket whose line ends before any closing bracket stays, and so does the rest of that line. */
  lemma {:induction false} StripKeepsUnclosedLine(l: string, lt: char, t: string, open: char, close: char)
    requires forall k :: 0 <= k < |l| ==> l[k] != close && !IsLineTerminator(l[k])
    requires IsLineTerminator(lt) && !IsLineTerminator(open) && !IsLineTerminator(close)
    ensures StripEnclosed(l + [lt] + t, open, close) == l + [lt] + StripEnclosed(t, open, close)
    decreases |l|
  {
    var s := l + [lt] + t;
    if l == [] {
      assert s == [lt] + t && s[1..] == t;
      StripKeepsHead(s, open, close);
    } else {
      var tail := l[1..];
      var x := StripEnclosed(t, open, close);
      calc {
        StripEnclosed(s, open, close);
        == { StripUnclosedStep(l, lt, t, open, close); }
        [l[0]] + StripEnclosed(tail + [lt] + t, open, close);
        == { StripKeepsUnclosedLine(tail, lt, t, open, close); }
        [l[0]] + (tail + [lt] + x);
        == { assert [l[0]] + tail == l; }
        l + [lt] + x;
      }
    }
  }

  lemma StripUnclosedStep(l: string, lt: char, t: string, open: char, close: char)
    requires l != [] && forall k :: 0 <= k < |l| ==> l[k] != close && !IsLineTerminator(l[k])
    requires IsLineTerminator(lt) && !IsLineTerminator(close)
    ensures StripEnclosed(l + [lt] + t, open, close) == [l[0]] + StripEnclosed(l[1..] + [lt] + t, open, close)
  {
    var s := l + [lt] + t;
    assert s[1..] == l[1..] + [lt] + t;
    assert s[0] == l[0];
    if s[0] == open {
      CloseFromStopsAtBreak(s, close, 1, |l|);
    }
    StripKeepsHead(s, open, close);
  }

  /** A first character that opens no closed span is kept. */
  lemma StripKeepsHead(s: string, open: char, close: char)
    requires s != [] && (s[0] == open ==> CloseFrom(s, close, 1).None?)
    ensures StripEnclosed(s, open, close) == [s[0]] + StripEnclosed(s[1..], open, close)
  {
  }

  /** A line end met before any `close` stops the lazy `.*?` without a match. */
  lemma CloseFromStopsAtBreak(s: string, close: char, from: nat, e: nat)
    requires from <= e < |s| && IsLineTerminator(s[e]) && s[e] != close
    requires forall k :: from <= k < e ==> s[k] != close
    ensures CloseFrom(s, close, from).None?
  {
  }

  /** Every `x` in `t` comes after a line end: a `.*?` started before `t` cannot reach an `x` in it. */
  predicate CloseAfterBreak(t: string, x: char) {
    forall k :: 0 <= k < |t| && t[k] == x ==> exists m :: 0 <= m < k && IsLineTerminator(t[m])
  }

  /** No `open` is followed by a `close` on the same line: nothing `/open.*?close/` would match is left. */
  predicate NoSpanWithinLine(t: string, open: char, close: char) {
    forall i, j :: 0 <= i < j < |t| && t[i] == open && t[j] == close ==>
      exists m :: i < m < j && IsLineTerminator(t[m])
  }

  lemma CloseAfterBreakSkip(s: string, j: nat, x: char)
    requires j < |s| && CloseAfterBreak(s, x)
    requires forall k :: 0 <= k <= j ==> !IsLineTerminator(s[k])
    ensures CloseAfterBreak(s[j + 1..], x)
  {
    var t := s[j + 1..];
    forall k | 0 <= k < |t| && t[k] == x ensures exists m :: 0 <= m < k && IsLineTerminator(t[m]) {
      assert s[j + 1 + k] == x;
      var m :| 0 <= m < j + 1 + k && IsLineTerminator(s[m]);
      assert t[m - j - 1] == s[m];
    }
  }

  lemma CloseAfterBreakCons(c: char, t: string, x: char)
    requires c != x && (IsLineTerminator(c) || CloseAfterBreak(t, x))
    ensures CloseAfterBreak([c] + t, x)
  {
    var r := [c] + t;
    forall k | 0 <= k < |r| && r[k] == x ensures exists m :: 0 <= m < k && IsLineTerminator(r[m]) {
      if IsLineTerminator(c) {
        assert r[0] == c;
      } else {
        assert t[k - 1] == x;
        var m :| 0 <= m < k - 1 && IsLineTerminator(t[m]);
        assert r[m + 1] == t[m];
      }
    }
  }

  /** A `.*?` that finds no `close` means every `close` after the opener follows a line end. */
  lemma CloseFromNoneTail(s: string, close: char)
    requires s != [] && CloseFrom(s, close, 1).None?
    ensures CloseAfterBreak(s[1..], close)
  {
    var t := s[1..];
    forall k | 0 <= k < |t| && t[k] == close ensures exists m :: 0 <= m < k && IsLineTerminator(t[m]) {
      assert s[k + 1] == close;
      var m :| 1 <= m < k + 1 && IsLineTerminator(s[m]);
      assert t[m - 1] == s[m];
    }
  }

  /** Stripping spans never moves a character `x` in front of the first line end. */
  lemma {:induction false} StripKeepsCloseAfterBreak(s: string, open: char, close: char, x: char)
    requires !IsLineTerminator(open) && !IsLineTerminator(close)
    requires CloseAfterBreak(s, x)
    ensures CloseAfterBreak(StripEnclosed(s, open, close), x)
    decreases |s|
  {
    if s != [] {
      if s[0] == open && CloseFrom(s, close, 1).Some? {
        var j := CloseFrom(s, close, 1).value;
        CloseAfterBreakSkip(s, j, x);
        StripKeepsCloseAfterBreak(s[j + 1..], open, close, x);
      } else {
        var rest := StripEnclosed(s[1..], open, close);
        assert StripEnclosed(s, open, close) == [s[0]] + rest;
        if !IsLineTerminator(s[0]) {
          CloseAfterBreakSkip(s, 0, x);
          StripKeepsCloseAfterBreak(s[1..], open, close, x);
        }
        CloseAfterBreakCons(s[0], rest, x);
      }
    }
  }

  lemma NoSpanCons(c: char, t: string, open: char, close: char)
    requires NoSpanWithinLine(t, open, close)
    requires c == open ==> CloseAfterBreak(t, close)
    ensures NoSpanWithinLine([c] + t, open, close)
  {
    var r := [c] + t;
    forall i, j | 0 <= i < j < |r| && r[i] == open && r[j] == close
      ensures exists m :: i < m < j && IsLineTerminator(r[m])
    {
      assert t[j - 1] == close;
      if i == 0 {
        var m :| 0 <= m < j - 1 && IsLineTerminator(t[m]);
        assert r[m + 1] == t[m];
      } else {
        assert t[i - 1] == open;
        var m :| i - 1 < m < j - 1 && IsLineTerminator(t[m]);
        assert r[m + 1] == t[m];
      }
    }
  }

  lemma NoSpanSuffix(s: string, k: nat, open: char, close: char)
    requires k <= |s| && NoSpanWithinLine(s, open, close)
    ensures NoSpanWithinLine(s[k..], open, close)
  {
    var t := s[k..];
    forall i, j | 0 <= i < j < |t| && t[i] == open && t[j] == close
      ensures exists m :: i < m < j && IsLineTerminator(t[m])
    {
      assert s[k + i] == open && s[k + j] == close;
      var m :| k + i < m < k + j && IsLineTerminator(s[m]);
      assert t[m - k] == s[m];
    }
  }

  lemma NoSpanHeadOpen(s: string, open: char, close: char)
    requires s != [] && s[0] == open && NoSpanWithinLine(s, open, close)
    ensures CloseAfterBreak(s[1..], close)
  {
    var t := s[1..];
    forall k | 0 <= k < |t| && t[k] == close ensures exists m :: 0 <= m < k && IsLineTerminator(t[m]) {
      assert s[k + 1] == close;
      var m :| 0 < m < k + 1 && IsLineTerminator(s[m]);
      assert t[m - 1] == s[m];
    }
  }

  /** After `replace(/\[.*?\]/g, "")` no bracketed span is left within a line. */
  lemma {:induction false} StripEnclosedRemovesSpans(s: string, open: char, close: char)
    requires !IsLineTerminator(open) && !IsLineTerminator(close)
    ensures NoSpanWithinLine(StripEnclosed(s, open, close), open, close)
    decreases |s|
  {
    if s != [] {
      if s[0] == open && CloseFrom(s, close, 1).Some? {
        var j := CloseFrom(s, close, 1).value;
        StripEnclosedRemovesSpans(s[j + 1..], open, close);
      } else {
        var rest := StripEnclosed(s[1..], open, close);
        assert StripEnclosed(s, open, close) == [s[0]] + rest;
        StripEnclosedRemovesSpans(s[1..], open, close);
        if s[0] == open {
          CloseFromNoneTail(s, close);
          StripKeepsCloseAfterBreak(s[1..], open, close, close);
        }
        NoSpanCons(s[0], rest, open, close);
      }
    }
  }

  /** Stripping one kind of span brings no other kind of span together: a removed span holds no line end. */
  lemma {:induction false} StripKeepsNoSpan(s: string, open: char, close: char, open2: char, close2: char)
    requires !IsLineTerminator(open) && !IsLineTerminator(close)
    requires NoSpanWithinLine(s, open2, close2)
    ensures NoSpanWithinLine(StripEnclosed(s, open, close), open2, close2)
    decreases |s|
  {
    if s != [] {
      if s[0] == open && CloseFrom(s, close, 1).Some? {
        var j := CloseFrom(s, close, 1).value;
        NoSpanSuffix(s, j + 1, open2, close2);
        StripKeepsNoSpan(s[j + 1..], open, close, open2, close2);
      } else {
        var rest := StripEnclosed(s[1..], open, close);
        assert StripEnclosed(s, open, close) == [s[0]] + rest;
        NoSpanSuffix(s, 1, open2, close2);
        StripKeepsNoSpan(s[1..], open, close, open2, close2);
        if s[0] == open2 {
          NoSpanHeadOpen(s, open2, close2);
          StripKeepsCloseAfterBreak(s[1..], open, close, close2);
        }
        NoSpanCons(s[0], rest, open2, close2);
      }
    }
  }

  /** Before white space is collapsed, no `[...]` and no `(...)` span is left within a line of the transcript. */
  lemma TranscriptSpansRemoved(text: string)
    ensures NoSpanWithinLine(StripCues(text), '[', ']') && NoSpanWithinLine(StripCues(text), '(', ')')
  {
    StripEnclosedRemovesSpans(text, '[', ']');
    StripKeepsNoSpan(StripEnclosed(text, '[', ']'), '(', ')', '[', ']');
    StripEnclosedRemovesSpans(StripEnclosed(text, '[', ']'), '(', ')');
  }

  /** A cue such as `[Music]` goes, and the text after it stays. */
  lemma StripMusicCue()
    ensures StripEnclosed("[Music] hi", '[', ']') == " hi"
  {
    var s := "[Music] hi";
    assert CloseFrom(s, ']', 1) == Some(6);
    assert s[7..] == " hi";
    assert StripEnclosed(" hi", '[', ']') == " hi";
  }

  datatype Video = Video(videoId: string, videoUrl: string, videoTitle: Json, transcript: string,
                         duration: Json, author: Json, description: Json, metadata: Obj)

  /** A transcript shorter than this, once trimmed, is rejected. */
  const MinTranscriptLength: nat := 50
  const YouTubeErrorPrefix := "Error loading YouTube video: "
  const InvalidYouTubeUrl := "Invalid YouTube URL format"
  const NoTranscript := "No transcript available for this video"
  const TranscriptTooShort := "Transcript is too short or incomplete"
  const TranscriptDisabled := "Transcript is disabled for this video"
  const VideoUnavailable := "Video is unavailable or private"
  const QuotaExceeded := "YouTube API quota exceeded. Please try again later."

  /** The `catch` of `loadYouTubeVideo`: three known failures get their own message, the rest are wrapped. */
  function MapYouTubeError(message: string): (m: string)
    ensures Contains(message, "Transcript is disabled") ==> m == TranscriptDisabled
    ensures !Contains(message, "Transcript is disabled") && Contains(message, "Video unavailable") ==>
      m == VideoUnavailable
    ensures !Contains(message, "Transcript is disabled") && !Contains(message, "Video unavailable") ==>
      (Contains(message, "quota exceeded") ==> m == QuotaExceeded)
    ensures !Contains(message, "Transcript is disabled") && !Contains(message, "Video unavailable") ==>
      (!Contains(message, "quota exceeded") ==> m == YouTubeErrorPrefix + message)
  {
    if Contains(message, "Transcript is disabled") then TranscriptDisabled
    else if Contains(message, "Video unavailable") then VideoUnavailable
    else if Contains(message, "quota exceeded") then QuotaExceeded
    else YouTubeErrorPrefix + message
  }

  /** None of the three known failure patterns occurs in `message`. */
  predicate Unrecognised(message: string) {
    && !Contains(message, "Transcript is disabled")
    && !Contains(message, "Video unavailable")
    && !Contains(message, "quota exceeded")
  }

  /** The failures `loadYouTubeVideo` raises itself match none of the patterns, so they are wrapped. */
  lemma InvalidUrlNotDisabled()
    ensures !Contains(InvalidYouTubeUrl, "Transcript is disabled")
  {
    MissingCharNotContained(InvalidYouTubeUrl, "Transcript is disabled", 8);
  }

  lemma InvalidUrlNotUnavailable()
    ensures !Contains(InvalidYouTubeUrl, "Video unavailable")
  {
    MissingCharNotContained(InvalidYouTubeUrl, "Video unavailable", 0);
  }

  lemma InvalidUrlNotQuota()
    ensures !Contains(InvalidYouTubeUrl, "quota exceeded")
  {
    MissingCharNotContained(InvalidYouTubeUrl, "quota exceeded", 0);
  }

  lemma InvalidUrlUnrecognised()
    ensures Unrecognised(InvalidYouTubeUrl)
  {
    InvalidUrlNotDisabled();
    InvalidUrlNotUnavailable();
    InvalidUrlNotQuota();
  }

  lemma NoTranscriptNotDisabled()
    ensures !Contains(NoTranscript, "Transcript is disabled")
  {
    MissingCharNotContained(NoTranscript, "Transcript is disabled", 0);
  }

  lemma NoTranscriptNotUnavailable()
    ensures !Contains(NoTranscript, "Video unavailable")
  {
    MissingCharNotContained(NoTranscript, "Video unavailable", 0);
  }

  lemma NoTranscriptNotQuota()
    ensures !Contains(NoTranscript, "quota exceeded")
  {
    MissingCharNotContained(NoTranscript, "quota exceeded", 0);
  }

  lemma NoTranscriptUnrecognised()
    ensures Unrecognised(NoTranscript)
  {
    NoTranscriptNotDisabled();
    NoTranscriptNotUnavailable();
    NoTranscriptNotQuota();
  }

  lemma ShortTranscriptNotDisabled()
    ensures !Contains(TranscriptTooShort, "Transcript is disabled")
  {
    MissingCharNotContained(TranscriptTooShort, "Transcript is disabled", 14);
  }

  lemma ShortTranscriptNotUnavailable()
    ensures !Contains(TranscriptTooShort, "Video unavailable")
  {
    MissingCharNotContained(TranscriptTooShort, "Video unavailable", 0);
  }

  lemma ShortTranscriptNotQuota()
    ensures !Contains(TranscriptTooShort, "quota exceeded")
  {
    MissingCharNotContained(TranscriptTooShort, "quota exceeded", 0);
  }

  lemma ShortTranscriptUnrecognised()
    ensures Unrecognised(TranscriptTooShort)
  {
    ShortTranscriptNotDisabled();
    ShortTranscriptNotUnavailable();
    ShortTranscriptNotQuota();
  }

  /** The body of the `try` in `loadYouTubeVideo`, failing with the message that would be thrown. */
  function FetchVideo(url: string, videoId: Option<string>, docs: Result<seq<Page>, string>): Result<Video, string> {
    if videoId.None? then Failure(InvalidYouTubeUrl)
    else match docs
      case Failure(e) => Failure(e)
      case Success(pages) =>
        if pages == [] then Failure(NoTranscript)
        else
          var doc := pages[0];
          var metadata := doc.metadata;
          if |Trim(doc.pageContent)| < MinTranscriptLength then Failure(TranscriptTooShort)
          else Success(Video(
            videoId.value, url,
            FieldOr(metadata, "title", JStr("YouTube Video " + videoId.value)),
            CleanTranscriptText(doc.pageContent),
            FieldOr(metadata, "length", JStr("Unknown")),
            FieldOr(metadata, "author", JStr("Unknown")),
            FieldOr(metadata, "description", JStr("")),
            metadata))
  }

  /**
   * `loadYouTubeVideo(url)`: `videoId` is the id the YouTube URL pattern captures (`None` where it
   * does not match) and `docs` what the transcript loader returned, or the message it threw.
   */
  function LoadYouTubeVideo(url: string, videoId: Option<string>, docs: Result<seq<Page>, string>)
    : (r: Result<Video, string>)
    ensures r.Success? <==>
      videoId.Some? && docs.Success? && docs.value != [] && |Trim(docs.value[0].pageContent)| >= MinTranscriptLength
    ensures r.Success? ==>
      && r.value.videoId == videoId.value && r.value.videoUrl == url
      && r.value.transcript == CleanTranscriptText(docs.value[0].pageContent)
      && r.value.metadata == docs.value[0].metadata
      && (!("title" in r.value.metadata && Truthy(r.value.metadata["title"])) ==>
            r.value.videoTitle == JStr("YouTube Video " + videoId.value))
    ensures r.Success? ==>
      var m := docs.value[0].metadata;
      r.value == Video(videoId.value, url, FieldOr(m, "title", JStr("YouTube Video " + videoId.value)),
                       CleanTranscriptText(docs.value[0].pageContent), FieldOr(m, "length", JStr("Unknown")),
                       FieldOr(m, "author", JStr("Unknown")), FieldOr(m, "description", JStr("")), m)
    ensures videoId.None? ==> r == Failure(YouTubeErrorPrefix + InvalidYouTubeUrl)
    ensures videoId.Some? && docs.Success? && docs.value == [] ==> r == Failure(YouTubeErrorPrefix + NoTranscript)
    ensures videoId.Some? && docs.Success? && docs.value != [] && |Trim(docs.value[0].pageContent)| < MinTranscriptLength
      ==> r == Failure(YouTubeErrorPrefix + TranscriptTooShort)
    ensures videoId.Some? && docs.Failure? ==> r == Failure(MapYouTubeError(docs.error))
  {
    InvalidUrlUnrecognised();
    NoTranscriptUnrecognised();
    ShortTranscriptUnrecognised();
    match FetchVideo(url, videoId, docs)
    case Failure(e) => Failure(MapYouTubeError(e))
    case Success(video) => Success(video)
  }
}
