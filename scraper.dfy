/** The current scraper, `WebScraper` in backend/app/services/scraper.py:
    text normalisation, the meta-description lookup, social-link collection,
    the contact e-mail pick, the main-content join and the assembly of the
    scraped record. Fetching and HTML parsing are outside the model: the
    parsed page arrives as an `Html.Document` and `urljoin` as a function. */
module Scraper {
  import opened Wrappers
  import opened Text
  import opened Seqs
  import opened Html

  // ---------------------------------------------------------------------
  // _clean_text

  /** `' '.join(text.split()) if text else ''`. */
  function CleanText(text: Option<string>): (r: string)
    ensures text.None? || text.value == "" ==> r == ""
    ensures IsClean(r)
    ensures NonSpace(r) == (if text.Some? then NonSpace(text.value) else "")
  {
    if text.None? || text.value == "" then ""
    else
      var ws := Split(text.value);
      JoinIsClean(ws);
      NonSpaceOfJoin(ws);
      ConcatSplit(text.value);
      Join(" ", ws)
  }

  /** Cleaning already-cleaned text returns it unchanged. */
  lemma CleanTextIdempotent(text: Option<string>)
    ensures CleanText(Some(CleanText(text))) == CleanText(text)
  {
    var r := CleanText(text);
    if r != "" {
      JoinSplitOfClean(r);
    }
  }

  /** The fixed points of cleaning are exactly the clean strings. */
  lemma CleanTextFixedPoints(s: string)
    ensures CleanText(Some(s)) == s <==> IsClean(s)
  {
    if IsClean(s) && s != "" {
      JoinSplitOfClean(s);
    }
  }

  /** Cleaning keeps the word sequence `str.split()` sees. */
  lemma CleanTextKeepsWords(s: string)
    ensures Split(CleanText(Some(s))) == Split(s)
  {
    if s != "" {
      SplitJoin(Split(s));
    } else {
      assert DropSpaces(s) == [];
    }
  }

  // ---------------------------------------------------------------------
  // _get_meta_description

  predicate IsNameDescription(m: Meta)
  {
    m.name == Some("description") || m.name == Some("Description")
  }

  predicate IsPropertyDescription(m: Meta)
  {
    m.property == Some("og:description") || m.property == Some("twitter:description")
  }

  /** The cleaned `content` attribute, or '' when the attribute is absent. */
  function ContentOf(m: Meta): (r: string)
    ensures m.content.None? ==> r == ""
    ensures m.content.Some? ==> r == CleanText(m.content)
    ensures IsClean(r)
    ensures m.content.Some? ==> NonSpace(r) == NonSpace(m.content.value)
  {
    if m.content.Some? then CleanText(m.content) else ""
  }

  /** The first `name` description meta wins; the first `og:`/`twitter:`
      property meta is consulted only when there is none. */
  function MetaDescription(metas: seq<Meta>): (r: string)
    ensures IsClean(r)
  {
    var chosen :=
      match FirstMatch(metas, IsNameDescription)
      case Some(i) => Some(i)
      case None => FirstMatch(metas, IsPropertyDescription);
    match chosen
    case None => ""
    case Some(i) => ContentOf(metas[i])
  }

  /** A name meta is preferred, and its missing content gives '' with no
      fall-back to a property meta. */
  lemma MetaDescriptionPrefersName(metas: seq<Meta>, i: nat)
    requires i < |metas| && IsNameDescription(metas[i])
    requires forall j :: 0 <= j < i ==> !IsNameDescription(metas[j])
    ensures MetaDescription(metas) == ContentOf(metas[i])
    ensures metas[i].content.None? ==> MetaDescription(metas) == ""
  {
    FirstMatchIsFirst(metas, IsNameDescription, i);
  }

  /** Without a name meta, the first property meta decides. */
  lemma MetaDescriptionFallsBack(metas: seq<Meta>, i: nat)
    requires forall j :: 0 <= j < |metas| ==> !IsNameDescription(metas[j])
    requires i < |metas| && IsPropertyDescription(metas[i])
    requires forall j :: 0 <= j < i ==> !IsPropertyDescription(metas[j])
    ensures MetaDescription(metas) == ContentOf(metas[i])
  {
    FirstMatchIsFirst(metas, IsPropertyDescription, i);
  }

  /** With neither kind of meta, the description is ''. */
  lemma MetaDescriptionAbsent(metas: seq<Meta>)
    requires forall j :: 0 <= j < |metas| ==> !IsNameDescription(metas[j]) && !IsPropertyDescription(metas[j])
    ensures MetaDescription(metas) == ""
  {
  }

  // ---------------------------------------------------------------------
  // _find_social_links

  const SocialPatterns: seq<string> := ["facebook.com", "linkedin.com", "twitter.com", "instagram.com"]

  predicate IsAbsolute(href: string)
  {
    StartsWith(href, "http://") || StartsWith(href, "https://")
  }

  /** The href as matched: absolute ones verbatim, the rest through `urljoin`. */
  function Resolve(href: string, baseUrl: string, urljoin: (string, string) -> string): (r: string)
    ensures IsAbsolute(href) ==> r == href
    ensures r == href || r == urljoin(baseUrl, href)
    ensures !IsAbsolute(href) ==> r == urljoin(baseUrl, href)
  {
    if IsAbsolute(href) then href else urljoin(baseUrl, href)
  }

  /** `any(pattern in s for pattern in patterns)`. */
  predicate AnyPatternIn(s: string, patterns: seq<string>)
  {
    patterns != [] && (Contains(s, patterns[0]) || AnyPatternIn(s, patterns[1..]))
  }

  /** `any(...)` holds exactly when some pattern occurs in `s`. */
  lemma {:induction false} AnyPatternInIff(s: string, patterns: seq<string>)
    ensures AnyPatternIn(s, patterns) <==> exists k :: 0 <= k < |patterns| && Contains(s, patterns[k])
  {
    if patterns != [] {
      AnyPatternInIff(s, patterns[1..]);
      assert forall k :: 1 <= k < |patterns| ==> patterns[k] == patterns[1..][k - 1];
    }
  }

  /** Some social pattern occurs in the lowercased href. */
  predicate IsSocial(href: string)
  {
    AnyPatternIn(Lower(href), SocialPatterns)
  }

  /** The hrefs as matched, in document order. */
  function ResolveAll(hrefs: seq<string>, baseUrl: string, urljoin: (string, string) -> string): (r: seq<string>)
    ensures |r| == |hrefs|
    ensures forall i :: 0 <= i < |hrefs| ==> r[i] == Resolve(hrefs[i], baseUrl, urljoin)
  {
    if hrefs == [] then [] else [Resolve(hrefs[0], baseUrl, urljoin)] + ResolveAll(hrefs[1..], baseUrl, urljoin)
  }

  /** The set the loop of `_find_social_links` accumulates from matched hrefs. */
  function SocialSet(links: seq<string>): (r: set<string>)
    ensures forall x :: x in r ==> IsSocial(x)
  {
    if links == [] then {}
    else
      var last := links[|links| - 1];
      SocialSet(links[..|links| - 1]) + (if IsSocial(last) then {last} else {})
  }

  /** Membership in the accumulated set, stated without the loop. */
  lemma {:induction false} SocialSetMembers(links: seq<string>, x: string)
    ensures x in SocialSet(links) <==> x in links && IsSocial(x)
  {
    if links != [] {
      var init := links[..|links| - 1];
      SocialSetMembers(init, x);
      assert links == init + [links[|links| - 1]];
    }
  }

  function SocialLinkSet(hrefs: seq<string>, baseUrl: string, urljoin: (string, string) -> string): set<string>
  {
    SocialSet(ResolveAll(hrefs, baseUrl, urljoin))
  }

  /** The links found are the social ones among the resolved hrefs. */
  lemma SocialLinkSetMembers(hrefs: seq<string>, baseUrl: string, urljoin: (string, string) -> string, x: string)
    ensures x in SocialLinkSet(hrefs, baseUrl, urljoin) <==>
      IsSocial(x) && exists i :: 0 <= i < |hrefs| && Resolve(hrefs[i], baseUrl, urljoin) == x
  {
    var rs := ResolveAll(hrefs, baseUrl, urljoin);
    SocialSetMembers(rs, x);
    if x in rs {
      var i :| 0 <= i < |rs| && rs[i] == x;
      assert Resolve(hrefs[i], baseUrl, urljoin) == x;
    }
  }

  /** An absolute social href is kept verbatim, in its original case. */
  lemma AbsoluteSocialHrefKept(hrefs: seq<string>, baseUrl: string, urljoin: (string, string) -> string, i: nat)
    requires i < |hrefs| && IsAbsolute(hrefs[i]) && IsSocial(hrefs[i])
    ensures hrefs[i] in SocialLinkSet(hrefs, baseUrl, urljoin)
  {
    SocialLinkSetMembers(hrefs, baseUrl, urljoin, hrefs[i]);
  }

  /** A relative href is matched, and kept, in its resolved form. */
  lemma RelativeHrefResolved(hrefs: seq<string>, baseUrl: string, urljoin: (string, string) -> string, i: nat)
    requires i < |hrefs| && !IsAbsolute(hrefs[i])
    ensures urljoin(baseUrl, hrefs[i]) in SocialLinkSet(hrefs, baseUrl, urljoin)
            <== IsSocial(urljoin(baseUrl, hrefs[i]))
  {
    SocialLinkSetMembers(hrefs, baseUrl, urljoin, urljoin(baseUrl, hrefs[i]));
  }

  /** One more link extends the set by that link when it is social. */
  lemma SocialSetStep(links: seq<string>, i: nat)
    requires i < |links|
    ensures SocialSet(links[..i + 1]) ==
      SocialSet(links[..i]) + (if IsSocial(links[i]) then {links[i]} else {})
  {
    assert links[..i + 1][..i] == links[..i];
  }

  /** The loop of `_find_social_links`: each href resolved and matched in
      turn, the matches added to a set. */
  method CollectSocialLinks(hrefs: seq<string>, baseUrl: string, urljoin: (string, string) -> string)
    returns (found: set<string>)
    ensures found == SocialLinkSet(hrefs, baseUrl, urljoin)
  {
    ghost var resolved := ResolveAll(hrefs, baseUrl, urljoin);
    found := {};
    for i := 0 to |hrefs|
      invariant found == SocialSet(resolved[..i])
    {
      var href := hrefs[i];
      if !IsAbsolute(href) {
        href := urljoin(baseUrl, href);
      }
      assert href == resolved[i];
      SocialSetStep(resolved, i);
      if IsSocial(href) {
        found := found + {href};
      }
    }
    assert resolved[..|hrefs|] == resolved;
  }

  /** `list(s)`: every member once, in an order the model leaves open. */
  method SetToList(s: set<string>) returns (xs: seq<string>)
    ensures NoDuplicates(xs)
    ensures forall x :: x in xs <==> x in s
  {
    xs := [];
    var rest := s;
    while rest != {}
      invariant rest <= s
      invariant forall x :: x in xs ==> x in s && x !in rest
      invariant forall x :: x in s ==> x in xs || x in rest
      invariant NoDuplicates(xs)
      decreases |rest|
    {
      var x :| x in rest;
      xs := xs + [x];
      rest := rest - {x};
    }
  }

  /** `_find_social_links`: the collected set, listed. */
  method FindSocialLinks(hrefs: seq<string>, baseUrl: string, urljoin: (string, string) -> string)
    returns (links: seq<string>)
    ensures NoDuplicates(links)
    ensures forall x :: x in links <==> x in SocialLinkSet(hrefs, baseUrl, urljoin)
  {
    var found := CollectSocialLinks(hrefs, baseUrl, urljoin);
    links := SetToList(found);
  }

  // ---------------------------------------------------------------------
  // _extract_contact_info

  predicate HasAt(text: string)
  {
    '@' in text
  }

  /** The record `_extract_contact_info` builds from the surviving texts:
      the three keys, phone and address None, and the e-mail the cleaned
      first text containing '@', None when there is none. */
  predicate IsContactInfo(info: map<string, Option<string>>, texts: seq<string>)
  {
    && info.Keys == {"email", "phone", "address"}
    && info["phone"] == None && info["address"] == None
    && IsFirstEmail(info["email"], texts)
  }

  /** The e-mail is the cleaned first text containing '@', None when there is none. */
  predicate IsFirstEmail(email: Option<string>, texts: seq<string>)
  {
    && (email.None? <==> forall i :: 0 <= i < |texts| ==> !HasAt(texts[i]))
    && (forall i :: 0 <= i < |texts| && HasAt(texts[i]) && (forall j :: 0 <= j < i ==> !HasAt(texts[j]))
                    ==> email == Some(CleanText(Some(texts[i]))))
  }

  /** The first text containing '@' is the one `IsFirstEmail` describes. */
  lemma FirstIsEmail(texts: seq<string>, email: Option<string>)
    requires FirstMatch(texts, HasAt).None? ==> email == None
    requires FirstMatch(texts, HasAt).Some? ==> email == Some(CleanText(Some(texts[FirstMatch(texts, HasAt).value])))
    ensures IsFirstEmail(email, texts)
  {
    forall i | 0 <= i < |texts| && HasAt(texts[i]) && (forall j :: 0 <= j < i ==> !HasAt(texts[j]))
      ensures email == Some(CleanText(Some(texts[i])))
    {
      FirstMatchIsFirst(texts, HasAt, i);
    }
  }

  /** `_extract_contact_info`. */
  method ExtractContactInfo(texts: seq<string>) returns (info: map<string, Option<string>>)
    ensures IsContactInfo(info, texts)
  {
    var first := FirstMatch(texts, HasAt);
    var email: Option<string> := None;
    if first.Some? {
      email := Some(CleanText(Some(texts[first.value])));
    }
    FirstIsEmail(texts, email);
    info := map["email" := email, "phone" := None, "address" := None];
  }

  // ---------------------------------------------------------------------
  // _extract_main_content and the scraped record

  /** The elements `_extract_main_content` removes before reading content. */
  const RemovedElements: set<string> := {"script", "style", "nav", "footer"}

  function CleanEach(texts: seq<string>): (r: seq<string>)
    ensures |r| == |texts|
    ensures forall i :: 0 <= i < |texts| ==> r[i] == CleanText(Some(texts[i]))
  {
    if texts == [] then [] else [CleanText(Some(texts[0]))] + CleanEach(texts[1..])
  }

  /** The join of the cleaned texts of the selected content elements, given
      in document order; which elements the class filter selects is the HTML
      library's business. */
  method ExtractMainContent(elementTexts: seq<string>) returns (content: string)
    ensures content == Join(" ", CleanEach(elementTexts))
  {
    var parts: seq<string> := [];
    for i := 0 to |elementTexts|
      invariant parts == CleanEach(elementTexts[..i])
    {
      CleanEachStep(elementTexts, i);
      parts := parts + [CleanText(Some(elementTexts[i]))];
    }
    assert elementTexts[..|elementTexts|] == elementTexts;
    content := Join(" ", parts);
  }

  lemma {:induction false} CleanEachAppend(texts: seq<string>, t: string)
    ensures CleanEach(texts + [t]) == CleanEach(texts) + [CleanText(Some(t))]
  {
  }

  /** Cleaning one more text appends its cleaned form. */
  lemma CleanEachStep(texts: seq<string>, i: nat)
    requires i < |texts|
    ensures CleanEach(texts[..i + 1]) == CleanEach(texts[..i]) + [CleanText(Some(texts[i]))]
  {
    assert texts[..i + 1] == texts[..i] + [texts[i]];
    CleanEachAppend(texts[..i], texts[i]);
  }

  /** The cleaned title string, or '' when there is no title element. */
  function Title(title: Option<Option<string>>): (r: string)
    ensures title.None? ==> r == ""
    ensures title.Some? ==> r == CleanText(title.value)
    ensures IsClean(r)
  {
    match title
    case None => ""
    case Some(s) => CleanText(s)
  }

  datatype ScrapedData = ScrapedData(
    title: string,
    metaDescription: string,
    mainContent: string,
    socialLinks: seq<string>,
    contactInfo: map<string, Option<string>>,
    finalUrl: string)

  /** The body of `scrape_website` once the page is parsed. The title and the
      meta description are read before the removal of script, style, nav and
      footer elements, links and contact texts after it. */
  method ScrapeDocument(doc: Document, elementTexts: seq<string>, finalUrl: string,
                        urljoin: (string, string) -> string)
    returns (data: ScrapedData)
    ensures data.title == Title(doc.title)
    ensures data.metaDescription == MetaDescription(doc.metas)
    ensures data.mainContent == Join(" ", CleanEach(elementTexts))
    ensures NoDuplicates(data.socialLinks)
    ensures forall x :: x in data.socialLinks <==>
      x in SocialLinkSet(SurvivingHrefs(doc.anchors, RemovedElements), finalUrl, urljoin)
    ensures IsContactInfo(data.contactInfo, SurvivingTexts(doc.texts, RemovedElements))
    ensures data.finalUrl == finalUrl
  {
    var title := Title(doc.title);
    var description := MetaDescription(doc.metas);
    var content := ExtractMainContent(elementTexts);
    var links := FindSocialLinks(SurvivingHrefs(doc.anchors, RemovedElements), finalUrl, urljoin);
    var texts := SurvivingTexts(doc.texts, RemovedElements);
    var contact := ExtractContactInfo(texts);
    data := ScrapedData(title, description, content, links, contact, finalUrl);
  }
}
