/** The older scraper, `WebScraper` in backend/main.py. It differs from the
    current one in every helper: the meta lookup reads `content` without
    checking that it exists, social links are matched case-sensitively on
    the raw href and kept in document order with duplicates, the e-mail is
    only stripped, the main-content texts are joined as they come, the title
    is not cleaned, and only script and style elements are removed. */
module LegacyScraper {
  import opened Wrappers
  import opened Text
  import opened Seqs
  import opened Html
  import Scraper

  /** The one way the helpers below fail: `meta['content']` raises a
      KeyError when the description meta has no `content` attribute, and
      `scrape_website` turns that into an HTTP 400. */
  datatype ScrapeFailure = MissingContentAttribute

  // ---------------------------------------------------------------------
  // _get_meta_description

  predicate IsDescriptionName(m: Meta)
  {
    m.name == Some("description")
  }

  /** The raw `content` of the first `name="description"` meta, '' when there
      is none, and the KeyError when that meta lacks `content`. */
  function MetaDescription(metas: seq<Meta>): (r: Result<string, ScrapeFailure>)
    ensures (forall j :: 0 <= j < |metas| ==> !IsDescriptionName(metas[j])) ==> r == Success("")
    ensures forall i :: 0 <= i < |metas| && IsDescriptionName(metas[i])
                        && (forall j :: 0 <= j < i ==> !IsDescriptionName(metas[j])) ==>
              r == (if metas[i].content.Some? then Success(metas[i].content.value)
                    else Failure(MissingContentAttribute))
  {
    match FirstMatch(metas, IsDescriptionName)
    case None => Success("")
    case Some(i) =>
      if metas[i].content.Some? then Success(metas[i].content.value)
      else Failure(MissingContentAttribute)
  }

  // ---------------------------------------------------------------------
  // _extract_main_content

  /** The elements removed before reading content. */
  const RemovedElements: set<string> := {"script", "style"}

  /** The per-tag texts of the selected content tags joined with one space,
      in tag order. */
  method ExtractMainContent(tagTexts: seq<string>) returns (content: string)
    ensures content == Join(" ", tagTexts)
  {
    var parts: seq<string> := [];
    for i := 0 to |tagTexts|
      invariant parts == tagTexts[..i]
    {
      parts := parts + [tagTexts[i]];
    }
    assert tagTexts[..|tagTexts|] == tagTexts;
    content := Join(" ", parts);
  }

  // ---------------------------------------------------------------------
  // _find_social_links

  const SocialPatterns: seq<string> := ["facebook.com", "linkedin.com", "twitter.com", "instagram.com"]

  /** Case-sensitive match on the raw href. */
  predicate IsSocial(href: string)
  {
    Scraper.AnyPatternIn(href, SocialPatterns)
  }

  /** The hrefs that match, in document order, duplicates included. */
  function SocialFilter(hrefs: seq<string>): (r: seq<string>)
    ensures forall x :: x in r ==> IsSocial(x) && x in hrefs
  {
    if hrefs == [] then []
    else
      var init := SocialFilter(hrefs[..|hrefs| - 1]);
      var last := hrefs[|hrefs| - 1];
      assert forall x :: x in init ==> x in hrefs by {
        forall x | x in init ensures x in hrefs {
          assert x in hrefs[..|hrefs| - 1];
        }
      }
      if IsSocial(last) then init + [last] else init
  }

  /** Every matching href is kept as often as it occurs, every other one not
      at all. */
  lemma {:induction false} SocialFilterCounts(hrefs: seq<string>, h: string)
    ensures multiset(SocialFilter(hrefs))[h] == if IsSocial(h) then multiset(hrefs)[h] else 0
  {
    if hrefs != [] {
      var init := hrefs[..|hrefs| - 1];
      var last := hrefs[|hrefs| - 1];
      SocialFilterCounts(init, h);
      assert hrefs == init + [last];
      assert multiset(hrefs) == multiset(init) + multiset{last};
    }
  }

  /** A matching href of the input is among the kept ones. */
  lemma SocialFilterKeeps(hrefs: seq<string>, h: string)
    requires h in hrefs && IsSocial(h)
    ensures h in SocialFilter(hrefs)
  {
    SocialFilterCounts(hrefs, h);
  }

  /** One href is kept exactly when it matches. */
  lemma SocialFilterSingle(h: string)
    ensures SocialFilter([h]) == if IsSocial(h) then [h] else []
  {
    assert [h][..0] == [];
  }

  /** Filtering distributes over concatenation: the kept hrefs of `a` come
      before those of `b`, so document order is kept. */
  lemma {:induction false} SocialFilterAppend(a: seq<string>, b: seq<string>)
    ensures SocialFilter(a + b) == SocialFilter(a) + SocialFilter(b)
    decreases |b|
  {
    if b == [] {
      assert a + b == a;
    } else {
      var init := b[..|b| - 1];
      var last := b[|b| - 1];
      assert (a + b)[..|a + b| - 1] == a + init;
      assert (a + b)[|a + b| - 1] == last;
      SocialFilterAppend(a, init);
    }
  }

  /** `_find_social_links`: the matching hrefs appended in document order. */
  method FindSocialLinks(hrefs: seq<string>) returns (links: seq<string>)
    ensures links == SocialFilter(hrefs)
  {
    links := [];
    for i := 0 to |hrefs|
      invariant links == SocialFilter(hrefs[..i])
    {
      if IsSocial(hrefs[i]) {
        links := links + [hrefs[i]];
      }
      assert hrefs[..i + 1][..i] == hrefs[..i];
    }
    assert hrefs[..|hrefs|] == hrefs;
  }

  lemma PatternsAreLowercase()
    ensures forall k :: 0 <= k < |SocialPatterns| ==> NoUpper(SocialPatterns[k])
  {
    assert NoUpper("facebook.com");
    assert NoUpper("linkedin.com");
    assert NoUpper("twitter.com");
    assert NoUpper("instagram.com");
  }

  lemma {:induction false} AnyPatternInLower(s: string, patterns: seq<string>)
    requires forall k :: 0 <= k < |patterns| ==> NoUpper(patterns[k])
    requires Scraper.AnyPatternIn(s, patterns)
    ensures Scraper.AnyPatternIn(Lower(s), patterns)
  {
    if Contains(s, patterns[0]) {
      LowerOfNoUpper(patterns[0]);
      ContainsLower(s, patterns[0]);
    } else {
      AnyPatternInLower(s, patterns[1..]);
    }
  }

  /** On the same href list, every absolute link the old filter keeps is in
      the current scraper's link set: a case-sensitive match is also a match
      after lowercasing. The two scrapers do not see the same hrefs, since
      the current one also removes nav and footer elements. */
  lemma LegacyAbsoluteLinksKept(hrefs: seq<string>, baseUrl: string, urljoin: (string, string) -> string, h: string)
    requires h in SocialFilter(hrefs) && Scraper.IsAbsolute(h)
    ensures h in Scraper.SocialLinkSet(hrefs, baseUrl, urljoin)
  {
    PatternsAreLowercase();
    AnyPatternInLower(h, SocialPatterns);
    assert Scraper.SocialPatterns == SocialPatterns;
    var i :| 0 <= i < |hrefs| && hrefs[i] == h;
    Scraper.AbsoluteSocialHrefKept(hrefs, baseUrl, urljoin, i);
  }

  /** On one document: an absolute anchor outside script, style, nav and
      footer elements that the old scraper reports is reported by the
      current one as well. */
  lemma LegacyDocumentLinksKept(doc: Document, baseUrl: string, urljoin: (string, string) -> string, a: Anchor)
    requires a in doc.anchors && a.ancestors !! Scraper.RemovedElements
    requires Scraper.IsAbsolute(a.href) && IsSocial(a.href)
    ensures a.href in SocialFilter(SurvivingHrefs(doc.anchors, RemovedElements))
    ensures a.href in Scraper.SocialLinkSet(SurvivingHrefs(doc.anchors, Scraper.RemovedElements), baseUrl, urljoin)
  {
    var current := SurvivingHrefs(doc.anchors, Scraper.RemovedElements);
    assert RemovedElements <= Scraper.RemovedElements;
    SurvivingHrefsKeeps(doc.anchors, RemovedElements, a);
    SocialFilterKeeps(SurvivingHrefs(doc.anchors, RemovedElements), a.href);
    SurvivingHrefsKeeps(doc.anchors, Scraper.RemovedElements, a);
    SocialFilterKeeps(current, a.href);
    LegacyAbsoluteLinksKept(current, baseUrl, urljoin, a.href);
  }

  // ---------------------------------------------------------------------
  // _extract_contact_info

  /** The legacy contact record: the three keys, phone and address None,
      and the e-mail the first text containing '@' with only its ends
      stripped, None when there is none. */
  predicate IsContactInfo(info: map<string, Option<string>>, texts: seq<string>)
  {
    && info.Keys == {"email", "phone", "address"}
    && info["phone"] == None && info["address"] == None
    && IsFirstEmail(info["email"], texts)
  }

  /** The e-mail is the stripped first text containing '@', None when there is none. */
  predicate IsFirstEmail(email: Option<string>, texts: seq<string>)
  {
    && (email.None? <==> forall i :: 0 <= i < |texts| ==> !Scraper.HasAt(texts[i]))
    && (forall i :: 0 <= i < |texts| && Scraper.HasAt(texts[i]) && (forall j :: 0 <= j < i ==> !Scraper.HasAt(texts[j]))
                    ==> email == Some(Strip(texts[i])))
  }

  /** The first text containing '@' is the one `IsFirstEmail` describes. */
  lemma FirstIsEmail(texts: seq<string>, email: Option<string>)
    requires FirstMatch(texts, Scraper.HasAt).None? ==> email == None
    requires FirstMatch(texts, Scraper.HasAt).Some? ==> email == Some(Strip(texts[FirstMatch(texts, Scraper.HasAt).value]))
    ensures IsFirstEmail(email, texts)
  {
    forall i | 0 <= i < |texts| && Scraper.HasAt(texts[i]) && (forall j :: 0 <= j < i ==> !Scraper.HasAt(texts[j]))
      ensures email == Some(Strip(texts[i]))
    {
      FirstMatchIsFirst(texts, Scraper.HasAt, i);
    }
  }

  /** `_extract_contact_info`. */
  method ExtractContactInfo(texts: seq<string>) returns (info: map<string, Option<string>>)
    ensures IsContactInfo(info, texts)
  {
    var first := FirstMatch(texts, Scraper.HasAt);
    var email: Option<string> := None;
    if first.Some? {
      email := Some(Strip(texts[first.value]));
    }
    FirstIsEmail(texts, email);
    info := map["email" := email, "phone" := None, "address" := None];
  }

  // ---------------------------------------------------------------------
  // scrape_website

  /** `soup.title.string if soup.title else ''`: '' without a title element,
      Python's None when the title has no single string, never cleaned. */
  function Title(title: Option<Option<string>>): (r: Option<string>)
    ensures title.None? ==> r == Some("")
    ensures title.Some? ==> r == title.value
  {
    match title
    case None => Some("")
    case Some(s) => s
  }

  datatype LegacyData = LegacyData(
    title: Option<string>,
    metaDescription: string,
    mainContent: string,
    socialLinks: seq<string>,
    contactInfo: map<string, Option<string>>)

  /** The body of `scrape_website` once the page is parsed; a missing
      `content` attribute on the description meta fails the whole scrape. */
  method ScrapeDocument(doc: Document, tagTexts: seq<string>)
    returns (r: Result<LegacyData, ScrapeFailure>)
    ensures r.Failure? <==> MetaDescription(doc.metas).Failure?
    ensures r.Success? ==>
      && r.value.title == Title(doc.title)
      && Success(r.value.metaDescription) == MetaDescription(doc.metas)
      && r.value.mainContent == Join(" ", tagTexts)
      && r.value.socialLinks == SocialFilter(SurvivingHrefs(doc.anchors, RemovedElements))
      && IsContactInfo(r.value.contactInfo, SurvivingTexts(doc.texts, RemovedElements))
  {
    var description := MetaDescription(doc.metas);
    if description.Failure? {
      return Failure(description.error);
    }
    var content := ExtractMainContent(tagTexts);
    var links := FindSocialLinks(SurvivingHrefs(doc.anchors, RemovedElements));
    var contact := ExtractContactInfo(SurvivingTexts(doc.texts, RemovedElements));
    r := Success(LegacyData(Title(doc.title), description.value, content, links, contact));
  }
}
