/** The input shaping of `CompanyAnalyzer` in backend/app/services/analyzer.py:
    the fixed five-key record handed to the language model, and the notes
    line of its prompt. The model call itself and the JSON decoding of its
    answer are outside this model. */
module Analyzer {
  import opened Wrappers
  import Scraper

  /** The Python values that occur in the scraped-data dictionary. */
  datatype PyValue =
    | PyNone
    | PyStr(s: string)
    | PyList(items: seq<PyValue>)
    | PyDict(entries: map<string, PyValue>)

  /** Characters of main content kept for the model. */
  const MaxContent: nat := 5000

  /** The keys of the shaped record. */
  const ShapedKeys: set<string> := {"title", "description", "content", "social_links", "contact_info"}

  /** The keys of the scraped data that the shaping reads. */
  const SourceKeys: set<string> := {"title", "meta_description", "main_content", "social_links", "contact_info"}

  /** Every shaping failure is an exception that `analyze_company` reports as
      an HTTP 500; slicing a value that is neither a string nor a list is the
      only one the shaping itself can raise. */
  datatype AnalysisFailure = NotSliceable

  /** `d.get(key, default)`. */
  function Get(d: map<string, PyValue>, key: string, default: PyValue): (r: PyValue)
    ensures key in d ==> r == d[key]
    ensures key !in d ==> r == default
  {
    if key in d then d[key] else default
  }

  function Min(a: nat, b: nat): (r: nat)
    ensures r <= a && r <= b && (r == a || r == b)
  {
    if a <= b then a else b
  }

  /** `v[:n]`: the first `n` characters of a string or items of a list, all
      of them when there are fewer; any other value raises. */
  function Slice(v: PyValue, n: nat): (r: Option<PyValue>)
    ensures r.Some? <==> v.PyStr? || v.PyList?
    ensures v.PyStr? ==>
      && r.Some? && r.value.PyStr?
      && |r.value.s| <= n && |r.value.s| <= |v.s| && r.value.s == v.s[..|r.value.s|]
      && (|v.s| <= n ==> r.value.s == v.s)
      && (n < |v.s| ==> |r.value.s| == n)
    ensures v.PyList? ==>
      && r.Some? && r.value.PyList?
      && |r.value.items| <= n && |r.value.items| <= |v.items| && r.value.items == v.items[..|r.value.items|]
      && (|v.items| <= n ==> r.value.items == v.items)
      && (n < |v.items| ==> |r.value.items| == n)
  {
    match v
    case PyStr(s) => Some(PyStr(s[..Min(|s|, n)]))
    case PyList(items) => Some(PyList(items[..Min(|items|, n)]))
    case _ => None
  }

  /** `content_for_analysis`: exactly five keys, each taken from the scraped
      data or defaulted when absent, `meta_description` renamed to
      `description` and the main content cut to `MaxContent`. */
  function ContentForAnalysis(data: map<string, PyValue>): (r: Result<map<string, PyValue>, AnalysisFailure>)
    ensures r.Failure? <==> Slice(Get(data, "main_content", PyStr("")), MaxContent).None?
    ensures r.Success? ==>
      && r.value.Keys == ShapedKeys
      && r.value["title"] == (if "title" in data then data["title"] else PyStr(""))
      && r.value["description"] == (if "meta_description" in data then data["meta_description"] else PyStr(""))
      && r.value["social_links"] == (if "social_links" in data then data["social_links"] else PyList([]))
      && r.value["contact_info"] == (if "contact_info" in data then data["contact_info"] else PyDict(map[]))
      && Some(r.value["content"]) == Slice(Get(data, "main_content", PyStr("")), MaxContent)
  {
    var content := Slice(Get(data, "main_content", PyStr("")), MaxContent);
    if content.None? then Failure(NotSliceable)
    else
      Success(map[
        "title" := Get(data, "title", PyStr("")),
        "description" := Get(data, "meta_description", PyStr("")),
        "content" := content.value,
        "social_links" := Get(data, "social_links", PyList([])),
        "contact_info" := Get(data, "contact_info", PyDict(map[]))])
  }

  /** Keys the shaping does not read, `final_url` and an input `description`
      among them, do not affect the shaped record. */
  lemma UnreadKeyIgnored(data: map<string, PyValue>, key: string, v: PyValue)
    requires key !in SourceKeys
    ensures ContentForAnalysis(data[key := v]) == ContentForAnalysis(data)
  {
    assert Get(data[key := v], "main_content", PyStr("")) == Get(data, "main_content", PyStr(""));
  }

  // ---------------------------------------------------------------------
  // The scraper's dictionary

  function StrList(xs: seq<string>): (r: seq<PyValue>)
    ensures |r| == |xs|
    ensures forall i :: 0 <= i < |xs| ==> r[i] == PyStr(xs[i])
  {
    if xs == [] then [] else [PyStr(xs[0])] + StrList(xs[1..])
  }

  /** An optional string as Python's str or None. */
  function OptStr(v: Option<string>): (r: PyValue)
    ensures v.None? <==> r == PyNone
    ensures v.Some? ==> r == PyStr(v.value)
  {
    if v.Some? then PyStr(v.value) else PyNone
  }

  /** The dictionary `scrape_website` returns, as Python values. */
  function ScrapedAsDict(d: Scraper.ScrapedData): (r: map<string, PyValue>)
    ensures r.Keys == SourceKeys + {"final_url"}
    ensures r["title"] == PyStr(d.title) && r["meta_description"] == PyStr(d.metaDescription)
    ensures r["main_content"] == PyStr(d.mainContent) && r["final_url"] == PyStr(d.finalUrl)
    ensures r["social_links"].PyList? && |r["social_links"].items| == |d.socialLinks|
    ensures forall i :: 0 <= i < |d.socialLinks| ==> r["social_links"].items[i] == PyStr(d.socialLinks[i])
    ensures r["contact_info"].PyDict? && r["contact_info"].entries.Keys == d.contactInfo.Keys
    ensures forall k :: k in d.contactInfo ==> r["contact_info"].entries[k] == OptStr(d.contactInfo[k])
  {
    map[
      "title" := PyStr(d.title),
      "meta_description" := PyStr(d.metaDescription),
      "main_content" := PyStr(d.mainContent),
      "social_links" := PyList(StrList(d.socialLinks)),
      "contact_info" := PyDict(map k | k in d.contactInfo :: OptStr(d.contactInfo[k])),
      "final_url" := PyStr(d.finalUrl)]
  }

  /** Shaping what the scraper returns never fails; its content is the first
      `MaxContent` characters of the main content, and `final_url` is
      dropped. */
  lemma ScrapedDataShapes(d: Scraper.ScrapedData)
    ensures ContentForAnalysis(ScrapedAsDict(d)).Success?
    ensures var shaped := ContentForAnalysis(ScrapedAsDict(d)).value;
      && shaped["title"] == PyStr(d.title)
      && shaped["description"] == PyStr(d.metaDescription)
      && shaped["content"].PyStr?
      && shaped["content"].s == d.mainContent[..Min(|d.mainContent|, MaxContent)]
      && "final_url" !in shaped
  {
    var content := Slice(PyStr(d.mainContent), MaxContent);
    assert content.value.s == d.mainContent[..Min(|d.mainContent|, MaxContent)];
  }

  // ---------------------------------------------------------------------
  // _create_analysis_prompt

  const NoNotes: string := "No additional notes provided"

  /** The notes line of the prompt: the notes verbatim when they are a
      non-empty string, the fixed text otherwise. */
  function NotesText(notes: Option<string>): (r: string)
    ensures notes.None? || notes.value == "" ==> r == NoNotes
    ensures notes.Some? && notes.value != "" ==> r == notes.value
    ensures r != ""
  {
    if notes.Some? && notes.value != "" then notes.value else NoNotes
  }
}
