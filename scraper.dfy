/** The web research tool of the AI service (ai-service/services/scraper.py).
    The search engine, the fetched pages and the summarising model are
    oracles; the link cap, the 4000-character cap, the empty-text rules and
    the consolidated report are modelled exactly. */
module Scraper {
  import opened Common

  const DefaultLinks: nat := 5
  const MaxPageChars: nat := 4000

  const Header: string := "I found the following information from the web:\n\n"
  const NoSites: string := "I couldn't find any relevant websites for that topic."
  const NoSummary: string := "I was able to find some websites but could not extract a clear summary."
  const SummaryFailed: string := "Could not summarize content."

  /** The search page: a request error, or the result anchors in page
      order, each with its `href` if it has one. */
  datatype SearchPage = SearchFailed | Anchors(hrefs: seq<Option<string>>)

  /** A fetched page: a request error, or the paragraph texts (already
      stripped) of its main, article and body elements, where present. */
  datatype Page = PageFailed | Loaded(main: Option<seq<string>>, article: Option<seq<string>>, body: Option<seq<string>>)

  /** The summarising model's reply to one prompt. */
  datatype SummaryReply = Summarized(text: string) | SummaryError

  /** A function's result, or an exception other than the ones it
      catches. */
  datatype Outcome<T> = Value(value: T) | Raised

  function Take<T>(s: seq<T>, n: nat): (r: seq<T>)
    ensures |r| == if |s| <= n then |s| else n
    ensures r == s[..|r|]
  {
    if |s| <= n then s else s[..n]
  }

  /** _get_top_search_links: the hrefs of the first `numLinks` anchors, [] on
      a request error; an anchor without `href` raises. */
  function TopSearchLinks(search: SearchPage, numLinks: nat): (r: Outcome<seq<string>>)
    ensures search.SearchFailed? ==> r == Value([])
    ensures r.Value? ==> |r.value| <= numLinks
    ensures search.Anchors? ==> (r.Value? <==> forall i :: 0 <= i < |Take(search.hrefs, numLinks)| ==> Take(search.hrefs, numLinks)[i].Some?)
    ensures search.Anchors? && r.Value? ==> (|r.value| == |Take(search.hrefs, numLinks)|
      && forall i :: 0 <= i < |r.value| ==> Some(r.value[i]) == search.hrefs[i])
  {
    if search.SearchFailed? then Value([])
    else
      var first := Take(search.hrefs, numLinks);
      if forall i :: 0 <= i < |first| ==> first[i].Some? then
        Value(seq(|first|, i requires 0 <= i < |first| => first[i].value))
      else Raised
  }

  /** _scrape_and_clean_page: the paragraphs of the first region present
      (main, article, body) joined by spaces and cut to 4000 characters;
      "" on a request error. A page with none of the three regions raises. */
  function ScrapePage(p: Page): (r: Outcome<string>)
    ensures p.PageFailed? ==> r == Value("")
    ensures r.Value? ==> |r.value| <= MaxPageChars
    ensures p.Loaded? ==> (r.Raised? <==> p.main.None? && p.article.None? && p.body.None?)
    ensures p.Loaded? && p.main.Some? ==> r.Value? && r.value == Take(Join(p.main.value, " "), MaxPageChars)
    ensures p.Loaded? && p.main.None? && p.article.Some? ==>
      r == Value(Take(Join(p.article.value, " "), MaxPageChars))
    ensures p.Loaded? && p.main.None? && p.article.None? && p.body.Some? ==>
      r == Value(Take(Join(p.body.value, " "), MaxPageChars))
  {
    if p.PageFailed? then Value("")
    else
      var region := if p.main.Some? then p.main else if p.article.Some? then p.article else p.body;
      if region.None? then Raised
      else Value(Take(Join(region.value, " "), MaxPageChars))
  }

  /** _summarize_text_with_ai: "" for "" without asking the model, the
      stripped summary, or the fixed message when the model fails. */
  function Summarize(text: string, reply: SummaryReply): (r: string)
    ensures text == "" ==> r == ""
    ensures text != "" && reply.SummaryError? ==> r == SummaryFailed && r != ""
    ensures text != "" && reply.Summarized? ==> r == PyStrip(reply.text)
  {
    if text == "" then ""
    else if reply.SummaryError? then SummaryFailed
    else PyStrip(reply.text)
  }

  /** One report section, numbered by position in the full summary list. */
  function Section(i: nat, summary: string): string {
    "Source " + NatToDecimal(i + 1) + ":\n" + summary + "\n\n"
  }

  /** The sections for a list of summaries; an empty summary adds nothing
      but still uses up its number. */
  function Sections(summaries: seq<string>): string
  {
    if summaries == [] then ""
    else
      var i := |summaries| - 1;
      Sections(summaries[..i]) + (if summaries[i] != "" then Section(i, summaries[i]) else "")
  }

  /** The sections are empty exactly when every summary is empty. */
  lemma {:induction false} SectionsEmptyIff(summaries: seq<string>)
    ensures Sections(summaries) == "" <==> forall i :: 0 <= i < |summaries| ==> summaries[i] == ""
  {
    if summaries != [] {
      var i := |summaries| - 1;
      SectionsEmptyIff(summaries[..i]);
    }
  }

  /** The report scrape_for_info builds from the summaries: the header and the
      sections, or a fixed message when there is no section at all. */
  function Report(summaries: seq<string>): (r: string)
    ensures (forall i :: 0 <= i < |summaries| ==> summaries[i] == "") ==> r == NoSummary
    ensures (exists i :: 0 <= i < |summaries| && summaries[i] != "") ==>
      r == Header + Sections(summaries) && |r| > |Header|
  {
    SectionsEmptyIff(summaries);
    var report := Header + Sections(summaries);
    if report == Header then NoSummary else report
  }

  /** Every non-empty summary appears in the sections under the label of
      its own position. */
  lemma {:induction false} SectionListed(summaries: seq<string>, i: nat)
    requires i < |summaries| && summaries[i] != ""
    ensures Contains(Sections(summaries), Section(i, summaries[i]))
  {
    var last := |summaries| - 1;
    var front := Sections(summaries[..last]);
    var tail := if summaries[last] != "" then Section(last, summaries[last]) else "";
    SectionsStep(summaries, last);
    assert summaries[..last + 1] == summaries;
    if i == last {
      OccursAtEnd(front, tail);
    } else {
      var sec := Section(i, summaries[i]);
      assert summaries[..last][i] == summaries[i];
      SectionListed(summaries[..last], i);
      var k :| OccursAt(front, sec, k);
      OccursInLonger(front, tail, sec, k);
    }
  }

  lemma OccursAtEnd(s: string, t: string)
    ensures OccursAt(s + t, t, |s|)
  {
    assert (s + t)[|s|..|s| + |t|] == t;
  }

  lemma OccursInLonger(s: string, t: string, sub: string, k: int)
    requires OccursAt(s, sub, k)
    ensures OccursAt(s + t, sub, k)
  {
    assert (s + t)[k..k + |sub|] == s[k..k + |sub|];
  }

  /** A skipped empty summary leaves a gap: the second summary is labelled
      "Source 2" even when the first is empty. */
  lemma NumberingSkips(a: string)
    requires a != ""
    ensures Report(["", a]) == Header + "Source 2:\n" + a + "\n\n"
  {
    var s := ["", a];
    SectionsStep(s, 0);
    SectionsStep(s, 1);
    assert s[..0] == [] && s[..2] == s;
    assert Sections(s) == Section(1, a);
    assert NatToDecimal(2) == "2";
    ReportOfSections(s);
  }

  /** The sections of one more summary extend those of the shorter list. */
  lemma SectionsStep(summaries: seq<string>, i: nat)
    requires i < |summaries|
    ensures Sections(summaries[..i + 1])
      == Sections(summaries[..i]) + (if summaries[i] != "" then Section(i, summaries[i]) else "")
  {
    assert summaries[..i + 1][..i] == summaries[..i];
  }

  lemma AppendAssoc(a: string, b: string, c: string)
    ensures (a + b) + c == a + (b + c)
  {
  }

  /** The report is the header and the sections, or the fixed message
      exactly when the sections are empty. */
  lemma ReportOfSections(summaries: seq<string>)
    ensures Sections(summaries) == "" ==> Report(summaries) == NoSummary
    ensures Sections(summaries) != "" ==> Report(summaries) == Header + Sections(summaries)
  {
    var t := Header + Sections(summaries);
    assert |t| == |Header| + |Sections(summaries)|;
  }

  /** The consolidation loop of scrape_for_info, appending one section per
      non-empty summary. */
  method Consolidate(summaries: seq<string>) returns (report: string)
    ensures report == Report(summaries)
  {
    report := Header;
    for i := 0 to |summaries|
      invariant report == Header + Sections(summaries[..i])
    {
      SectionsStep(summaries, i);
      if summaries[i] != "" {
        var section := Section(i, summaries[i]);
        AppendAssoc(Header, Sections(summaries[..i]), section);
        report := report + section;
      } else {
        assert Sections(summaries[..i]) + "" == Sections(summaries[..i]);
      }
    }
    assert summaries[..|summaries|] == summaries;
    ReportOfSections(summaries);
    assert |report| == |Header| + |Sections(summaries)|;
    if report == Header {
      report := NoSummary;
    }
  }

  /** `order` lists 0 .. n - 1 in some order. */
  predicate IsOrder(order: seq<nat>, n: nat) {
    |order| == n && (forall i :: 0 <= i < n ==> order[i] < n)
    && forall i, j :: 0 <= i < j < n ==> order[i] != order[j]
  }

  /** The scraped text of every link, in link order; raises when some page
      raises. */
  function PageTexts(links: seq<string>, pageOf: string -> Page): (r: Outcome<seq<string>>)
    ensures r.Raised? <==> exists i :: 0 <= i < |links| && ScrapePage(pageOf(links[i])).Raised?
    ensures r.Value? ==> (|r.value| == |links|
      && forall i :: 0 <= i < |links| ==> r.value[i] == ScrapePage(pageOf(links[i])).value)
  {
    if exists i :: 0 <= i < |links| && ScrapePage(pageOf(links[i])).Raised? then Raised
    else Value(seq(|links|, i requires 0 <= i < |links| => ScrapePage(pageOf(links[i])).value))
  }

  /** One summary per link, in completion order: position `i` holds the
      summary of link `order[i]`. */
  function Summaries(texts: seq<string>, summaryOf: string -> SummaryReply, order: seq<nat>): (r: seq<string>)
    requires IsOrder(order, |texts|)
    ensures |r| == |texts|
    ensures forall i :: 0 <= i < |texts| ==> r[i] == Summarize(texts[order[i]], summaryOf(texts[order[i]]))
  {
    seq(|texts|, i requires 0 <= i < |texts| => Summarize(texts[order[i]], summaryOf(texts[order[i]])))
  }

  /** scrape_for_info: `completion` is the order in which the parallel
      scrape-and-summarise work finished, as link positions. */
  method ScrapeForInfo(search: SearchPage, pageOf: string -> Page, summaryOf: string -> SummaryReply,
                       completion: seq<nat>) returns (r: Outcome<string>)
    requires TopSearchLinks(search, DefaultLinks).Value? ==>
      IsOrder(completion, |TopSearchLinks(search, DefaultLinks).value|)
    ensures TopSearchLinks(search, DefaultLinks) == Value([]) ==> r == Value(NoSites)
    ensures TopSearchLinks(search, DefaultLinks).Raised? ==> r.Raised?
    ensures (var links := TopSearchLinks(search, DefaultLinks);
      links.Value? && links.value != [] ==>
        (r.Raised? <==> PageTexts(links.value, pageOf).Raised?)
        && (r.Value? ==> r.value == Report(Summaries(PageTexts(links.value, pageOf).value, summaryOf, completion))))
  {
    var links := TopSearchLinks(search, DefaultLinks);
    if links.Raised? {
      return Raised;
    }
    if links.value == [] {
      return Value(NoSites);
    }
    var texts := PageTexts(links.value, pageOf);
    if texts.Raised? {
      return Raised;
    }
    var report := Consolidate(Summaries(texts.value, summaryOf, completion));
    r := Value(report);
  }
}
