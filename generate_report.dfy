/** The report generation pass: every fusion reported by the tool parser is
    classified against the reference identities; a known fusion gets a
    detail page of its own, an unknown one is only counted, and the index
    page with the totals comes last. Progress is reported after every
    fusion. */
module ReportGeneration {
  import opened FusionIdentity
  import opened Classification

  /** The width of the progress bar every progress call passes on. */
  const ProgressBarLength: nat := 50

  /** The arguments of one call of the progress bar. */
  datatype ProgressCall = ProgressCall(iteration: int, total: int, length: int)

  /** What a page carries besides its title and template. A fusion page
      binds its annotation queries to `lookupKey`, the pieces of its split
      identity; the index page carries the totals and the known fusions the
      summary table marks. */
  datatype PageVariables =
    | FusionVariables(sample: string, lookupKey: seq<string>)
    | IndexVariables(sample: string, fusionsSum: nat, knownFusionSum: nat,
                     unknownSum: nat, knownFusions: seq<string>)

  datatype Page = Page(title: string, template: string, variables: PageVariables)

  /** The detail page of one fusion, titled by its identity. */
  function GenerateFusionPage(sample: string, fusion: string): (p: Page)
    ensures p.title == fusion && p.template == "fusion"
    ensures p.variables.FusionVariables? && |p.variables.lookupKey| >= 1
    ensures JoinAll(p.variables.lookupKey) == fusion
  {
    Page(fusion, "fusion", FusionVariables(sample, Split(fusion)))
  }

  /** The index page; the known-versus-unknown chart also receives the
      two sums. */
  function GenerateIndex(sample: string, known: seq<string>, unknown: seq<string>): (p: Page)
    ensures p.title == "index" && p.variables.IndexVariables?
    ensures p.variables.knownFusionSum == |known| && p.variables.unknownSum == |unknown|
    ensures p.variables.fusionsSum == p.variables.knownFusionSum + p.variables.unknownSum
  {
    var knownSum := |known|;
    var unknownSum := |unknown|;
    Page("index", "index", IndexVariables(sample, unknownSum + knownSum, knownSum, unknownSum, known))
  }

  /** The detail pages added for the given known fusions, one by one. */
  function FusionPages(sample: string, known: seq<string>): (pages: seq<Page>)
    ensures |pages| == |known|
    ensures forall k :: 0 <= k < |known| ==> pages[k] == GenerateFusionPage(sample, known[k])
  {
    if known == [] then []
    else FusionPages(sample, known[..|known| - 1]) + [GenerateFusionPage(sample, known[|known| - 1])]
  }

  /** The progress calls made after `done` fusions of `total`: the first
      call and then one per fusion. */
  function ProgressTrace(done: nat, total: nat): (t: seq<ProgressCall>)
    ensures |t| == done + 1
    ensures forall k :: 0 <= k <= done ==> t[k] == ProgressCall(k, total, ProgressBarLength)
  {
    if done == 0 then [ProgressCall(0, total, ProgressBarLength)]
    else ProgressTrace(done - 1, total) + [ProgressCall(done, total, ProgressBarLength)]
  }

  /** The terminal the progress bar is drawn on; only the arguments of each
      call are kept. */
  class Console {
    var progressCalls: seq<ProgressCall>

    constructor ()
      ensures progressCalls == []
    {
      progressCalls := [];
    }

    method PrintProgressBar(iteration: int, total: int, length: int)
      modifies this
      ensures progressCalls == old(progressCalls) + [ProgressCall(iteration, total, length)]
    {
      progressCalls := progressCalls + [ProgressCall(iteration, total, length)];
    }
  }

  /** The report under construction: the pages added to it, in order. */
  class Report {
    const config: string
    const output: string
    var pages: seq<Page>

    constructor (config: string, output: string)
      ensures this.config == config && this.output == output && pages == []
    {
      this.config := config;
      this.output := output;
      pages := [];
    }

    method AddPage(page: Page)
      modifies this
      ensures pages == old(pages) + [page]
    {
      pages := pages + [page];
    }
  }

  /** Walks the fusions once, appending each to the known or the unknown
      list, adding a detail page for each known one and reporting progress
      after each; then adds the index page. */
  method GenerateReport(sample: string, config: string, output: string,
                        fusions: seq<string>, dbFusions: seq<string>, console: Console)
    returns (report: Report, known: seq<string>, unknown: seq<string>)
    modifies console
    ensures fresh(report) && report.config == config && report.output == output
    ensures Lists(known, unknown) == Classify(fusions, dbFusions)
    ensures report.pages == FusionPages(sample, known) + [GenerateIndex(sample, known, unknown)]
    ensures console.progressCalls == old(console.progressCalls) + ProgressTrace(|fusions|, |fusions|)
  {
    known := [];
    unknown := [];
    report := new Report(config, output);
    ghost var calls0 := console.progressCalls;

    console.PrintProgressBar(0, |fusions|, ProgressBarLength);
    var i := 0;
    while i < |fusions|
      invariant 0 <= i <= |fusions|
      invariant Lists(known, unknown) == Classify(fusions[..i], dbFusions)
      invariant report.pages == FusionPages(sample, known)
      invariant report.config == config && report.output == output
      invariant console.progressCalls == calls0 + ProgressTrace(i, |fusions|)
    {
      var fusion := fusions[i];
      ClassifyStep(fusions, i, dbFusions);
      assert ProgressTrace(i + 1, |fusions|)
          == ProgressTrace(i, |fusions|) + [ProgressCall(i + 1, |fusions|, ProgressBarLength)];
      if fusion !in dbFusions {
        unknown := unknown + [fusion];
      } else {
        FusionPagesSnoc(sample, known, fusion);
        known := known + [fusion];
        var fusionPage := GenerateFusionPage(sample, fusion);
        report.AddPage(fusionPage);
      }
      console.PrintProgressBar(i + 1, |fusions|, ProgressBarLength);
      i := i + 1;
    }
    assert fusions[..i] == fusions;

    var indexPage := GenerateIndex(sample, known, unknown);
    report.AddPage(indexPage);
  }

  /** One more known fusion adds its detail page at the end. */
  lemma FusionPagesSnoc(sample: string, known: seq<string>, fusion: string)
    ensures FusionPages(sample, known + [fusion])
         == FusionPages(sample, known) + [GenerateFusionPage(sample, fusion)]
  {
    assert (known + [fusion])[..|known|] == known;
  }

  /** The totals on the index page follow from the classification: the
      two sums add up to the number of fusions walked, the known sum is the
      number of known fusions, and the table is given the known list. */
  lemma IndexTotals(sample: string, fusions: seq<string>, dbFusions: seq<string>)
    ensures var c := Classify(fusions, dbFusions);
            var v := GenerateIndex(sample, c.known, c.unknown).variables;
            && v.IndexVariables?
            && v.fusionsSum == v.knownFusionSum + v.unknownSum == |fusions|
            && v.knownFusionSum == |c.known| && v.knownFusions == c.known
  {
  }

  /** The pages the pass adds: one detail page per known fusion, in the
      order of the known list and titled by it, none for an unknown fusion,
      and the index page last. */
  lemma ReportPages(sample: string, fusions: seq<string>, dbFusions: seq<string>)
    ensures var c := Classify(fusions, dbFusions);
            var pages := FusionPages(sample, c.known) + [GenerateIndex(sample, c.known, c.unknown)];
            && |pages| == |c.known| + 1
            && pages[|pages| - 1].title == "index" && pages[|pages| - 1].variables.IndexVariables?
            && (forall k :: 0 <= k < |c.known| ==>
                  pages[k].title == c.known[k] && pages[k].template == "fusion")
            && (forall k :: 0 <= k < |pages| - 1 ==>
                  pages[k].title in fusions && pages[k].title in dbFusions)
  {
    var c := Classify(fusions, dbFusions);
    ClassifyMembership(fusions, dbFusions);
    var pages := FusionPages(sample, c.known) + [GenerateIndex(sample, c.known, c.unknown)];
    forall k | 0 <= k < |pages| - 1
      ensures pages[k].title in fusions && pages[k].title in dbFusions
    {
      assert pages[k].title == c.known[k];
    }
  }

  /** The detail page of a reference identity binds its annotation queries
      to exactly the head and tail gene the identity was built from. */
  lemma FusionPageLookupKey(sample: string, h: string, t: string)
    requires ValidHead(h) && NoSeparator(t)
    ensures GenerateFusionPage(sample, Join(h, t)).variables.lookupKey == [h, t]
  {
    SplitJoin(h, t);
  }

  /** A known fusion, classified against identities built from reference
      rows whose symbols are valid, gets a detail page whose annotation
      queries are bound to a (head, tail) row of that reference table. */
  lemma KnownFusionLookupKey(sample: string, fusions: seq<string>, rows: seq<(string, string)>, fusion: string)
    requires forall k :: 0 <= k < |rows| ==> ValidHead(rows[k].0) && NoSeparator(rows[k].1)
    requires fusion in Classify(fusions, ReferenceIdentities(rows)).known
    ensures var key := GenerateFusionPage(sample, fusion).variables.lookupKey;
            |key| == 2 && (key[0], key[1]) in rows
  {
    var ids := ReferenceIdentities(rows);
    ClassifyMembership(fusions, ids);
    var k :| 0 <= k < |ids| && ids[k] == fusion;
    FusionPageLookupKey(sample, rows[k].0, rows[k].1);
  }
}
