# Known/unknown fusion classification of fusion-report

fusion-report gathers the gene fusions that several detection tools reported
for a sample and builds an HTML report. This project models the pass in
`generate_report` that builds the report's pages:

- The tool parser yields a list of fusion identities. Each identity is the
  head and tail gene symbols joined by `--`.
- The reference table yields a list of identities built the same way
  (`h_gene || "--" || t_gene`).
- The pass walks the fusion list once. It appends each fusion to the known
  list when it occurs in the reference list, and to the unknown list
  otherwise.
- Each known fusion gets a detail page. The page's annotation queries are
  bound to the fusion's identity split at `--`.
- An index page comes last. It carries the fusion total and the known total.
- The progress bar is called once before the loop and once after every
  fusion.

The project has three modules:

- `FusionIdentity` (`fusion_identity.dfy`) holds the `--` identity format:
  `Join`, and `Split`, which is Python's `str.split('--')`. It also builds
  the reference list from table rows.
- `Classification` (`classification.dfy`) holds `Classify`, the pair of
  lists the loop builds, with lemmas about them. `Classify` is a pure
  function.
- `ReportGeneration` (`generate_report.dfy`) holds the pages as values and
  the `Report` and `Console` classes. `Report` records the pages added to
  it, in order. `Console` records the arguments of every progress call.
  `GenerateReport` is the loop, written as a method. Its postcondition ties
  the two lists, the report's pages and the progress calls to functions of
  its inputs.

Inputs are plain values. The parser's fusion list and the reference list
are `seq<string>`. The sample name and the report's configuration and
output paths are strings.

The round trip of an identity needs more than "no `--` in either gene
symbol". The head symbol must also not end in `-`. `Join("A-", "B")` and
`Join("A", "-B")` are both `A---B`, and the split returns `["A", "-B"]`.
The format cannot tell these apart, so no split can fix it.
`TrailingDashAmbiguity` proves this, and `SplitJoin` carries the extra
condition.

The model classifies an ordered list and keeps its order and any
duplicates it holds. Membership is tested against a list loaded once from
the reference table. A failing reference query is not caught in
`generate_report`, and database failures are not modelled.

## Model

| member | source | states |
|---|---|---|
| `FusionIdentity.Join` | fusion_report/generate_report.py:244 | the identity holds the head, then `--`, then the tail, so it always contains a separator; `SplitJoin` and `JoinInjective` prove that it can be taken apart again |
| `FusionIdentity.ReferenceIdentities` | fusion_report/generate_report.py:243-247 | there is one reference identity per table row, in row order, and the identity of a row with valid symbols splits back into that row's head and tail; `KnownFusionLookupKey` carries this to the pages |
| `FusionIdentity.Split` | fusion_report/generate_report.py:125 | the split of an identity has at least one piece, joining the pieces with `--` gives back the identity, no piece contains `--`, and no piece before a cut ends in `-`, so every cut is at the leftmost `--` of what remains, as Python's `split` cuts |
| `FusionIdentity.SplitWithoutSeparator` | fusion_report/generate_report.py:125 | a string without `--` is split into the one-element list holding that string |
| `FusionIdentity.SplitJoin` | fusion_report/generate_report.py:243-247 | an identity built from a head and a tail (line 244) splits back into exactly `[head, tail]` (line 125), when neither symbol contains `--` and the head does not end in `-` |
| `FusionIdentity.JoinInjective` | fusion_report/generate_report.py:243-247 | two gene pairs with such symbols have the same identity only when they are the same pair |
| `FusionIdentity.TrailingDashAmbiguity` | fusion_report/generate_report.py:244 | the pairs (`A-`, `B`) and (`A`, `-B`) have the same identity, and its split is `["A", "-B"]` |
| `Classification.Classify` | fusion_report/generate_report.py:249-260 | the known and unknown lists together are as long as the fusion list |
| `Classification.ClassifyMembership` | fusion_report/generate_report.py:253-260 | an identity is in the known list exactly when it is a fusion in the reference list, and in the unknown list exactly when it is a fusion not in the reference list |
| `Classification.ClassifyMultiset` | fusion_report/generate_report.py:251-260 | the multiset union of the two lists is the multiset of the fusions, so every fusion lands in exactly one list, duplicates included |
| `Classification.ClassifyOccurrences` | fusion_report/generate_report.py:253 | a known identity goes to the known list as often as it occurs in the fusions, and never to the unknown list; the same holds the other way round for an unknown identity |
| `Classification.ClassifyPartition` | fusion_report/generate_report.py:251-260 | as sets, the two lists are disjoint and together hold exactly the fusions |
| `Classification.ClassifyAppend` | fusion_report/generate_report.py:251-260 | classifying two fusion lists one after the other gives each list of the first followed by the same list of the second, so input order is kept |
| `Classification.ClassifyInterleave` | fusion_report/generate_report.py:251-260 | merging the two lists along the per-position membership flags rebuilds the fusion list exactly |
| `Classification.ClassifyAllOrNone` | fusion_report/generate_report.py:253-260 | when every fusion is in the reference list the known list is the whole input and the unknown list is empty; when none is, the reverse holds |
| `ReportGeneration.GenerateFusionPage` | fusion_report/generate_report.py:118-125 | a fusion's page is titled by its identity and uses the fusion template; its lookup key is a non-empty list whose pieces join with `--` back into the identity |
| `ReportGeneration.FusionPageLookupKey` | fusion_report/generate_report.py:144-148 | the page of an identity built from a valid head and tail binds its queries to exactly `[head, tail]` |
| `ReportGeneration.FusionPages` | fusion_report/generate_report.py:260-262 | the detail pages are one per known fusion, in the order of the known list, and the k-th is the page of the k-th known fusion |
| `ReportGeneration.ProgressTrace` | fusion_report/generate_report.py:250-265 | after `done` fusions there have been `done + 1` progress calls, and call k passes iteration k, the fusion total and bar length 50 |
| `ReportGeneration.Console.PrintProgressBar` | fusion_report/generate_report.py:257 | a progress call adds its arguments to the end of the calls recorded so far |
| `ReportGeneration.Report.constructor` | fusion_report/generate_report.py:239 | a new report keeps its configuration and output paths and has no pages |
| `ReportGeneration.Report.AddPage` | fusion_report/generate_report.py:262 | adding a page puts it at the end of the report's pages and changes nothing else |
| `ReportGeneration.GenerateReport` | fusion_report/generate_report.py:235-268 | the returned lists are the classification of the fusions; the new report's pages are the detail pages of the known fusions in order, then the index page; the progress calls are exactly the trace for all fusions |
| `ReportGeneration.GenerateIndex` | fusion_report/generate_report.py:33-56 | the index page is titled `index`; its known total is the length of the known list, its unknown total the length of the unknown list, and its fusion total their sum; `IndexTotals` relates these to the fusions walked |
| `ReportGeneration.IndexTotals` | fusion_report/generate_report.py:45-52 | after the pass, the index page's fusion total is the known total plus the unknown total, which is the number of fusions; its known total is the length of the known list, and the fusion table receives the known list |
| `ReportGeneration.ReportPages` | fusion_report/generate_report.py:258-268 | the pass adds one page more than there are known fusions; the last page is the index page; page k is titled by the k-th known fusion; every detail page's title is a fusion in the reference list, so no unknown fusion gets a page |
| `ReportGeneration.KnownFusionLookupKey` | fusion_report/generate_report.py:243-262 | when the reference list is built from rows with valid symbols, the page of every known fusion binds its queries to a (head, tail) row of the reference table |

## Left out

- `main`, the `argparse` setup and `TOOL_DETECTION_CUTOFF`/`tool_num` are left out. They only read the command line, and the cutoff is only passed on to the fusion table, which is not part of this model.
- The database is left out: `Db`, `connect` and every SQL query. The reference list is an input, or is built from table rows by `ReferenceIdentities`.
- `ReferenceIdentities` keeps duplicate rows, so it does not model the `DISTINCT` of the reference query. Duplicates do not change membership, and membership is all the classification uses.
- The annotation queries of a fusion page are left out: variations, transcripts, protein interactions, drugs and diseases. The model keeps only the key they are bound to. Database failures are not modelled.
- The sections, graphs and charts of the pages are left out: `Section`, `Graph`, the chart helpers, `create_fusions_table`, `create_ppi_graph`, `parser.get_tools` and `parser.get_fusion`. They render HTML and images through code that is not part of this model. A page keeps only its title, its template and the values it receives from this pass.
- The tool parser is left out: `parse`, `ToolParser` and its per-tool parsing and aggregation. `parser.get_fusions()` is the input fusion list.
- `Report` is reduced to its list of added pages. Writing the pages to the output directory is not part of this model.
- `sleep(0.1)`, the bar that `print_progress_bar` draws, and the final `print` are left out. Only the arguments of each progress call are kept.
- `GenerateReport` makes the progress call once, after the known/unknown branch. The source makes the same call at the end of each branch, so the sequence of calls is the same.
