# A verified model of Memoree's project index and its protocols

Memoree keeps a disposable index of a working tree: files, overlapping text
chunks, symbols, references, and edges resolved from them by name. On top of it
sit a search whose hits carry citations, a bounded search of the call graph, and
a "map" whose facets say whether they are complete, shrunk to a byte budget.
This project models that code, and four protocols beside it, and proves what
each of them promises.

The tables are sets and maps of rows, a working tree is a map from paths to
bytes, and `parse_file` and BLAKE3 are parameters: a deterministic function, and
one without collisions: for the index on all texts, for the content store, where
digests are 64 hexadecimal digits, on the bytes that a run stores or finds.
`Assumptions` and `Cas.SoundIsMet` show that everything taken for granted can be
met. The SQLite statements of one call are one step; file-system steps and
database statements that can race are steps of their own.

The results, hardest first:

- **Incremental equals from scratch.** After any history of index runs and
  opens, by binaries of any version, over any trees, a run that succeeds leaves
  exactly the database of a clean rebuild, edges included; it fails exactly when
  the clean rebuild fails or the limit on changed bytes is exceeded; whatever
  is visible was produced under the opener's own constants, and what a run has
  left stays visible to its own binary.
- **Honest search.** The search for tests that reach a symbol through other
  functions says `truncated` exactly when one of its bounds cuts something off.
  When it says neither that nor `stale`, it has found exactly the tests that
  reach the symbol by a chain of calls of any length, with the shortest chains.
  Whatever it says, its leads are exactly the tests among the callers it looked
  at, which are whole levels of listed callers as far as 256 of them go.
- **Honest facets.** When callers are asked for, or tests of a symbol that is not
  one itself, the facet says `complete_in_projection` exactly when the query was
  not cut off and every such relation in the projection is returned, through
  pruning, ordering, two caps, deduplication and the dropping of stale rows. The
  facet of test leads says so only when every test that reaches the symbol is
  shown. What is shown is always the first eight rows, one a site, of what is
  asked for, as far as they are current.
- **An honest budget.** The budget drops one thing at a time, in one order, as
  long as the report does not fit; all that is said of facets and citations stays
  true, and no lead or edge is lost while text fallback or lexical residue is left.
- **Citations.** The citation of any hit, of any time, read back on any later
  tree, fails or yields a prefix of exactly that hit's excerpt, and it succeeds
  exactly when the file's bytes are the indexed ones.
- **Chunks.** Chunking always covers the text with overlaps of 125 to 128 bytes,
  its two fallbacks are dead code, and so a scan of the chunks finds every whole
  occurrence of an identifier of at most 126 bytes.
- **Protocols.** In every interleaving the content store never replaces an
  object and finished copies are complete; in every run of paired experiments no
  second arm stands alone, and reports favour the arm that took less; over every
  series of upgrade attempts cut off anywhere the restart flag is not lost and
  completion is earned.
- **Arithmetic.** The sign test's loop computes the share of all win sequences at
  least as lopsided; nDCG lies in [0, 1] and is 1 exactly for an ideal ranking.

One property is false of the code and stated as such:
`verified_reference_excerpt` slices inside a character for some references at
least as long as its limit. `ReferenceExcerpt.Reference` says for which, exactly,
and `SplitHappens` gives one for each of the two limits it is called with, 640
and 240. The branch `already_current` in `apply_upgrade`, the zero ideal in
`ndcg`, the two fallbacks in `chunk_spans`, and the budget's removal of leads
beyond the fifth (no map has more than five) are unreachable.

## Files

| file | about |
|---|---|
| `Utf8`, `Wrappers`, `Sequences`, `Sets` | text boundaries, options and results, order and size |
| `ChunkSpans`, `LexicalScan` | chunking, and scanning chunks for an identifier |
| `Base64Url`, `Citation`, `Excerpts`, `ReferenceExcerpt` | citations, `search`, `get`, excerpts |
| `Projection` | rows, and `rebuild_project_edges` |
| `IndexSelection`, `IndexRun`, `IndexDatabase`, `IndexHistory` | `index` and `open_database`, one run and every history |
| `CallGraph`, `TraversalTrace`, `TestTraversal`, `MapHistory` | callers, the bounded search and what it looks at, and the tables it runs on |
| `MapEdges`, `EdgeSites`, `EdgeChoice`, `Facets`, `MapBudget`, `MapReport` | edges of a map, edges that share a site, which of them are shown, facets, budget, and all of it together |
| `IgnorePatterns` | `.memoreeignore` |
| `SignTest`, `Experiments` | the sign test, paired experiments |
| `Ndcg` | ranking quality |
| `Cas` | the content-addressed store |
| `Upgrade` | the upgrade reconciler |
| `Assumptions` | a digest, a parser and orders of rows that meet what the others take for granted |

## Model

| member | source | states |
|---|---|---|
| Utf8.ValidIsBounded | src/project_index.rs:2949-2983 | in UTF-8 text no four continuation bytes stand in a row and none follows an ASCII byte, which is all that cutting relies on |
| Utf8.CutIsValid | src/project_index.rs:2334-2356 | cutting text at a character boundary leaves text on both sides |
| ChunkSpans.EndIsFar | src/project_index.rs:2956-2965 | a chunk ends on a boundary after it starts, within 2048 bytes, and past half of that unless the text ends |
| ChunkSpans.EndIsBest | src/project_index.rs:2956-2965 | a chunk takes all the rest if it fits, or else stops after the last newline of its second half, or else as far as whole characters go |
| ChunkSpans.SpansAreBest | src/project_index.rs:2949-2983 | and so does every chunk of a text |
| ChunkSpans.NextIsNear | src/project_index.rs:2973-2976 | the next chunk starts on the first boundary in the last 128 bytes of this one, which is 125 to 128 before its end |
| ChunkSpans.SpansTile | src/project_index.rs:2949-2983 | spans start at 0, end at the text's end, lie on boundaries, are 1 to 2048 bytes long, advance at both ends and overlap by 125 to 128 bytes |
| ChunkSpans.FindEnd | src/project_index.rs:2956-2968 | the loop walking back to a boundary finds that end |
| ChunkSpans.FindNext | src/project_index.rs:2973-2980 | the loop walking forward finds that start; both corrections after it are unreachable |
| ChunkSpans.Chunk | src/project_index.rs:2949-2983 | the loop, fallbacks included, produces exactly the spans that tile the text; the fallbacks never act |
| LexicalScan.MatchesFind | src/project_index.rs:1387 | leftmost matching reports every occurrence no earlier one overlaps |
| LexicalScan.MatchesCover | src/project_index.rs:1387 | any other is overlapped from the left by one that is reported |
| LexicalScan.MatchesAreApart | src/project_index.rs:1387 | and those do not overlap each other |
| LexicalScan.ExactIsAlone | src/project_index.rs:3578-3583 | an occurrence is exact when neither the character before it nor the one after it belongs to an identifier |
| LexicalScan.ExactInChunk | src/project_index.rs:3578-3583 | a chunk judges an occurrence as the file does, unless a chunk edge hides its neighbour |
| LexicalScan.NothingOverlapsExact | src/project_index.rs:3578-3583 | no occurrence of an identifier overlaps a whole occurrence from the left |
| LexicalScan.InSomeChunk | src/project_index.rs:2949-2983 | any 126 bytes lie wholly inside some chunk |
| LexicalScan.ScanRow | src/project_index.rs:1387-1416 | the inner loop records exactly the whole, uncovered occurrences of one chunk |
| LexicalScan.Scan | src/project_index.rs:1384-1417 | the scan of at most 512 chunks records each position once and says when it left chunks out |
| LexicalScan.ScanIsSound | src/project_index.rs:1384-1417 | it records only uncovered occurrences, inexact only at a chunk edge |
| LexicalScan.ScanIsComplete | src/project_index.rs:1384-1417 | for a name of at most 126 bytes it records every whole occurrence of every file whose chunks are all there |
| Base64Url.DecodeEncode | src/project_index.rs:2859-2862 | unpadded base64url (section 5 of RFC 4648) decodes what it encoded |
| Base64Url.EncodeDecode | src/project_index.rs:2877-2881 | and accepts nothing else |
| Citation.RoundTrip | src/project_index.rs:2859-2897 | parsing a printed citation gives it back exactly when its project has no `/` and its hash neither `@` nor `#` |
| Citation.ParsedIsPrintable | src/project_index.rs:2864-2897 | parsing yields only such citations |
| Citation.Reprint | src/project_index.rs:2859-2897 | a citation once parsed survives being printed and parsed again |
| Citation.PrintIsInjective | src/project_index.rs:2859-2862 | different citations print differently |
| Projection.InsertRows | src/project_index.rs:2808-2830 | inserting rows in any order, skipping those whose key is taken, gives the same table |
| Projection.ResolvedKeysDistinct | src/project_index.rs:2766-2820 | no two resolved edges compete for a key |
| Projection.RebuildEdges | src/project_index.rs:2750-2837 | the three statements build one well-defined table with distinct keys |
| Projection.CandidatesAre | src/project_index.rs:2766-2806 | a candidate has the name of the reference but for ASCII case, and lies in its file unless no namesake does |
| Projection.ContainsAre | src/project_index.rs:2754-2765 | `contains` edges lead from each symbol's parent to it |
| Projection.MirrorTurns | src/project_index.rs:2821-2835 | a `tested_by` edge leads from the symbol called to the test, at the place of the call |
| Projection.Resolution | src/project_index.rs:2766-2820 | a reference has an edge to each same-file namesake, or failing any to every namesake, `inferred` exactly when there is one |
| Projection.ResolutionIsAll | src/project_index.rs:2766-2820 | and there are no other resolved edges |
| Projection.TestedByMirrorsTestCalls | src/project_index.rs:2821-2835 | `tested_by` edges are in bijection with `calls` edges whose source is a test |
| Projection.RebuildByKind | src/project_index.rs:2750-2837 | each kind of edge comes from its own statement |
| IndexSelection.SelectFiles | src/project_index.rs:467-534 | the selection loop with its counters and budgets is the selection |
| IndexSelection.SelectionIsExact | src/project_index.rs:467-534 | it takes exactly the candidates that pass every rule, each once, and the counters account for all others |
| IndexSelection.CoverageIsExact | src/project_index.rs:482-528 | each counter counts the candidates skipped for its own reason, and with the files they are all candidates |
| IndexSelection.SelectionFails | src/project_index.rs:472-520 | a run is refused exactly for too many candidates, or when the text so far and the next file exceed the total |
| IndexRun.WhatIsStored | src/project_index.rs:593-679 | the row of a file and its symbols, column by column |
| IndexRun.ChunksAreStored | src/project_index.rs:623-640 | its chunks, with lines counted from 1 by the newlines before their start and end |
| IndexRun.ReferencesAreStored | src/project_index.rs:680-697 | and its references |
| IndexRun.NewlinesCount | src/project_index.rs:625-626 | newlines are counted |
| IndexRun.ProjectionIsUnique | src/project_index.rs:536-746 | a tree has one projection |
| IndexRun.ReplaceAllSucceeds | src/project_index.rs:641-697 | inserts go through exactly when no file repeats a symbol key or has a reference without source |
| IndexRun.UnchangedStaysPresent | src/project_index.rs:547-550 | rows of a file whose digest has not changed are still right |
| IndexRun.ApplyRepresents | src/project_index.rs:536-698 | whatever tree the tables were the projection of, a run makes them that of the new tree |
| IndexDatabase.ProjectDatabase.Open | src/project_index.rs:2616-2669 | the projection is kept exactly when the schema is equal and either no run has finished or policy and grammar are equal; else all of it is dropped; the constants are stamped |
| IndexDatabase.ProjectDatabase.InsertChunks | src/project_index.rs:623-640 | the loop inserts the chunk rows of the file |
| IndexDatabase.ProjectDatabase.InsertSymbols | src/project_index.rs:641-679 | the loop inserts the symbols, and fails exactly when two share a key |
| IndexDatabase.ProjectDatabase.InsertReferences | src/project_index.rs:680-697 | the loop inserts the references, and fails exactly when one has no source |
| IndexDatabase.ProjectDatabase.ReplaceFile | src/project_index.rs:587-697 | the statements of one changed file replace exactly its rows |
| IndexDatabase.ProjectDatabase.DeleteGone | src/project_index.rs:577-586 | files that are gone lose all their rows, others none |
| IndexDatabase.ProjectDatabase.ReplaceChanged | src/project_index.rs:587-698 | the loop over changed files stops at the first failing insert |
| IndexDatabase.ProjectDatabase.Transact | src/project_index.rs:576-746 | the transaction happens completely or not at all |
| IndexDatabase.ProjectDatabase.Index | src/project_index.rs:449-746 | `index`, statement by statement, has the result the history theorems are about |
| IndexHistory.TablesAreProjections | src/project_index.rs:449-746 | after every history the tables are the projection of the last tree indexed, under the stamped constants |
| IndexHistory.IncrementalEqualsClean | src/project_index.rs:449-746 | an incremental run leaves the database of a clean rebuild, and is refused exactly when that is or the changed-byte limit is exceeded |
| IndexHistory.RefusedRunKeepsProjection | src/project_index.rs:551-560 | a run refused by a budget leaves rows, edges and snapshot exactly as they were |
| IndexHistory.VisibleRowsAreTheOpeners | src/project_index.rs:2616-2669 | every row an opener can see was produced under its own constants |
| IndexHistory.RunIndexesTree | src/project_index.rs:449-746 | a run that succeeds has indexed exactly the eligible candidates with their present digests, and stamped the snapshot |
| IndexHistory.IndexedIsOwn | src/project_index.rs:2633-2669 | what it leaves is what its own binary opens, and what a refused run of that binary leaves |
| IndexHistory.IndexedStaysVisible | src/project_index.rs:2633-2669 | after any number of opens and runs by the same binary the projection is there |
| Excerpts.IndexedIsSearchable | src/project_index.rs:920-955 | a search by the indexing binary is never refused as not ready, nor does a hit lack its file |
| Excerpts.Search | src/project_index.rs:887-985 | each refusal has its reason and else it succeeds, for a query of at most 8 KiB and 1 to 32 words, a limit of at most 50 and a ready index; hits are the first matching rows, each with the citation of its chunk; the truncation flag is exact |
| Excerpts.FindEnd | src/project_index.rs:2334-2338 | the loop finds the last boundary within the limit |
| Excerpts.Get | src/project_index.rs:2284-2356 | `get` with its checks in their order |
| Excerpts.GetIsExact | src/project_index.rs:2284-2356 | when `get` succeeds, and that it returns as many of the cited bytes as fit, under a citation of their own |
| Excerpts.HitShows | src/project_index.rs:946-970 | a hit shows its chunk, under the digest of its file |
| Excerpts.GetOfHit | src/project_index.rs:2284-2356 | `get` on a hit's citation succeeds exactly when the file holds the indexed bytes, and returns a prefix of the excerpt, all of it if it fits |
| Excerpts.IndexedIsReadable | src/project_index.rs:516-528 | whatever was indexed is UTF-8 text under a UTF-8 path |
| Excerpts.CitationsAreHonest | src/project_index.rs:946-970 | so for every history, hit, later tree and limit |
| Excerpts.GetAgain | src/project_index.rs:2339-2355 | the citation `get` returns stands for exactly the bytes it returned |
| ReferenceExcerpt.ExpandLines | src/project_index.rs:2197-2223 | the loop adds whole lines until neither neighbour fits |
| ReferenceExcerpt.WindowIsCentred | src/project_index.rs:2233-2237 | a window on too long lines has as much before the reference as after it, or ends with the lines |
| ReferenceExcerpt.Around | src/project_index.rs:2233-2244 | it contains the reference and is that window cut to whole characters |
| ReferenceExcerpt.Inside | src/project_index.rs:2230-2258 | a window on a too long reference ends after the last break of its second half, cleanly under the stated condition and not otherwise |
| ReferenceExcerpt.Reference | src/project_index.rs:2165-2282 | whole lines if they fit, else a window of all but six bytes of the limit, centred on the reference; fails exactly when the cut in a too long reference falls inside a character |
| ReferenceExcerpt.SplitHappens | src/project_index.rs:2245-2258 | such a reference, for each limit the excerpt is asked for with |
| CallGraph.CallersInClass | src/project_index.rs:1760-1816 | the fitting callers among the first rows are listed, up to the cap; all callers are exactly when all call sites fit and the cap allows it |
| CallGraph.IncomingCallers | src/project_index.rs:1703-1829 | only inferred, fitting calls are listed; the flag is down exactly when nothing is ambiguous, unfit or over a cap, and then every caller is listed; the two flags agree |
| CallGraph.StandsFor | src/project_index.rs:1735-1743 | the row for a call is its first edge |
| CallGraph.CallHasRow | src/project_index.rs:1723-1743 | without ambiguity the query has a row for every caller, whichever edge stands for it |
| CallGraph.RebuiltEdgesFit | src/project_index.rs:2766-2820 | rebuilt `calls` edges are inferred or ambiguous, and a source has one path |
| TraversalTrace.TraceMore | src/project_index.rs:1625-1671 | each caller looked at is listed for a symbol reached before; a test makes a lead by its first look with an unchanged chain |
| TraversalTrace.WalkedIsWhole | src/project_index.rs:1603-1680 | a search that has expanded all it visited up to a distance has looked at every listed caller up to it |
| TraversalTrace.TrailIsFar | src/project_index.rs:1603-1687 | unless it stops at 256 callers, it is whole up to distance two |
| TestTraversal.Via | src/project_index.rs:1634-1647 | the chain shown is the chain walked, reversed, every file of it verified again |
| TestTraversal.MeetTest | src/project_index.rs:1632-1657 | a test becomes a lead with a real chain, unless it is one already or a file changed |
| TestTraversal.Meet | src/project_index.rs:1632-1670 | any other caller is visited once, at the distance of its shortest chain |
| TestTraversal.MeetAll | src/project_index.rs:1625-1671 | the loop over callers stops exactly at the node limit |
| TestTraversal.ExpandAll | src/project_index.rs:1618-1675 | a level expands every symbol at its distance, or says what cut it off |
| TestTraversal.ClosedCovers | src/project_index.rs:1679-1687 | once a level is empty, longer chains pass through nothing new |
| TestTraversal.LeadReaches | src/project_index.rs:1648-1653 | a lead's own chain is one of the chains it is counted for |
| TestTraversal.ClosedIsUnbounded | src/project_index.rs:1679-1687 | a search that ran dry met none of its bounds |
| TestTraversal.CutIsBounded | src/project_index.rs:1621-1631 | a level that was cut off met one of them |
| TestTraversal.TransitiveTestLeads | src/project_index.rs:1584-1701 | every lead carries a real inferred chain of two or three calls; the leads are exactly the tests among the callers looked at, which are whole levels as far as 256 go; as far as no bound is met and no file changed none is missed; with no flag up the leads are exactly the tests reaching the target by any chain of two or more, with the shortest; `truncated` exactly when a bound cuts something off |
| MapHistory.ProjectionIsKeyed | src/project_index.rs:2691-2703 | in every projection symbol keys are unique |
| MapHistory.RebuiltKeysDistinct | src/project_index.rs:2750-2837 | in every rebuilt table edge keys are unique |
| MapHistory.ReferencesAreRegular | src/project_index.rs:680-697 | in every projection a source has one path, and the site of a call is that of no other reference |
| MapHistory.ViewsAreConsistent | src/project_index.rs:449-746 | after every history, what the search and the facets require of the tables holds |
| MapEdges.RelationsAre | src/project_index.rs:1930-1955 | what the query for a symbol returns: its edges, seen from it, with the symbol at the other end |
| MapEdges.ModeIs | src/project_index.rs:3336-3420 | what the words of a query ask for |
| MapEdges.RankOfOne | src/project_index.rs:3585-3626 | which edges each intent asks for, and in what order |
| MapEdges.RankOfMany | src/project_index.rs:3585-3626 | of several intents the first that asks for an edge ranks it |
| MapEdges.AsksFor | src/project_index.rs:3585-3626 | and an edge is asked for exactly if one of them does |
| MapEdges.ModeAsksForCallers | src/project_index.rs:3336-3420 | which queries ask for callers or for calls |
| MapEdges.ModeAsksForTests | src/project_index.rs:3336-3420 | which queries ask for tests |
| EdgeSites.RebuiltEdgesDecide | src/project_index.rs:2766-2820 | edges from one file to one target agree on confidence, calls and imports of one site on their source |
| EdgeSites.RebuiltSitesAreAlone | src/project_index.rs:2766-2820 | at the site of a call all edges made from references are calls of one source, and an inferred call is alone there |
| EdgeSites.CallerComesFirst | src/project_index.rs:2044-2061 | when callers are asked for, any other edge at a caller's site is ordered after it |
| EdgeSites.TestedByComesFirst | src/project_index.rs:2044-2061 | when tests are asked for, any other edge at the site of a `tested_by` edge of a symbol that is not a test is ordered after it |
| EdgeSites.LeadsHaveOwnSites | src/project_index.rs:2026-2061 | and no edge asked for shares the site of a test lead |
| EdgeSites.LeadRowShows | src/project_index.rs:1648-1653 | a test lead is shown as an edge to the test, at the call the test makes |
| EdgeSites.PartnerIsRelation | src/project_index.rs:2821-2835 | every incoming call from a test has a `tested_by` edge at its site |
| Facets.Prune | src/project_index.rs:2002-2025 | pruning keeps exactly the rows whose call site fits, and marks every other |
| EdgeChoice.QueryIsFirst | src/project_index.rs:1923-1990 | the query returns all relations of the symbol, or 513 of them and none after one it leaves out |
| EdgeChoice.RowsAreRanked | src/project_index.rs:2044-2068 | the rows are all that is asked for and fits, in order, or 512 of it and none after one left out |
| EdgeChoice.Deduplicate | src/project_index.rs:2069-2077 | deduplication keeps the first row of each site |
| EdgeChoice.TakenAreFirst | src/project_index.rs:2069-2099 | eight rows are taken if there are as many sites, each the first of its site, none after a site left out |
| Facets.DropStaysHonest | src/project_index.rs:3434-3451 | dropping rows and marking them keeps a flag honest as long as it is marked for members only |
| Facets.SortedComeFirst | src/project_index.rs:2044-2061 | after the stable sort no row that a facet is about has an earlier row at its site |
| Facets.CapSparesRelations | src/project_index.rs:2062-2068 | the cap of 512 takes test leads only, unless the query was cut off already |
| Facets.CapIsHonest | src/project_index.rs:2062-2068 | cutting the list and marking the rest keeps every flag honest |
| Facets.DeduplicationIsHonest | src/project_index.rs:2069-2077 | deduplication never drops what a facet is about |
| Facets.TestRowsClash | src/project_index.rs:2044-2077 | a test's own facet of tests is different: asked for with callees, each of its calls displaces the `tested_by` row that mirrors it |
| Facets.VerificationKeepsOutcome | src/project_index.rs:2099-2125 | dropping stale rows keeps every flag honest |
| Facets.Gather | src/project_index.rs:1923-2043 | the rows after the query, pruning and test leads, with honest flags, the leads those of the search |
| Facets.StepsMark | src/project_index.rs:2002-2112 | after all steps a flag is up exactly if no row it is about was left out |
| Facets.SymbolEdges | src/project_index.rs:1916-2163 | every edge returned is a relation in the projection or a real test lead; they are the current ones of the first eight rows asked for; the flags of callers, direct tests and test leads tell exactly whether all are returned, all four whether a row was left out; `edges_truncated` and `stale` are up exactly when something was cut off or lost |
| Facets.FacetsAsRequested | src/project_index.rs:3466-3522 | a facet follows its flag, or says it was not requested |
| Facets.FacetsAreHonest | src/project_index.rs:3466-3522 | each facet counts what is returned, and says `complete_in_projection` exactly when that is all there is and nothing was cut off |
| MapBudget.DropEdgeShrinks | src/project_index.rs:3665-3680 | dropping an edge lowers the facets it touches, recounts, and sets the flag |
| MapBudget.ShortenedCites | src/project_index.rs:3710-3736 | a shortened excerpt is still named exactly by its citation |
| MapBudget.ShortenHalves | src/project_index.rs:3710-3736 | it is halved, down to 128 bytes, but for a character cut in two |
| MapBudget.ShortenShrinks | src/project_index.rs:3710-3736 | shortening keeps whole characters and everything else about the lead |
| MapBudget.LeadShrunkTwice | src/project_index.rs:3635-3699 | shrinking composes, in any order of steps |
| MapBudget.ProjectMapReport.DropOneEdge | src/project_index.rs:3665-3678 | the last lead with edges loses its last one, and nothing else changes |
| MapBudget.ProjectMapReport.DropEdges | src/project_index.rs:3665-3682 | until the report fits or no edge is left |
| MapBudget.ProjectMapReport.ShrinkExcerpt | src/project_index.rs:3710-3736 | the last long excerpt is shortened, with its citation, and nothing else changes |
| MapBudget.ProjectMapReport.EnforceBudget | src/project_index.rs:3635-3699 | it terminates; the report is within the limit in bytes, or is over it and bare; one within it is not touched; one thing is dropped at a time, in the order of the source, only from a report that does not fit; what is left is as it was or shortened as flags, facets and citations say; with at most five leads, none and no edge is lost before the text is gone |
| MapReport.VerifiedSymbolExcerpt | src/project_index.rs:1543-1582 | the loop finds the excerpt and citation of a symbol, or none if its file changed |
| MapReport.EvidenceCites | src/project_index.rs:1543-1582 | the citation names exactly the excerpt in the file |
| MapReport.EvidenceIsLongest | src/project_index.rs:1565-1581 | the excerpt is as much of the symbol as fits, and the flag says whether that is all |
| MapReport.LimitIs | src/project_index.rs:1187-1197 | two leads with 256 bytes each when relations are asked for, else five with 768 |
| MapReport.BuildLead | src/project_index.rs:1235-1257 | a lead is built with facets that tell exactly whether they are complete, its edges chosen as above |
| MapReport.BuildAnchor | src/project_index.rs:1228-1257 | and with the longest excerpt of its symbol |
| MapReport.AnchorsAreFirst | src/project_index.rs:1185-1227 | the first candidates lead that have the name asked for, if any has, and are still as indexed |
| MapReport.GatherLeads | src/project_index.rs:1186-1260 | the loop builds exactly those, names the first three passed over, and tells whether anything was lost |
| MapReport.ShrunkLeadIsHonest | src/project_index.rs:3635-3699 | an honest lead stays honest however it is shrunk |
| MapReport.Report | src/project_index.rs:1186-1350 | from ranked candidates to the shrunk report: how every lead was built, facets in both directions; the budget as above; surviving leads have honest facets and exact citations; no lead or edge is lost while text is left |
| IgnorePatterns.GreedyStep | src/project_index.rs:3980-3988 | taking the leftmost place for a part never costs a later part its place |
| IgnorePatterns.MatchParts | src/project_index.rs:3976-3988 | the greedy search succeeds exactly when the parts can be placed in order without overlap |
| IgnorePatterns.TrimEnd | src/project_index.rs:3971 | trailing slashes of a pattern are ignored |
| IgnorePatterns.EmptyPartsDoNotMatter | src/project_index.rs:3976-3979 | leaving out empty parts changes nothing |
| IgnorePatterns.SuffixPattern | src/project_index.rs:3972-3975 | `*.ext` excludes the paths that end in `.ext` |
| IgnorePatterns.Ignored | src/project_index.rs:3970-3995 | a path is ignored exactly when some pattern excludes it |
| IgnorePatterns.SplitThenJoin | src/project_index.rs:3976-3979 | splitting a pattern at its stars loses nothing |
| IgnorePatterns.SplitSeparates | src/project_index.rs:3976-3979 | and leaves no star behind |
| SignTest.WithWinsSize | src/metrics.rs:1924-1929 | the binomial coefficients count the sequences with so many wins |
| SignTest.ProductStep | src/metrics.rs:1927 | the loop's product steps from one coefficient to the next |
| SignTest.TailSum | src/metrics.rs:1924-1929 | the loop computes the sum of the coefficients up to the shorter side |
| SignTest.AsLopsidedSize | src/metrics.rs:1930 | twice that sum counts the sequences at least as lopsided, unless the tails meet |
| SignTest.Compute | src/metrics.rs:1918-1931 | the p-value is the share of all sequences at least as lopsided; none without a decided pair |
| SignTest.PValueIsSymmetric | src/metrics.rs:1918-1931 | it does not depend on which arm is first |
| SignTest.PValueIsOneWhenBalanced | src/metrics.rs:1930 | it lies in (0, 1] and is 1 exactly when the win counts differ by at most one |
| Ndcg.LeadingWeighsMost | src/eval.rs:2756-2768 | a gain level weighs most, and only then, when the ranks that reach it come first |
| Ndcg.Bounds | src/eval.rs:2741-2770 | a list without repeats scores in [0, 1] under any positive, strictly decreasing discount, 1 exactly when ideal rank by rank; the zero ideal cannot occur |
| Ndcg.RankedLabels | src/eval.rs:2173-2191 | ranked labels have no repeats and are the labels of the known ids |
| Ndcg.RankLabels | src/eval.rs:2173-2191 | the loop computes them, and reports the unknown ids |
| Ndcg.RankedBounds | src/eval.rs:2173-2191 | so scores of rankings are within bounds |
| Cas.GetIsHonest | src/cas.rs:133-147 | bytes are returned exactly if they are the ones named by digest and size |
| Cas.StepKeepsInv | src/cas.rs:77-130 | what every step of every process keeps |
| Cas.NeverReplaced | src/cas.rs:77-130 | in every interleaving no object is replaced, and every object added lies under its digest |
| Cas.PutStaysReadable | src/cas.rs:133-140 | a successful put reads back the same bytes in every later state |
| Cas.CopyIsComplete | src/cas.rs:219-280 | a finished copy has left every object its source held at the start in its target, read nothing else but objects of its source, and counted those it published |
| Cas.CopyTakesAll | src/cas.rs:219-280 | so it holds every object its source held when all began |
| Cas.PutAlone | src/cas.rs:77-130 | an undisturbed put succeeds exactly when the bytes are small or no other bytes lie under their digest |
| Cas.CopyAlone | src/cas.rs:219-280 | an undisturbed copy of intact objects finishes |
| Cas.SoundIsMet | src/cas.rs:77-90 | there are digests of 64 hexadecimal digits that meet what is assumed of them |
| Experiments.StepKeepsInv | src/metrics.rs:845-1060 | what every statement of every operation keeps, also when the size limit fails on opening or after an insert |
| Experiments.SecondArmNeverAlone | src/metrics.rs:904-984 | in every run no pair has its second arm without its randomized first |
| Experiments.ArmsAreImmutable | src/metrics.rs:904-984 | an arm is written by one operation and never changes, even if that then reported the size limit |
| Experiments.ExperimentsAndPairsStay | src/metrics.rs:845-902 | so do experiments and pairs |
| Experiments.RecordAlone | src/metrics.rs:904-984 | an undisturbed recording stores its input exactly when that is acceptable, metrics are enabled and the database is within its cap, and else changes nothing; only the cap after the insert can fail it then |
| Experiments.RefusalsTell | src/metrics.rs:904-958 | why a recording is refused |
| Experiments.BeginAlone | src/metrics.rs:845-864 | an undisturbed `begin_experiment` stores exactly its experiment, or fails and changes nothing |
| Experiments.PairAlone | src/metrics.rs:866-902 | and `create_pair` its pair, unless the experiment is unknown |
| Experiments.ReportIsExact | src/metrics.rs:986-1060 | each metric favours the arm that took less of it, ties and first arms are counted, complete and excluded add up |
| Experiments.ReportAlone | src/metrics.rs:986-1060 | an undisturbed report is about all complete pairs of its experiment and no others |
| Experiments.ReportsAddUp | src/metrics.rs:986-1060 | also when other statements run between a report's two reads |
| Experiments.SummaryPValue | src/metrics.rs:1882-1916 | a metric's p-value is that of the pairs it favours each arm in, absent only if there are none |
| Upgrade.Reconciler.Start | src/main.rs:2699-2863 | an attempt up to the lock on the data directory writes these records |
| Upgrade.Reconciler.OpenStore | src/main.rs:2865-2984 | it goes on exactly when the store is absent or verified |
| Upgrade.Reconciler.RestartDaemon | src/main.rs:2985-3051 | it closes the record exactly when a daemon that was running is healthy again |
| Upgrade.Reconciler.Apply | src/main.rs:2683-3051 | one attempt writes exactly its trace, and succeeds exactly under the stated condition |
| Upgrade.OnlyOwnDaemonsStop | src/main.rs:2761-2772 | only the program's own daemon is stopped, or one of version 0.2 that says nothing about itself |
| Upgrade.AttemptLeaves | src/main.rs:2683-3051 | the record an attempt leaves, case by case |
| Upgrade.CompletionsAreEarned | src/main.rs:2985-3051 | over any attempts cut off anywhere, completion is recorded only with a safe store and, with the flag set, after a health check |
| Upgrade.FlagIsNotLost | src/main.rs:2699-2729 | and a recorded `prior_daemon_running` survives until completion is recorded |
| Assumptions.EnvironmentExists | src/project_index.rs:536-746 | some digest and parser meet all that is assumed of them together |
| Assumptions.OrderedViewExists | src/project_index.rs:1916-2163 | every database a history leads to can be viewed in the orders the maps assume |

## Left out

- SQLite, FTS5 ranking and tokenising, row ids and parse times: tables are sets and maps of rows (references a set, not a bag), matches an arbitrary list, the order of a query whatever its `ORDER BY` guarantees.
- The `project_symbols_fts` mirror table, coverage metadata, and the counts and times in `ProjectIndexReport`.
- `parse_file`: a deterministic function of constants, path and text. Its timeouts, which could make it give different answers, are not modelled. That a key belongs to one file, that references are calls, imports or inheritance, that calls and imports of one site have one source, and that no other reference has the site of a call is taken from `src/project_structure.rs`.
- BLAKE3: a function without collisions; symbol keys, which are its truncated digests, are likewise assumed not to collide between files.
- Git, the watcher, settings, permissions, locks, and I/O errors other than those named; concurrent opens by binaries of different versions; a crash inside the table-dropping batch.
- A file is read once per run: its length from the metadata is the length of its bytes, and counters do not saturate.
- The ranking of candidates in `map`, the grouping of mentions, and the text of citations of edges: `MapReport.Report` starts from ranked candidates, and takes lexical residue and text fallback as given.
- Facets.SymbolEdges: completeness is claimed for direct callers, direct tests of a symbol that is not a test, and test leads. Site deduplication merges other rows: a self-recursive symbol's callee row into its caller row, a test's `tested_by` rows into its own calls (`TestRowsClash`), and in `mixed` mode tests into callers.
- Facets.FacetsAreHonest: that the facet of test leads is incomplete when files changed during the search is not claimed to be necessary.
- Excerpts.Search: the automatic reindexing before a search is an `Index` event of the history; a query is given by its length, whether it is blank, and its distinct words.
- TestTraversal.TransitiveTestLeads: returns the leads by test; the order of the final list is left out, and the orders rows and states are taken in are arbitrary. That the query prefers callers which tests call themselves is therefore not used.
- LexicalScan.ScanIsSound: a chunk edge can hide a neighbouring character, so an inexact occurrence may be recorded there, as the code does.
- ReferenceExcerpt.Reference: reading the file and its digest are those of `get`; the excerpt starts from text whose digest matched.
- MapBudget.ProjectMapReport.EnforceBudget: the serialized length is an arbitrary function of the report, so dropping need not even shorten it, and another order might drop less.
- Cas.CopyIsComplete: the copier's walk of a root is taken to meet every entry that was there when it began; entries added later may or may not be met.
- Experiments.RecordAlone: eviction of other metrics by `enforce_limits`, schema upgrades and the clearing of the metrics database are left out; only whether the size limit then fails is modelled.
- SignTest.Compute, Ndcg.Bounds: floating point is replaced by real arithmetic, and the cast of the exponent to 32 bits by the number itself; the logarithm by any positive, strictly decreasing discount.
- Upgrade.Reconciler.Apply: probing, stopping and starting daemons, the store and the reranker are inputs of an attempt; instructions, warnings and the printed report are left out.
- Command line, prompts, transport, compiler discovery, checkpoint truncation and context precedence: they would only add easy members.
