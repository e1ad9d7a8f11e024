# Verified models of the subdomain enumerator

This project models the decision procedures, bounded searches, cursor protocols and planners of a subdomain
enumerator, and proves properties of them that hold for every input, every way of cutting the input, every answer of
the network, or every sequence of calls.

`dafny verify dfyconfig.toml` checks everything. Each source file that loops over mutable state is modelled by methods
(or a class with the same fields) that are proved equal to a specification function; what the source promises is then
proved about that function.

| files | what they model |
|---|---|
| `Basics`, `Orders`, `Ranking`, `Decimals` | shared notions: optional values, lexicographic order, the k best of a set, numerals |
| `Hostnames`, `HostnameRules` | host names, and which texts are read as which |
| `DnsNames`, `DenialProofs`, `DenialTheorems`, `DenialVerdict` | the DNSSEC denial classifier: names in presentation form, canonical order (section 6.1 of RFC 4034), NSEC and NSEC3 intervals (section 3.1.7 of RFC 5155), the merged verdict, and the whole assessment in terms of the records |
| `TokenKinds`, `WordTables`, `LabelTokens` | label tokens, and the word tables with the binary search that classifies them |
| `BeamSearch`, `BeamScores`, `GrammarTemplates`, `TemplateLanguage` | the pruned template search, what its scores mean, the templates it runs on, and what they spell |
| `TemplateKeys`, `Tallies`, `SlotValues`, `GrammarInduction`, `GrammarMeaning` | how observed names are gathered into templates, the values each slot offers, and what they say about the names |
| `Substitution`, `PatternExpansion`, `ExpansionMeaning`, `Compaction` | placeholders in mutation patterns, their expansion and what it holds, and contextual candidates with a bounded working set |
| `Redaction` | streaming redaction of secrets |
| `StaticTiles`, `TileFormat`, `TilePaths`, `StaticSync`, `StaticProgress`, `CtCursor`, `CtCoverage`, `CtProgress`, `LogSelection` | Certificate Transparency: tile codec and paths, bounded synchronization and how far it gets, the durable cursor, what it covers and how it gets on, log selection |
| `SpfPlanner`, `SpfTheorems`, `SpfProgress`, `SpfTargets`, `PolicyPlanner`, `PolicyTheorems`, `PolicyProgress`, `PolicyWaves`, `PolicyRuns` | the DNS policy planner with its SPF limits (section 4.6.4 of RFC 7208), what its runs keep, what they follow up, and the wave loop that drives it |
| `WarcFraming`, `WarcHeaders`, `WarcHeaderEnds` | finding and reading WARC records (section 4 of ISO 28500) |
| `RefreshCounters`, `RefreshSessions` | replay-safe sighting counters, and when a refresh begins and ends |
| `ReleaseGraph`, `ReleaseRoots` | the packages of a release and the dependency entries of its bill of materials |
| `EventPipeline`, `Governor`, `GovernorSteps` | the discovery queue, and the adaptive rate governor with the size of its steps |

Libraries, the network, the clock and the SQL engine are parameters: functions for parsers and decoders, maps for what
can be fetched, scripts for what each request is answered, an outcome for each transaction. A deadline is a step that
fails, or a commit that lands and is reported as failed. Where a model is generic over a function (`Matcher`, `Finder`,
`Visitor`, `Call`, `StaticReader`, `Standing`), a predicate says that it is the program's own function.

Findings, each stated as a lemma:

* A presentation name whose last dot is escaped is rejected although the escape makes it part of the label
  (`DnsNames.QuotedFinalDotIsRejected`).
* The service table is not sorted: "img" stands before "imap". The binary search finds every word of the four tables
  but these two, so labels such as "imap-01" begin with a literal instead of a service. The library leaves open what a
  search of an unsorted table gives; this holds for its search in the declared version, which halves the range without
  an early exit (`WordTables.ServiceFoundIff`, `LabelTokens.ServiceKindIff`, `LabelTokens.ImapIsALiteral`). The beam
  theorems do not depend on it.
* Logs that were never indexed and keep failing can hold all selection slots for ever; with fewer failing logs than
  slots nobody starves (`LogSelection.FailingLogsCanStarveTheRest`, `LogSelection.EveryLogGetsItsTurn`).
* The second scope filter compares with the domain as requested; unless that is already normalised it drops the
  root's own queries. The program normalises the domain before it scans (`src/scanner/run.rs:5`), so only callers of
  the library can meet the failing case (`PolicyTheorems.SecondFilterIsRedundantIff`).
* A commit of Certificate Transparency names that lands while the deadline passes is reported as failed: the cursor
  moves although the pass fails or counts too few entries. Coverage holds nevertheless, and reports are exact iff no
  commit with entries ends that way (`CtCoverage.FailedPassMovesTheCursor`, `CtCoverage.CursorMovesAsReportedIff`).
* Failures and latencies are lost exactly with windows that end with some of them but without a request; deltas never
  make such a window, cumulative counters can (`Governor.NothingIsLostIff`,
  `Governor.NothingIsLostWhenNeverBare`, `Governor.FailuresWithoutRequestsAreLost`).
* Records whose header blocks use bare line feeds are visited with their own bounds iff no CRLF empty line stands in
  the header window, which reaches into the body (`WarcFraming.ArchiveIsVisitedIff`,
  `WarcHeaders.PrintedFeedRecordIsCutOff`).

Where code and comment differ the model follows the code: the SPF planner is described as capping all terms that cause
lookups, but it does not count `ptr` terms (`src/dns_policy.rs:7`, `src/dns_policy.rs:211-242`;
`SpfPlanner.PtrCostsNothing`).

## Model

| member | source | states |
|---|---|---|
| HostnameRules.NormalizedIff | src/util.rs:87-90 | a text is read as h iff h is at least two labels joined by dots, in small letters, and the text is h in any case with white space around and dots behind |
| HostnameRules.ValidIff | src/util.rs:39-55 | a name is valid iff it is labels of 1 to 63 letters, digits and inner hyphens joined by dots, 253 characters at most |
| HostnameRules.InScopeIff | src/dns_policy.rs:646-648 | a name is in scope iff it is the domain or stands in front of it and a dot |
| HostnameRules.ObservedIff | src/util.rs:82-85 | a name is observed in a domain iff it is a host name in front of it and a dot |
| DnsNames.ReadEscape | src/dnssec_proof.rs:617-648 | one backslash escape: three digits up to 255, or one literal character, and how far it reaches; anything else is refused |
| DnsNames.ParsePresentationName | src/dnssec_proof.rs:599-674 | the cursor loop yields exactly the name that decoding, splitting at unescaped dots and checking label and wire lengths yields, and rejects exactly when they do |
| DnsNames.ParseUndoesSpelling | src/dnssec_proof.rs:599-674 | every name, spelled with any mixture of plain, quoted and decimal characters, is parsed back, lower-cased, unless the spelling ends in a quoted dot |
| DnsNames.QuotedFinalDotIsRejected | src/dnssec_proof.rs:604-606 | a spelling that ends in a quoted dot is never parsed to its name: the final dot is stripped before escapes are read |
| DnsNames.CanonicalNameCmp | src/dnssec_proof.rs:582-596 | the loop over reversed labels computes the canonical comparison |
| DnsNames.CanonicalTotal | src/dnssec_proof.rs:582-596 | canonical order is a total order whose ties are equal names |
| DnsNames.ZoneContiguous | src/dnssec_proof.rs:582-596 | the names of a zone are contiguous in canonical order, the apex first |
| DenialProofs.RingPartition | src/dnssec_proof.rs:509-527 | the records of any cyclic chain partition the name space: each point is decided by exactly one record, its own or the one whose interval covers it |
| DenialProofs.Collector.ClassifyNsec | src/dnssec_proof.rs:299-389 | one NSEC proof adds exactly the evidence, warning and flag of its finding |
| DenialProofs.Collector.ClassifyNsec3 | src/dnssec_proof.rs:391-476 | one NSEC3 proof adds exactly the evidence, warning and flag of its finding |
| DenialProofs.SeveralStates | src/dnssec_proof.rs:261-275 | more than one state among the candidates is the same as a conflict, and a conflict leaves the verdict open |
| DenialProofs.EvidenceDecides | src/dnssec_proof.rs:299-476 | no proof ever contributes an inconclusive candidate |
| DenialProofs.ClassifyDnssecProof | src/dnssec_proof.rs:214-297 | the whole classifier equals the assessment of the set of findings |
| DenialTheorems.NsecChainVerdict | src/dnssec_proof.rs:214-297 | for any subset of a genuine chain in any order: Exists iff the name's own record is present, DoesNotExist iff its covering record is, else Inconclusive, and never a conflict |
| DenialTheorems.Nsec3ChainVerdict | src/dnssec_proof.rs:391-476 | the same for chains of hashes |
| DenialTheorems.NoConflictWarning | src/dnssec_proof.rs:266-275 | the conflict warning is raised iff validated evidence disagrees |
| DenialTheorems.OrderAndRepetitionDoNotMatter | src/dnssec_proof.rs:242-264 | permuting or repeating proofs changes nothing |
| DenialTheorems.UnvalidatedEvidenceOnlyWarns | src/dnssec_proof.rs:224-228 | unvalidated proofs and the RRSIG Labels flag change at most two warnings |
| DenialTheorems.MoreProofsNeverFlip | src/dnssec_proof.rs:261-296 | more proofs keep a decided verdict or open it; they never turn it over |
| DenialTheorems.NsecFindingMeaning | src/dnssec_proof.rs:299-389 | an NSEC proof denies a range iff it is a validated conventional record strictly covering the name, and shows existence iff it owns the name with a telling bitmap |
| DenialTheorems.Nsec3FindingMeaning | src/dnssec_proof.rs:391-476 | the same for NSEC3, without Opt-Out for denials |
| DenialTheorems.RangeCachingNeedsARangeProof | src/dnssec_proof.rs:286-296 | range caching is offered iff the verdict is a denial and a range proof supports it |
| DenialTheorems.LiveNeedsAnOwnerProof | src/dnssec_proof.rs:283-285 | a name is live-eligible iff validated evidence of its owner is undisputed |
| DenialVerdict.NsecEvidence | src/dnssec_proof.rs:299-389 | one NSEC record: type 128 at the name itself denies it without caching, whatever else is set; else a published bitmap shows the owner, with caching iff a conventional bitmap lacks the type asked for; else a covering range denies; nothing else is evidence |
| DenialVerdict.Nsec3Evidence | src/dnssec_proof.rs:391-476 | the same for NSEC3, whose ranges deny only without Opt-Out |
| DenialVerdict.VerdictOfRecords | src/dnssec_proof.rs:214-297 | the name has a state iff some record or flag says so and none says anything else; the proofs listed are exactly those there are; a conflict is reported iff two say different things |
| DenialVerdict.DeniedIff | src/dnssec_proof.rs:214-297 | a name is denied iff an NXNAME record of its own or a covering range denies it and nothing shows it or its descendants |
| DenialVerdict.CacheOfRecords | src/dnssec_proof.rs:286-296 | caching is by range for a denial that a range supports, by name for an owner whose conventional record lacks the type asked for, and never otherwise |
| DenialVerdict.WarningsOfRecords | src/dnssec_proof.rs:214-476 | each warning is raised iff a record or flag calls for it |
| DenialVerdict.CompactSeenIff | src/dnssec_proof.rs:313-325 | compact denial is noted iff a readable validated record shows it |
| WordTables.AscendingFinds | src/intelligence.rs:727-741 | a search of an ascending table finds exactly its members |
| WordTables.AllButTwoAreFound | src/intelligence.rs:727-741 | a search of a table whose middle entry and its successor are exchanged finds exactly the other members |
| WordTables.ServiceFoundIff | src/intelligence.rs:34-82 | a word is found in the service table iff it stands there and is neither "img" nor "imap" |
| LabelTokens.KindOfWord | src/intelligence.rs:727-741 | the searches classify every word by membership in the tables, taken in order, but for these two |
| LabelTokens.ServiceKindIff | src/intelligence.rs:727-741 | a word of the service table becomes a service iff it is neither "img" nor "imap", and a literal otherwise |
| LabelTokens.ImapIsALiteral | src/intelligence.rs:335-364 | a label of "imap", a hyphen and a number is read as a literal and a number |
| LabelTokens.TokenizeLabel | src/intelligence.rs:335-364 | exactly lower-case valid labels are tokenized, and the tokens are a tokenization: alternating classified runs that spell the label with hyphen runs reduced to one |
| LabelTokens.TokensSpellTheLabel | src/intelligence.rs:341-361 | without an empty hyphen segment the tokens spell the label back |
| LabelTokens.UniqueReading | src/intelligence.rs:335-364 | a text has at most one tokenization |
| BeamSearch.RunBeam | src/intelligence.rs:600-660 | the template loop computes the beam, slot by slot |
| BeamSearch.ExpandCounts | src/intelligence.rs:628-645 | how many extended states reach a threshold depends only on how many states reach the matching thresholds before, saturation included |
| BeamSearch.BeamFaithful | src/intelligence.rs:600-660 | for templates that spell distinct labels the beam holds distinct texts of the full cross-product and counts above every threshold like its best scores |
| BeamSearch.BeamIsExact | src/intelligence.rs:600-660 | after each slot the kept scores are exactly the beam-width best scores of the full cross-product, though pruned prefixes were never extended |
| BeamScores.ExtendGains | src/intelligence.rs:897-906 | a value adds 20,000 if it was seen in the template, 5,000 per sighting and 10 per thousandth of recency to any score, capped only by the machine's greatest |
| BeamScores.LocalOutranks | src/intelligence.rs:897-906 | of two values alike but for that, the one seen in the template scores higher iff the other stays below the cap |
| BeamScores.StartScore | src/intelligence.rs:891-895 | a template starts with 100,000 per label of support and 100 per thousandth of recency, capped alike |
| BeamScores.FullIsAllChoices | src/intelligence.rs:600-660 | the full cross-product holds exactly one state for each choice of one value per slot: its text, its path, and the start score plus the worth of the choice |
| BeamScores.KeptIsScoredByItsValues | src/intelligence.rs:600-660 | every label the beam keeps is spelled and scored by some choice of values |
| BeamScores.BetterChoicesAreKept | src/intelligence.rs:600-660 | the score of any choice that beats a kept label is itself kept |
| BeamScores.BeamIsOrdered | src/intelligence.rs:646-654 | behind a slot the beam lists higher scores first and equal ones by label, no label twice |
| GrammarTemplates.GrammarSpellsDistinctly | src/intelligence.rs:410-435 | templates made from alternating runs, digits being numbers, spell distinct labels for distinct slot choices |
| GrammarTemplates.GrammarBeamIsExact | src/intelligence.rs:600-660 | so for them the beam is exact, from the template's own start score, whatever their words are classified as |
| GrammarTemplates.ExtendNumericValues | src/intelligence.rs:839-889 | a slot of at least two numbers of one width within the span gets, at that width and in ascending order, every missing number from the least minus the radius to the greatest plus the radius, up to the end or up to the one that fills the slot; any other slot stays as it is |
| TemplateLanguage.SpelledIff | src/intelligence.rs:600-660 | a template's full cross-product spells the text of a label of the template iff each of the label's values is on offer at its slot |
| TemplateKeys.TemplateKey | src/intelligence.rs:775-794 | the loop prints the key of a parent and the parts |
| TemplateKeys.KeyIff | src/intelligence.rs:775-794 | two keys are equal iff parent and parts are equal |
| Tallies.TallyMeans | src/intelligence.rs:310-315 | a key is tallied iff it was seen, with the number of its sightings up to the machine's limit and the latest time |
| SlotValues.SlotValues | src/intelligence.rs:487-523 | a slot holds the best of its own values together with the vocabulary of its kind, or with the extrapolated numbers |
| SlotValues.SlotFits | src/intelligence.rs:487-523 | what a slot holds is of its kind, each text once |
| SlotValues.SlotHoldsTheBest | src/intelligence.rs:511-523 | a slot lists values seen in the template first, then by sightings, recency and text, and whatever it leaves out comes behind all it holds |
| SlotValues.ObservedIsKeptIff | src/intelligence.rs:522-523 | a slot keeps a value seen there iff fewer of the values seen there than the limit rank before it |
| GrammarInduction.SameKeyIff | src/intelligence.rs:439-450 | two names fall into one template iff they have the same parent and the same parts |
| GrammarInduction.InduceGrammar | src/intelligence.rs:390-551 | the loops over names and accumulators give one template for each key with enough labels, built from exactly the names of that key and the vocabulary of all names |
| GrammarInduction.InducedSlotsFit | src/intelligence.rs:484-530 | the slots of every induced template hold distinct values of the kinds of the names it came from |
| GrammarInduction.ReadingsAreUnique | src/intelligence.rs:399-402 | a list of names has one list of readings, so the grammar speaks of no others |
| GrammarInduction.GrammarSearchIsExact | src/intelligence.rs:600-660 | for every template in the grammar of any list of names the kept scores are exactly the best of the full cross-product |
| GrammarInduction.LearnedIsSpelledIff | src/intelligence.rs:478-551 | a learned label is spelled again by its template iff at each slot fewer seen values than the limit rank before its own |
| GrammarInduction.NothingLearnedIsLost | src/intelligence.rs:478-551 | every learned label is spelled again when no slot saw more values than the limit |
| GrammarMeaning.LearnedFromHostLabels | src/intelligence.rs:335-338 | exactly the labels that host names are made of are learned from |
| GrammarMeaning.TemplateIff | src/intelligence.rs:478-485 | a key has a template iff its readings have at least the configured number of different labels, and that number is its support |
| GrammarMeaning.VocabularyCounts | src/intelligence.rs:405-412 | the vocabulary holds every classified token and number of the names with the number of its mentions, and no word |
| GrammarMeaning.SlotValueMeans | src/intelligence.rs:487-523 | a value seen at a slot carries how many labels of the template choose it and the score of the latest; any other one how often its kind and text are mentioned anywhere |
| GrammarMeaning.ChosenIsOffered | src/intelligence.rs:487-523 | a value that a label of the template chooses is in its slot, unless the slot is full |
| GrammarMeaning.MentionedIsOffered | src/intelligence.rs:505-517 | so is every service, environment, region or cloud mentioned anywhere, where one of its kind stands |
| GrammarMeaning.NumbersAround | src/intelligence.rs:839-889 | a slot of numbers also offers every number around a series of equally wide ones, with zero sightings, unless it is full, and nothing else |
| Compaction.CompactProposals | src/candidate.rs:204-216 | retain, sort, deduplicate and truncate compute the compaction |
| Compaction.CompactIsBest | src/candidate.rs:204-216 | compaction lists, best first, the k best among the best fitting proposal of each name |
| Compaction.EarlyCompactionIsExact | src/candidate.rs:281-386 | compact(compact(A, w) + B, k) = compact(A + B, k) for every k up to w |
| Compaction.KeptOutscoresDropped | src/candidate.rs:204-216 | of each name the highest score is kept, and a name is dropped only for as many names that score higher, or as high and come earlier |
| Compaction.ApplyRule | src/candidate.rs:357-371 | a rule adds the valid ones among the first expansions of its complete list: all that still fit below the limit, and one when it is full |
| Compaction.NamesKeep | src/candidate.rs:281-386 | however many names and rules come, the working set stands for everything appended so far under every final limit, and no state on the way exceeds twice the limit plus a per-name constant |
| Compaction.LogIsOffered | src/candidate.rs:281-386 | nothing is ever appended but fixed proposals and rule expansions of some name |
| Compaction.NamesAreLogged | src/candidate.rs:281-386 | every fixed proposal and the first expansion of every rule is appended, however full the working set is |
| Compaction.NothingIsCutWhatFits | src/candidate.rs:281-386 | as long as everything on offer fits below the working limit, the log is all of it in order and nothing is compacted on the way |
| Compaction.GenerateContextual | src/candidate.rs:259-387 | the loops over names and rules compute the working set of the fold; the result is the compaction of everything ever appended, and of everything on offer when that fits four times the limit |
| PatternExpansion.CutBeforeStage | src/candidate.rs:146-158 | cutting the texts before a stage does not show behind the same cut after it |
| Substitution.FillingKeepsOthers | src/candidate.rs:141-151 | in any text, filling in one placeholder neither makes nor breaks another, provided the value holds no brace and is no part of the other's name |
| PatternExpansion.StagesAreOrderly | src/candidate.rs:6-48 | the program's environments, regions and clouds satisfy that for every later placeholder |
| PatternExpansion.StagesAreUniform | src/candidate.rs:140-168 | whatever the pattern, at each stage all texts or none hold the placeholder |
| PatternExpansion.LimitedIsAPrefix | src/candidate.rs:140-168 | cutting at every stage gives the beginning of the complete expansion |
| PatternExpansion.CollapseLeavesNoPair | src/candidate.rs:181-183 | no two dots are left side by side |
| PatternExpansion.ExpandStage | src/candidate.rs:147-157 | the nested loops with their labelled break compute the cut cross-product |
| PatternExpansion.Tidy | src/candidate.rs:177-187 | repeated pair replacement ends, with every run of dots reduced to one and the ends trimmed |
| PatternExpansion.ExpandPattern | src/candidate.rs:131-188 | for every pattern, word, parent and limit: the tidied beginning, of that length, of the complete expansion over the program's own lists |
| ExpansionMeaning.PatternMeans | src/candidate.rs:131-181 | a pattern of text and placeholders expands to exactly the texts with the word, the parent and one environment, region, cloud and number each wherever they are asked for |
| ExpansionMeaning.FillsEverywhere | src/candidate.rs:135-150 | filling in a placeholder gives its value wherever it stands and touches nothing else |
| ExpansionMeaning.TidiedIsItsLabels | src/candidate.rs:171-180 | a tidied text is the non-empty labels of the original, joined by single dots |
| ExpansionMeaning.FitsIff | src/candidate.rs:204-205 | a proposal survives iff in front of the domain it is made of host labels in any case, 253 characters at most |
| Redaction.NextMatch | benchmarks/redact.py:58-70 | the least position at which any secret begins, with the longest secret there |
| Redaction.PlanIsSound | benchmarks/redact.py:56-73 | the rewritten text is the input with some secrets replaced; no kept stretch contains a secret |
| Redaction.LookAheadSuffices | benchmarks/redact.py:54-54 | what follows cannot change a match once as many bytes as the longest secret are present |
| Redaction.RewriteBuffer | benchmarks/redact.py:55-73 | the inner loop writes the part of the one-shot rewrite up to the limit and leaves the rest owed |
| Redaction.RedactStream | benchmarks/redact.py:47-80 | for every way of cutting the input the stream writes the one-shot leftmost-longest rewrite; after every read the carried tail is shorter than the longest secret and is all that is owed of what was read |
| StaticTiles.TileRoundTrip | src/ct_static.rs:218-258 | encoding any entries and reading the tile gives back their certificates |
| StaticTiles.TileIsUnique | src/ct_static.rs:218-258 | an accepted payload is the encoding of exactly one list of that many entries, consumed completely |
| StaticTiles.Cursor.Take | src/ct_static.rs:95-106 | takes the next bytes, or fails and leaves the position where it was |
| StaticTiles.ParseDataTile | src/ct_static.rs:218-258 | the cursor loop computes the certificates of the tile, or fails exactly when there are none |
| TileFormat.CertificateIsRead | src/ct_static.rs:218-260 | the bytes of a certificate entry, written out field by field, are read as that certificate |
| TileFormat.PrecertificateIsRead | src/ct_static.rs:218-260 | the same for a precertificate entry |
| TileFormat.OtherTypesAreRefused | src/ct_static.rs:218-260 | a tile whose first entry is of any other type is refused |
| StaticTiles.PathGivesIndex | src/ct_static.rs:186-207 | stripping x and slash from a tile path gives the index back |
| StaticTiles.TilePathsAreInjective | src/ct_static.rs:186-216 | different indices or widths have different tile paths |
| TilePaths.PathIsInThousands | src/ct_static.rs:186-207 | a tile path is the index in groups of three digits by powers of a thousand, each but the last marked with an x |
| StaticSync.TileAlwaysAdvances | src/ct_static.rs:535-600 | a complete tile moves any cursor short of the tree: the bail-out for a tile that cannot advance is unreachable |
| StaticSync.TakeTile | src/ct_static.rs:543-622 | one round equals its specification: fetch, byte caps, parse, the share of the tile, decode |
| StaticSync.RoundAdvances | src/ct_static.rs:538-622 | a round moves the cursor within tree, budget and caps |
| StaticSync.RoundCollects | src/ct_static.rs:538-622 | a round extends the collected range, names and consecutive tiles; a first tile always fits into the batch |
| StaticSync.SyncTiles | src/ct_static.rs:538-626 | the tile loop computes the synchronization |
| StaticSync.SyncDelivers | src/ct_static.rs:483-627 | whatever a synchronization delivers has the range, names, tiles and caps promised, and with backlog and budget at least one entry |
| StaticSync.FetchStaticDelta | src/ct_static.rs:483-627 | next cursor = start + entries, within budget and tree; names of exactly that range; consecutive tiles within the tile and byte caps |
| StaticProgress.SyncEndsAtABound | src/ct_static.rs:538-626 | a synchronization that succeeds has reached the end of the tree, its budget or 64 tiles, or has no room for the next tile |
| StaticProgress.AvailableEntriesAreDelivered | src/ct_static.rs:538-626 | if all entries up to the budget can be fetched and decoded within the name limit, it succeeds |
| CtCursor.CtStore.StoreGlobalBatch | src/db/enrichment.rs:481-523 | names and cursor are committed together and the cursor never moves back |
| CtCursor.CtStore.StoreStaticBatch | src/db/enrichment.rs:343-458 | the same for a static batch, whose reset flag overwrites the cursor |
| CtCursor.CtStore.ResetCursor | src/db/enrichment.rs:460-469 | the cursor is overwritten and the names stay |
| CtCursor.DecodeBatchNames | src/ct_monitor.rs:742-777 | a page is refused exactly when some entry cannot be decoded or exceeds the name limit; otherwise all its names are returned |
| CtCursor.ProcessAndStoreBatch | src/ct_monitor.rs:813-867 | a page commits exactly its names and its size iff it has the right size, decodes completely and the transaction lands; the caller learns of it iff the commit is also reported; any other page leaves the store as it was |
| CtCursor.ProcessStaticLog | src/ct_monitor.rs:870-954 | the static reader commits what it fetched from the stored cursor, or nothing, and reports it unless the deadline hides it |
| CtCursor.ReadPages | src/ct_monitor.rs:1369-1520 | the page loop leaves the state and the report that the specification of the loop gives for these answers |
| CtCursor.MonitorLog | src/ct_monitor.rs:1243-1521 | the same for a whole pass, with failing heads, empty trees, shrunken trees and logs that are up to date |
| CtCursor.RunPasses | src/ct_monitor.rs:1243-1521 | from an empty store each durable state and each report is what one pass makes of the state before it |
| CtCoverage.PassFollows | src/ct_monitor.rs:1243-1521 | whatever fails, crashes or is misreported, the commits of a pass are all that changes the state, and each holds exactly the names of its entries, starts at the cursor (or at the backfill point without one), stays within the tree, and overwrites the cursor iff the tree is smaller |
| CtCoverage.RunIsCovered | src/ct_monitor.rs:1243-1521 | in every durable state of every run each entry from the last start or reset point up to the cursor has had all its names committed |
| CtCoverage.RunKeepsNames | src/db/enrichment.rs:493-505 | of the names committed for one log none is ever lost |
| CtCoverage.RunIsExact | src/ct_monitor.rs:1243-1521 | until a first reset the names committed for one log are exactly those of its entries from the first start to the cursor; the table of names itself is shared by all logs |
| CtCoverage.BaseMovesWithoutReset | src/ct_monitor.rs:1331-1341 | without a reset the start of the covered range only moves with the first commit ever, to the backfill point |
| CtCoverage.BaseMovesAtReset | src/ct_monitor.rs:1331-1341 | otherwise it is the backfill point of the last reset, which met a tree smaller than the cursor |
| CtCoverage.ReportIsExactIff | src/ct_monitor.rs:595-640 | a pass never reports more than it committed, and exactly that iff no commit with entries landed unreported, which can only be its last |
| CtCoverage.CursorMovesAsReportedIff | src/ct_monitor.rs:595-640 | without a reset a stored cursor moves by the reported entries iff no commit with entries landed unreported |
| CtCoverage.FailedPassMovesTheCursor | src/ct_monitor.rs:625-633 | a pass whose only page is committed at the deadline fails, and yet cursor and names have moved |
| CtCoverage.PagesStop | src/ct_monitor.rs:1369-1520 | a pass stays within its budget, and finishes only at the end of the tree, of its budget, of its pages, or by falling back |
| CtProgress.OrdinaryPageAdvances | src/ct_monitor.rs:1369-1520 | a page with entries, no more than asked for, all decodable and within the name limit, whose commit lands, moves cursor and loop by its length and stores its names |
| CtProgress.OtherPagesChangeNothing | src/ct_monitor.rs:307-316 | any other page changes nothing and ends the pass |
| CtProgress.PassFinishes | src/ct_monitor.rs:1243-1521 | a pass whose every answer is such a page is complete at the end of the tree, of its budget or of 64 pages, with exactly the names of the entries it covered |
| CtProgress.AnsweringLogIsIndexed | src/ct_monitor.rs:1243-1521 | over n passes the cursor of a log that keeps answering moves by n budgets (or n times 64 pages), or reaches the size of the tree |
| CtProgress.ShrunkTreeStartsOver | src/ct_monitor.rs:1330-1342 | a tree below the cursor moves it back to the backfill point, from where the same pass goes on |
| CtProgress.NothingToDoKeepsThePlace | src/ct_monitor.rs:1353-1364 | an up-to-date log, or one without budget, finishes without entries and stores where it stands |
| CtProgress.ReaderDelivers | src/ct_monitor.rs:1277-1294 | the static reader answers with a batch iff the log can be synchronized to it from the stored cursor and the commit lands |
| CtProgress.FallbackIsCommitted | src/ct_monitor.rs:1280-1330 | without a tree head whatever the static reader delivers is committed and reported |
| CtProgress.PageFallbackIsCommitted | src/ct_monitor.rs:1425-1480 | the same in place of a page |
| LogSelection.SelectLogs | src/ct_monitor.rs:322-338 | selects the first maxLogs: never indexed, then least recently updated, then by name |
| LogSelection.SelectedAreTheStalest | src/ct_monitor.rs:322-338 | what is selected was never indexed, or longer ago than what is left out, ties by name |
| LogSelection.EveryLogGetsItsTurn | src/ct_monitor.rs:322-338 | with n logs of which f < k may fail, each is selected in any window of n / (k - f) passes, rounded up; without failures that is n / k |
| LogSelection.FailingLogsCanStarveTheRest | src/ct_monitor.rs:322-338 | with f >= k a run exists in which only failing logs are ever selected |
| SpfPlanner.Planner.constructor | src/dns_policy.rs:159-171 | depth and lookups are capped at 16 and 10 |
| SpfPlanner.Planner.ExpandRecord | src/dns_policy.rs:183-316 | one record changes the planner and answers exactly as the expansion function says |
| SpfPlanner.Planner.FollowOne | src/dns_policy.rs:244-313 | one term: the budget test, the charged lookup, and the effect of each mechanism |
| SpfPlanner.PtrCostsNothing | src/dns_policy.rs:211-242 | ptr terms ask for nothing and cost no lookup |
| SpfTheorems.DeduplicateKeepsKeys | src/dns_policy.rs:755-758 | deduplication keeps each name and type once and adds nothing |
| SpfTheorems.ExpandKeeps | src/dns_policy.rs:183-316 | a call keeps the invariant, expands only new owners, queries only inside the scope, and never queues what it reports as a loop |
| SpfTheorems.OverDepthIsUnreachable | src/dns_policy.rs:198-202 | in every reachable state every pending depth is allowed, so the over-depth return is never taken |
| SpfTheorems.LookupsStayInBudget | src/dns_policy.rs:239-243 | over any run the lookups stay within min(limit, 10) and the queries within twice that |
| SpfTheorems.EachOwnerExpandsOnce | src/dns_policy.rs:203-206 | no owner is expanded twice in a run |
| SpfTheorems.LoopsAreNeverQueued | src/dns_policy.rs:268-271 | a reported loop was expanded before, and its record is not asked for then or later |
| SpfTheorems.PendingHasAParent | src/dns_policy.rs:272-284 | a pending depth stems from an expansion one level above that asked for the record |
| SpfTheorems.DepthIsAChain | src/dns_policy.rs:272-284 | the depth of an expansion is the length of a chain of earlier expansions, so no include chain is longer than the limit |
| SpfProgress.PolicyTermAsks | src/dns_policy.rs:273-293 | an include or redirect to a new name inside the scope asks for its TXT record, one level deeper |
| SpfProgress.PolicyTermStops | src/dns_policy.rs:273-293 | to an expanded name it is a loop, too deep a limit, and asks for nothing |
| SpfProgress.AddressTermAsks | src/dns_policy.rs:294-302 | an a term asks for both addresses of its domain |
| SpfProgress.MailTermAsks | src/dns_policy.rs:303-307 | an mx term asks for the mail exchangers |
| SpfProgress.ExistsTermAsks | src/dns_policy.rs:308-312 | an exists term asks for the IPv4 address |
| SpfProgress.ForeignRequestIsReported | src/dns_policy.rs:250-268 | a target outside the scope is reported with the kind of its term, an unusable one is noted, and both cost a lookup |
| SpfProgress.OtherTermsCostNothing | src/dns_policy.rs:218-242 | only terms that begin in these ways cost a lookup |
| SpfProgress.LookupsAreTheCost | src/dns_policy.rs:244-248 | a record pays one lookup per term that costs one and stops iff it has more of them than are left |
| SpfProgress.RecordAsks | src/dns_policy.rs:183-316 | whatever a term asks for is among the queries of its record as long as the terms before it left a lookup |
| SpfTargets.LongTermPoints | src/dns_policy.rs:219-268 | include, redirect and exists, in any case and with any qualifiers, point to the domain behind them: nowhere if it holds a macro or is no name, else inside or outside the scanned domain |
| SpfTargets.ShortTermPoints | src/dns_policy.rs:231-268 | a and mx point to the domain behind their colon, whatever prefix length follows |
| SpfTargets.BareTermPoints | src/dns_policy.rs:231-268 | without a domain they point to the owner of the record |
| PolicyPlanner.QueryPlanner.PushQuery | src/dns_policy.rs:605-633 | a query is emitted iff its name is valid, in scope, new and within the budget |
| PolicyPlanner.QueryPlanner.PlanFirstWave | src/dns_policy.rs:384-459 | the first wave: zones within the zone budget, then the mail policy names |
| PolicyPlanner.QueryPlanner.Ingest | src/dns_policy.rs:463-550 | every record type answers as specified |
| PolicyPlanner.QueryPlanner.IngestPointer | src/dns_policy.rs:552-603 | browse answers become service types, service answers instances, within their budgets |
| PolicyTheorems.ApplyMoves | src/dns_policy.rs:384-603 | every call grows the planned set by exactly what it emits, once each, in scope, within the budgets |
| PolicyTheorems.EmittedOnceInScopeWithinBudget | src/dns_policy.rs:384-633 | over any run each name and type is emitted at most once, in scope, at most maxQueries in all, and the planner remembers exactly these |
| PolicyTheorems.QueueIsABoundary | src/discovery.rs:233-250 | the second filter lets nothing outside the domain through, and drops nothing of a clean list |
| PolicyTheorems.SecondFilterIsRedundantIff | src/discovery.rs:226-250 | it passes every name the planner may emit iff the requested domain is its own normalised form; otherwise it drops the root |
| PolicyTheorems.TrailingDotDropsTheRoot | src/discovery.rs:226-228 | a requested domain with a trailing dot is such a case |
| PolicyProgress.ZonesAreSorted | src/dns_policy.rs:389-403 | the planned zones are the normalised ones below the root, each once, ascending |
| PolicyProgress.ZonesAreAsked | src/dns_policy.rs:401-418 | the first wave asks for service types, NAPTR and URI of the root and every zone, as budgets allow |
| PolicyProgress.MailIsAsked | src/dns_policy.rs:420-458 | and for the seven names and types of the mail policies |
| PolicyProgress.RunIsFollowedUp | src/dns_policy.rs:552-603 | in every run each service type has been asked for its instances, and each instance for its SRV and TXT records |
| PolicyProgress.BrowseAnswersAreFollowed | src/dns_policy.rs:552-603 | every browse answer of a run has become a service type that is asked for, or a budget is spent |
| PolicyProgress.ServiceAnswersAreFollowed | src/dns_policy.rs:552-603 | every answer of a known service has become an instance that is asked for, or a budget is spent |
| PolicyProgress.SpfAnswersAreFollowed | src/dns_policy.rs:524-536 | every query of an SPF expansion has been passed on, or the query budget is spent |
| PolicyProgress.MentionsAreReported | src/dns_policy.rs:463-550 | every name that a record mentions is reported, as a host of the domain or as an external feature |
| PolicyWaves.DiscoverPolicies | src/discovery.rs:252-293 | the planner is given the first wave and every value of every reply to every wave, in order; each wave is what it emitted upon the wave before, behind the second filter, and all it reports is gathered; all queries are in the domain, none twice, within the budget; the loop ends within maxQueries waves even without its cap |
| PolicyRuns.RepliesAreReadInOrder | src/discovery.rs:274-280 | value j of reply i is given to the planner behind all values of the replies before it, and no others are |
| PolicyRuns.WavesAreAnsweredInOrder | src/discovery.rs:261-292 | a run begins with the first wave, and the replies to a wave follow those to the waves before it |
| PolicyRuns.RunIsItsAnswers | src/discovery.rs:261-292 | a call is part of a run iff it plans the first wave or reads a value of a reply to some wave |
| PolicyRuns.ReportsAreGathered | src/discovery.rs:262-281 | whatever a call reports is in the report of the run |
| PolicyRuns.ReportsComeFromCalls | src/discovery.rs:262-281 | whatever the report of a run holds was reported by a call |
| PolicyRuns.WantedHoldsQueries | src/discovery.rs:262-291 | whatever a call asks for inside the requested domain is among the queries of the run |
| WarcFraming.FirstAtFinds | src/archive_intelligence.rs:1175-1181 | the search gives the first occurrence, and none only when there is none |
| WarcHeaderEnds.HeaderEndsAtEmptyLine | src/archive_intelligence.rs:1183-1194 | a header block ends at the first CRLF empty line within the limit, without any at the first LF empty line, without either nowhere |
| WarcFraming.ReadRecords | src/archive_intelligence.rs:572-663 | the record loop ends, looks at no more than maxRecords records, and counts what the scan visits |
| WarcFraming.ScanRecords | src/archive_intelligence.rs:572-663 | it visits what the specification of a scan visits from the start of the data |
| WarcFraming.AnalyzeWarc | src/archive_intelligence.rs:548-663 | compressed input is refused; the input is cut at the byte limit and scanned |
| WarcFraming.ScanIsOrderedAndComplete | src/archive_intelligence.rs:572-663 | on arbitrary bytes visits stand at markers, each behind what the one before passed over, and unless the limit was hit every marker was visited or passed over |
| WarcFraming.ArchiveIsVisitedIff | src/archive_intelligence.rs:572-663 | a concatenation of well-formed records, with CRLF or bare line feeds, is visited record by record with each record's own bounds iff no bare line feed record the scan gets to has a CRLF empty line in its header window |
| WarcFraming.ArchiveIsVisitedExactly | src/archive_intelligence.rs:572-663 | so records with CRLF are all visited with the right bounds, whatever their bodies contain |
| WarcFraming.FeedRecordIsCutOff | src/archive_intelligence.rs:1183-1194 | a well-formed bare line feed record whose body is a CRLF empty line is reported as a cut-off archive |
| WarcHeaders.PrintedFeedRecordIsCutOff | src/archive_intelligence.rs:1183-1205 | the printed record with version line and content-length: 4 is such a record |
| WarcHeaders.HeaderRoundTrip | src/archive_intelligence.rs:1196-1205 | a printed header block gives, for each name in any case, the first value printed for it |
| WarcHeaders.LengthRoundTrip | src/archive_intelligence.rs:591-592 | a printed decimal length is read as that number |
| RefreshCounters.RefreshStore.CleanupAbandoned | src/db.rs:1019-1043 | closes the 256 longest abandoned sessions and loses no generation |
| RefreshCounters.RefreshStore.BeginSession | src/db.rs:1081-1114 | joins the session under way or opens the next generation |
| RefreshCounters.RefreshStore.ClearSession | src/db.rs:1116-1131 | completion closes the session and keeps its generation |
| RefreshCounters.RefreshStore.InsertPage | src/db.rs:1164-1245 | a page writes exactly its rows and statistics in one transaction under the session of its source, whose label its rows carry (src/db/passive.rs:566-579, 1003-1010), or leaves no trace |
| RefreshCounters.OneSessionPerRow | src/db/passive.rs:566-579 | two sessions never write the same row, because its key names the root and the source |
| RefreshCounters.TimesSeenCountsGenerations | src/db.rs:1201-1213 | a row counts the distinct refreshes that wrote it, and once more if a write without a session created it |
| RefreshCounters.RowBelongsToOneSession | src/db.rs:1201-1213 | all refreshes of a row are of the session its key names, so the count stays within that session's generations |
| RefreshCounters.ReplayAfterOtherPages | src/db.rs:1201-1213 | replaying a page after any other pages of its generation changes no counter |
| RefreshCounters.RunOps | src/db.rs:1019-1245 | over any interleaving of pages, replays, failures, completions and clean-ups, inside a page or on their own, the tables and the history are the fold of the operations |
| RefreshCounters.RunCounts | src/db.rs:1019-1245 | after any run every row counts its refreshes as above |
| RefreshCounters.RunAdvances | src/db.rs:1081-1114 | generations never decrease and no session is lost |
| RefreshSessions.SweptIff | src/db.rs:1019-1043 | a clean-up closes a session iff it is active, untouched for ninety days, and fewer than 256 such sessions come before it |
| RefreshSessions.CompletionEndsTheGeneration | src/db.rs:1116-1131 | after completion the next page of a source is of the next generation |
| RefreshSessions.PagesShareTheGeneration | src/db.rs:1081-1114 | pages of a source that follow each other within ninety days are of one generation |
| RefreshSessions.AbandonedSourceStartsAnew | src/db.rs:1019-1043 | a source left alone for longer begins a new generation once its turn to be cleaned up has come |
| RefreshSessions.CommittedPageLeaves | src/db.rs:1176-1245 | a committed page leaves its observations seen now, first when they were new, their names stored, and every other row as it was |
| RefreshSessions.SourcePageLeaves | src/db/passive.rs:566-579 | a page of a source leaves a passive row for each of its names under the label of the source, and no other new row |
| ReleaseGraph.DependencyKinds | packaging/generate_supply_chain.py:63-72 | the kinds of an edge without dev; an edge without kinds is normal |
| ReleaseGraph.EdgeMattersIff | packaging/generate_supply_chain.py:63-72 | an edge counts iff no kind is listed or one that is not dev; none and empty ones are normal |
| ReleaseRoots.RootIff | packaging/generate_supply_chain.py:78-84 | the release is that of the package the resolution names, or else of the only member |
| ReleaseRoots.LastNodeCounts | packaging/generate_supply_chain.py:86-88 | a package has a node iff some node is of it, and the last one counts |
| ReleaseGraph.Walk | packaging/generate_supply_chain.py:89-108 | the worklist ends, visits each node once, and included, outgoing and incoming kinds are exact; it fails only on a reachable package without a node |
| ReleaseGraph.ResolveReleaseGraph | packaging/generate_supply_chain.py:75-112 | each error exactly in its case; otherwise the exact graph with at least one dependency |
| ReleaseGraph.AllTargetsIncluded | packaging/generate_supply_chain.py:241-245 | the filter on included children drops nothing |
| ReleaseGraph.DependencyEntries | packaging/generate_supply_chain.py:239-246 | one entry for each included package, in order of reference, depending on exactly its release edges; every reference depended on is itself listed |
| EventPipeline.DrainReturnsTheBest | src/pipeline.rs:78-90 | a drain returns the best remaining names, priority descending and name ascending |
| EventPipeline.DrainsHighestFirst | src/pipeline.rs:10-16 | that is: higher priorities first, equal ones by name, as many as are wanted and there |
| EventPipeline.DrainTwice | src/pipeline.rs:78-90 | draining a and then b is draining a + b |
| EventPipeline.DiscoveryPipeline.Enqueue | src/pipeline.rs:60-76 | a name is queued iff it is new and the budget lasts; the counters say which |
| EventPipeline.DiscoveryPipeline.DrainNames | src/pipeline.rs:78-90 | drains as specified, never a name that was drained or marked, and zero empties the queue |
| EventPipeline.RunOps | src/pipeline.rs:53-90 | over any run: every output is the drain of the state its predecessors leave, the outputs in a row are the names drained, enqueued = drained + queued + skipped within the limit, no name comes twice, none after it was marked |
| Governor.JudgeKeepsBounds | src/network_governor.rs:145-213 | every window keeps rate and concurrency between their floors and ceilings; the rate is zero iff its ceiling is |
| Governor.DegradedWindowsReachFloor | src/network_governor.rs:166-183 | degraded windows in a row reach the floors and stay |
| Governor.HealthyWindowsReachCeiling | src/network_governor.rs:184-212 | three healthy windows for every unit of rate reach the ceilings |
| GovernorSteps.StepsAreMild | src/network_governor.rs:166-212 | a degraded window at most halves a limit, the third healthy one in a row adds at most a fifth and one, or eight places; others move nothing |
| GovernorSteps.FactorsDecide | src/network_governor.rs:166-212 | away from floors and ceilings the rate is multiplied by the factor, the concurrency halved or raised by eight |
| GovernorSteps.WindowsAreCounted | src/network_governor.rs:166-212 | backoffs count the degraded windows, healthy windows are counted in threes since the last other one, and degraded lasts until the next raise |
| GovernorSteps.ExtremesAreRemembered | src/network_governor.rs:214-218 | the least and the greatest rate ever set are remembered exactly |
| GovernorSteps.EveryWindowIsJudgedOnce | src/network_governor.rs:108-158 | a window with any request is judged once when its time is up and not before; others move no limit |
| GovernorSteps.RunIsItsWindows | src/network_governor.rs:108-219 | the limits after a run are those its judged windows lead to, one after the other |
| Governor.NetworkGovernor.ObserveDelta | src/network_governor.rs:108-119 | a delta is pending until the window ends, and is then judged once; fixed mode ignores it |
| Governor.NetworkGovernor.ObserveAggregate | src/network_governor.rs:126-143 | the same for the growth of cumulative counters |
| Governor.NetworkGovernor.EvaluateElapsedWindow | src/network_governor.rs:145-219 | only an elapsed window with requests moves the limits |
| Governor.Run | src/network_governor.rs:108-219 | a run leaves exactly the fold of its observations; the bounds hold, and barring saturation evaluated plus pending requests equal everything observed |
| Governor.BooksAreTheSum | src/network_governor.rs:108-142 | what is booked as observed is the sum of the accepted deltas and of the growth of the cumulative totals |
| Governor.NothingIsLostIff | src/network_governor.rs:145-158 | nothing is thrown away iff no window ends with failures or latencies but without a request |
| Governor.NothingIsLostWhenNeverBare | src/network_governor.rs:108-119 | that is so when every increment with failures or latencies has a request, in particular for deltas alone |
| Governor.FailuresWithoutRequestsAreLost | src/network_governor.rs:126-158 | cumulative failures that rise while requests do not are a case in which they are thrown away |

## Left out

- Signature validation, SHA-256, base64, X.509 and TLS decoding, HTTP, sockets and process spawning: what they deliver is a parameter.
- The SQL engine: tables are maps, and a transaction either commits or leaves no trace.
- Wall-clock deadlines and cancellation: a step that may fail at any point; several processes on one database are not modelled.
- CtCoverage.PassFollows: pages and tiles are assumed to decode to what the log holds at their index, and the log keeps its entries; a log that serves other entries is not modelled.
- StaticSync.FetchStaticDelta: checkpoint signatures and the hashes of cached tiles are not modelled; a tile that cannot be used is one that cannot be fetched.
- PatternExpansion.ExpandPattern: strings are sequences of characters; the parser of mutation rule files, which refuses unknown placeholders, is not modelled.
- Compaction.GenerateContextual: the environment swaps, number neighbours, token order and service names of one observed name are given as a list of bounded length; the selection of observed names is not modelled.
- GrammarInduction.InduceGrammar: observations arrive as names that are normalised, in scope, valid and cut into label and parent, which is where parents without a bar come from; the temporal score is a parameter, and the order of the templates and their hashed identifiers are not modelled.
- GrammarInduction.GrammarSearchIsExact: the final filter and merge of candidates across templates are not modelled.
- DenialTheorems.NsecChainVerdict: walking a zone collects an arc of the ring, so nothing is claimed of a complete zone.
- PolicyPlanner.QueryPlanner.Ingest: the names that SRV, NAPTR, URI and other TXT values mention, the joining of quoted TXT strings and the DNS name parser are parameters.
- WarcFraming.ScanRecords: the analysis of a record's HTTP response, its statistics and the script heuristics; UTF-8 decoding is a parameter.
- Governor.DegradedWindowsReachFloor: of the two floating point factors only that the reduction lowers a positive rate is assumed; the latency baseline that judges a window is a parameter.
- RefreshCounters.RefreshStore.InsertPage: timestamps other than first and last seen, leases, the pagination checkpoints, and the removal of rows of an earlier replay scheme; the insert-if-absent path is a write without a session, except that it leaves the last-seen time of existing rows alone.
- ReleaseGraph.DependencyEntries: the other parts of the documents; references are a function of the package.
- EventPipeline.DiscoveryPipeline.DrainNames: the binary heap is the set of events it holds.
- Scheduling weights, confidence scores, rendering, reports, configuration and command line: plumbing that would only add easy members.
