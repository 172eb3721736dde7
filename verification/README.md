# Verified model of GoSearX

GoSearX is a metasearch server. Underneath its network and DOM code runs one pipeline: a rate
limiter admits a request, the query is parsed and looked up in a cache, engines are selected and
asked in parallel, their results are deduplicated, scored and ranked, and the response is cached.
This project models that pipeline in Dafny and proves what it promises, over all inputs, all runs
and all interleavings. `dafny verify dfyconfig.toml` checks the whole project.

| file | models |
|---|---|
| `TtlCache.dfy` | the in-memory cache with expiring entries, its janitor, its lock-level interleavings |
| `RateLimiter.dfy` | the sliding-window limiter that keeps its log in that cache |
| `LimiterLocks.dfy` | the limiter again, over the critical sections of the cache |
| `CacheKey.dfy` | raw cache keys and the exchange sort inside them |
| `EngineRegistry.dfy` | engines, suspension, routing by category |
| `QueryParser.dfy` | query operators |
| `FanOut.dfy` | the parallel search as a machine of workers, bounded channel, collector and deadline |
| `Merging.dfy`, `Ranking.dfy`, `Scoring.dfy` | filtering, merging and ranking of results |
| `CanonicalUrl.dfy`, `Deduplication.dfy` | canonical URLs, and which results are merged |
| `Snippet.dfy`, `Redirect.dfy` | snippet cleaning; redirect links and base64 |
| `ProxyPool.dfy` | the proxy rotator and the failover transport |
| `SearchPipeline.dfy` | one search from request to response |
| `SearchRuns.dfy` | runs of many searches over one cache |
| `Text.dfy`, `ByteOrder.dfy`, `Seqs.dfy`, `Options.dfy` | strings, their order, sequences up to reordering, options |

## Conventions

- A `char` is one byte. White space and case folding are those of ASCII.
- Scores and weights are `real`. Clock readings are integers in nanoseconds, given to each step.
- Where Go iterates over a map, the model picks keys in an arbitrary order.
- `sort.Slice` and `sort.Strings` are known by their contract; results about ranking hold for every
  sorted permutation, not for one sorting algorithm.
- These are parameters: SHA-256, `url.Parse` and `ResolveReference`, the answers of the engines, the
  scheduler, the transport below the proxies. The cached JSON list of instants is a `seq<int>`.
- A `TtlCache` event list, a limiter run, a fan-out schedule, a schedule of rotator calls and a trace
  of searches are the interleavings that the locks, the atomic counter, the channel and the clock
  allow; the theorems quantify over all of them.

Where code and documentation differ, the model follows the code: the transport also retries on
status 503, which docs/features/proxy_rotator.md does not list; routing by category has no default
category inside the registry, whatever the comment at engine/engine.go:84 says.

## Model

| member | source | states |
|---|---|---|
| TtlCache.InMemoryCache.Set | cache/cache.go:59-72 | the key holds the value, expiring at the clock reading plus a positive ttl and never otherwise; every other entry is as before |
| TtlCache.InMemoryCache.Get | cache/cache.go:75-93 | answers with the unexpired value or a miss, and removes the entry exactly when it has expired |
| TtlCache.InMemoryCache.Delete | cache/cache.go:96-100 | removes the key and nothing else |
| TtlCache.InMemoryCache.Clear | cache/cache.go:103-107 | removes everything |
| TtlCache.InMemoryCache.Sweep | cache/cache.go:110-124 | one janitor tick removes exactly the entries with a positive, passed expiration, in whatever order it visits them |
| TtlCache.EvictionIsInvisible | cache/cache.go:26-128 | over every run of atomic operations on a non-decreasing clock, all Gets answer as in a cache that never evicts, so delete-on-read and the janitor cannot be observed |
| TtlCache.HitReturnsLastSet | cache/cache.go:59-93 | under every interleaving of the critical sections, a hit returns the value most recently Set when its Get read the entry, unexpired at its check |
| TtlCache.LosesOnlyByFreshDrop | cache/cache.go:84-90 | in a run on a non-decreasing clock no live entry is ever missing if and only if no late delete of a Get meets an unexpired entry |
| TtlCache.LateDeleteDropsFresh | cache/cache.go:76-90 | a run in which the late delete of an expired Get does remove an entry that was just Set |
| RateLimiter.HandlerContext.LimitRate | server/handlers.go:131-175 | admits when there is no cache or fewer than five stored instants lie inside the window; then the cache holds those instants and the new one, otherwise only what reading leaves |
| RateLimiter.RequestIsThreeSteps | server/handlers.go:138-173 | LimitRate's verdict and effect are those of the machine's start, fetch and store steps of one request, run one after the other with any other requests in flight |
| RateLimiter.AdmissionsAreSpaced | server/handlers.go:138-170 | over every run of one address in which no two admitted requests overlap, however many refused ones do, with janitor sweeps and any operations on other keys in between, an admission and the fifth one after it are 10 s apart, or more than 10 s less the lag of the cache's clock reading |
| RateLimiter.OtherAddressesAreForeign | server/handlers.go:139 | what requests of other addresses do to the cache is among the operations allowed in between |
| RateLimiter.SpacingIsTight | server/handlers.go:138-170 | for every lag from 1 to one past the window some run, one request at a time, meets that bound exactly, so it cannot be improved |
| RateLimiter.LimiterRefinesIdeal | server/handlers.go:144-171 | without lag, and as long as no two admitted requests overlap, the verdicts are those of a limiter that keeps all admissions and counts the ones inside the window; refused requests leave no trace; the stored list is a sorted suffix of the log with at most five instants |
| RateLimiter.VerdictsCountAdmissions | server/handlers.go:144-165 | in numbers, on the runs of LimiterRefinesIdeal: the next request is admitted if and only if fewer than five admissions are less than 10_000_000_000 ns older than its clock reading |
| RateLimiter.OverlapExceedsLimit | server/handlers.go:146-170 | a run from the empty cache with two requests in flight, of any instants u and v in the window: all six requests are admitted, six instants lie inside one window, and the stored list has forgotten u |
| RateLimiter.SpacedIffOneInFlight | server/handlers.go:138-170 | for a lag of up to the window: all runs with at most m requests of the address in flight keep the bound if and only if m is at most one |
| LimiterLocks.AdmissionsAreSpaced | cache/cache.go:75-93 | the same bound under every interleaving of the critical sections that a Get consists of (read, check, late delete), as long as no two admitted requests overlap: none changes the entry after an admission that it had not seen when it started |
| LimiterLocks.AtomicRunHasSections | cache/cache.go:75-93 | every run with atomic Gets is one of these interleavings, with no more requests in flight and the same cache and log |
| LimiterLocks.SpacedIffOneInFlight | server/handlers.go:138-170 | on all these interleavings with at most m requests in flight the bound holds if and only if m is at most one, for a lag of up to the window |
| CacheKey.ExchangeSort | cache/cache.go:178-184 | the in-place exchange sort leaves the sorted permutation of what was there |
| CacheKey.GenerateKey | cache/cache.go:171-190 | the key is the digest of the raw key of the normalized inputs with sorted categories |
| CacheKey.RawKeyDecidesMeaning | cache/cache.go:171-186 | raw keys are equal if and only if trimmed folded query, category multiset and the three folded fields agree, for non-empty categories without bars and commas and fields without bars |
| CacheKey.RawKeyDecidesParts | cache/cache.go:171-186 | without bars in categories, language, country and locale, equal raw keys have equal trimmed folded queries, joined categories and folded fields |
| CacheKey.CommaCollides | cache/cache.go:173-186 | a category made of two normalized texts in order with a comma between them has the key of the two categories, for all other inputs |
| CacheKey.BarCollides | cache/cache.go:186 | for every normalized query and category, a bar in the language shifts the category into the query and the text before the bar into the categories without changing the key |
| ByteOrder.SortDecidesPermutation | cache/cache.go:177-184 | sorted lists are equal if and only if the lists are permutations of each other |
| ByteOrder.LessMeaning | cache/cache.go:180 | the order is that of the bytes at the first difference, a proper prefix first |
| EngineRegistry.Engine.Suspend | engine/scraper.go:140-145 | the engine is suspended at exactly the instants before the end of the latest suspension, with its reason |
| EngineRegistry.Engine.SuspendedReason | engine/scraper.go:148-155 | tells whether the clock reading lies before the end of the suspension, and its reason if so |
| EngineRegistry.Registry.Register | engine/engine.go:44-48 | the engine is found under its own name, replacing an earlier one; all other entries stay |
| EngineRegistry.Registry.GetActiveAndSuspendedEnginesForCategories | engine/engine.go:67-102 | each enabled engine with one of the categories comes out exactly once, as active or, with its reason, as suspended; no other engine does; for every map order and clock |
| EngineRegistry.ConcernedMeaning | engine/engine.go:79-91 | the engines that categories concern are the registered ones that are not disabled and have one of the categories |
| Text.ContainsMeaning | scoring/scoring.go:90 | containment is occurrence at some position |
| Text.FieldsJoin | engine/parser.go:18 | splitting undoes joining with single blanks for words without white space |
| Text.SixSeparators | engine/parser.go:18 | the six bytes 9 to 13 and 32 separate tokens, and no other byte does |
| Text.TrimSpaceMeaning | server/handlers.go:182 | trimming takes those six bytes off both ends and nothing else |
| Text.LowerMeaning | engine/parser.go:40 | folding turns A to Z into a to z and touches no other byte; capitals and small letters fold alike |
| Text.SplitMeaning | server/handlers.go:224 | splitting cuts at every separator and joining restores the text |
| QueryParser.ParseQuery | engine/parser.go:17-81 | each result field is made of the tokens of its class in order: clean tokens, engine names after shortcut resolution, the last category and language, folded exclusions |
| QueryParser.CategorySign | engine/parser.go:38-43 | for every query and word w, one more token "!!w" makes folded w the category and changes nothing else |
| QueryParser.EngineSign | engine/parser.go:26-54 | one more token "!w" chooses the engine of that folded name, or of one of the seven short names, and nothing else, when it is registered, and is part of the query otherwise |
| QueryParser.LanguageSign | engine/parser.go:57-60 | one more token ":w" makes folded w the language and changes nothing else |
| QueryParser.ExclusionSign | engine/parser.go:64-68 | one more token "-w" excludes folded w and changes nothing else |
| QueryParser.NoSign | engine/parser.go:71 | one more token without a sign, or a sign alone, is part of the query |
| QueryParser.NoTokens | engine/parser.go:18-24 | white space asks for nothing |
| QueryParser.ClassesPartition | engine/parser.go:36-71 | the five token classes together are exactly the tokens of the query, with multiplicity |
| QueryParser.ParseNormalized | engine/parser.go:17-81 | parsing commutes with trimming and case folding |
| QueryParser.ParseRespectsNormalization | engine/parser.go:36-80 | queries equal up to outer white space and case have the same overrides and exclusions, and clean queries equal up to case |
| QueryParser.CleanQueryIsFixpoint | engine/parser.go:73-80 | parsing the clean query again returns it unchanged, without overrides or exclusions |
| QueryParser.ExcludedTermsAreFolded | engine/parser.go:63-68 | excluded terms are case-folded and not empty |
| Merging.ContributionMeaning | scoring/scoring.go:103-109 | contribution times rank is the weight, with ranks and weights that are not positive read as 1 |
| Merging.MergeMeetsGroups | scoring/scoring.go:98-148 | there is a card for a canonical URL if and only if kept items have it; its score is the sum of their clamped weight/rank, its engines are distinct in first-appearance order, title and content are the earliest of the longest, URL and category the first item's |
| Merging.MergeKeys | scoring/scoring.go:99-138 | the canonical URLs of the cards are exactly those of the kept items |
| Merging.ScoreIsConserved | scoring/scoring.go:103-143 | the scores of all cards add up to the contributions of all kept items |
| Merging.MergeIsHomomorphism | scoring/scoring.go:80-148 | the cards of a concatenation are the combination of the cards of its parts |
| Merging.CombineIsMonoid | scoring/scoring.go:111-137 | the combination (add scores, append unseen engines, keep first URL and category, take the strictly longer text) is associative with the empty map as unit |
| Merging.MergeIgnoresOrder | scoring/scoring.go:80-148 | reordering the items leaves canonical URLs, scores, engine sets and text lengths of the cards unchanged |
| Ranking.StrictWeakOrder | scoring/scoring.go:157-186 | the less function is irreflexive, asymmetric and transitive, and being tied is transitive |
| Ranking.TiedMeansSameKey | scoring/scoring.go:173-185 | cards are tied if and only if google membership, score and title agree |
| Ranking.RankedShape | scoring/scoring.go:157-186 | cards with "google" among their engines form a prefix; before and after its end scores never rise and equal scores are in title order |
| Ranking.RankingsAgreeOnKeys | scoring/scoring.go:157-186 | two sorted outputs of the same cards differ only among full ties |
| Ranking.RankingsAgreeOnStandings | scoring/scoring.go:157-186 | cards with the same multiset of (google, score) pairs are ranked with the same sequence of pairs |
| Scoring.AggregateAndScore | scoring/scoring.go:77-189 | the loop over mutable cards returns a ranking of the cards that the kept items merge to |
| Scoring.AnswerAccounts | scoring/scoring.go:80-148 | in terms of the raw results: there is a card for a canonical URL if and only if some result of it has a URL and no non-empty excluded term occurs in its folded title or content; no two cards share a canonical URL, their number is that of these URLs, and each score is the sum of the contributions of exactly those results |
| Scoring.AggregateConservesScore | scoring/scoring.go:77-189 | one returned card per canonical URL, and the returned scores add up to the contributions of the kept items |
| Scoring.RankingIgnoresOrder | scoring/scoring.go:77-189 | outputs for reordered items show the same ranked (google, score) pairs |
| Scoring.NoCardShowsExcludedTerm | scoring/scoring.go:85-97 | no returned card contains a non-empty excluded term in its folded title or content, even though texts are merged from several items |
| Scoring.ExclusionIsPrefilter | scoring/scoring.go:80-97 | the possible outputs are those of aggregating the list filtered beforehand |
| Scoring.MoreTermsNeverHelp | scoring/scoring.go:85-143 | with more excluded terms no card appears and no canonical URL scores higher |
| CanonicalUrl.CanonicalizeURL | scoring/scoring.go:20-63 | returns the canonical text, whatever the order in which parameters are visited |
| CanonicalUrl.QueryEscapeInjective | scoring/scoring.go:52 | percent-encoding is injective |
| CanonicalUrl.EscapeMeaning | scoring/scoring.go:52 | letters, digits and -_.~ stay, a blank becomes a plus sign, any other byte a percent sign and two capital hexadecimal digits |
| CanonicalUrl.TwoParametersRender | scoring/scoring.go:52-60 | two parameters are written after the question mark as key=value, in the order of their texts, with an ampersand in between |
| CanonicalUrl.CleanPairsCount | scoring/scoring.go:39-54 | a non-tracking pair counts as often as its value is listed under its key, a tracking pair never |
| CanonicalUrl.CanonicalDecidesEquality | scoring/scoring.go:27-62 | canonical forms are equal if and only if folded hosts without "www.", normalized paths and multisets of non-tracking pairs are, for URLs with a host and no question mark in the decoded path |
| CanonicalUrl.ParameterMatters | scoring/scoring.go:39-54 | one more parameter makes no difference to the canonical form if and only if its folded key begins with "utm_" or is gclid, fbclid, ref or source; the "only if" for URLs with a host and no question mark in the decoded path |
| CanonicalUrl.HostMatters | scoring/scoring.go:27-29 | hosts without "www." make no difference if and only if they agree up to case |
| CanonicalUrl.PathMatters | scoring/scoring.go:31-36 | the empty path, the slash and the three index pages, with or without one more slash, count alike and no other path counts as they do; other paths count as their folded text without one slash at the end |
| CanonicalUrl.SpellingsAgree | scoring/scoring.go:27-36 | the case of host and path and the default pages of the root make no difference to the canonical form; a leading "www." makes none if and only if the host has none yet, a trailing slash if and only if the path does not end in one yet (one of each is stripped, not two) |
| CanonicalUrl.HiddenParameterCollides | scoring/scoring.go:32-59 | a path that hides an encoded parameter has the canonical form of the URL that has the parameter |
| Deduplication.MergedIffSameTarget | scoring/scoring.go:99-148 | two results whose URLs can be parsed, have a host and no question mark in the decoded path share a card if and only if the URLs have the same folded host without "www.", normalized path and multiset of non-tracking parameters |
| Deduplication.ParameterSplitsCards | scoring/scoring.go:39-54 | two results whose URLs differ in one more parameter share a card if and only if that is one of those tracking parameters; the "only if" under the same conditions |
| FanOut.ExecuteSearchConcurrently | engine/engine.go:113-199 | driven by any schedule to the end of the collector's loop, it returns the collected results, and the collected metrics followed by a timeout metric for each engine name not collected |
| FanOut.Collect | engine/engine.go:159-177 | the loop over channel and counters, under any schedule, ends with the results, metrics and count of the machine's run |
| FanOut.NoSendBlocks | engine/engine.go:124-156 | on every schedule the channel stays within its capacity and a finished worker can send at once |
| FanOut.NeverStuck | engine/engine.go:159-177 | until the collector's loop ends some worker or the collector can move without the deadline |
| FanOut.WaitsForAll | engine/engine.go:159-177 | without a deadline the collector stops when, and not before, every engine has answered |
| FanOut.ResultsAreReceived | engine/engine.go:134-171 | on every schedule the results are the concatenation, in order of receipt, of the responses of distinct engines, with nothing from failed ones, and each metric has its engine's name, time, number of results and error |
| FanOut.LateMetricsReportTimeouts | engine/engine.go:179-196 | every metric that was not received is for a selected engine whose name has not answered, with no results, the elapsed time and the context's error |
| FanOut.OneMetricPerEngine | engine/engine.go:159-198 | engines of different names get exactly one metric each, on every schedule and deadline |
| FanOut.OneEachIffNamesDiffer | engine/engine.go:113-199 | there are as many metrics as engines on every schedule and deadline if and only if the selected engines have different names, which a repeated override breaks |
| FanOut.MetricCountIffNoShadow | engine/engine.go:179-196 | on each schedule there are as many metrics as engines if and only if no missing engine shares its name with one that answered |
| FanOut.OneAnswerShadows | engine/engine.go:180-187 | when one engine alone answers before the deadline, exactly the other engines of its name get no metric |
| FanOut.CompleteRunsDeliverTheSame | engine/engine.go:159-177 | two schedules on which every engine answers deliver the same results up to order |
| Snippet.CleanSnippet | engine/scraper.go:472-479 | the halving loop ends after exactly the binary logarithm, rounded up, of the longest run of blanks, with the trimmed result of a single collapsing pass |
| Snippet.CeilLog2IsLeast | engine/scraper.go:475-477 | that number is the least exponent whose power of two reaches the run length |
| Snippet.HalveLongestRun | engine/scraper.go:476 | one round turns a longest run of k blanks into one of k/2, rounded up |
| Snippet.CleanKeepsVisibleBytes | engine/scraper.go:472-479 | cleaning keeps the bytes that are not white space, in order |
| Snippet.CleanKeepsWords | engine/scraper.go:472-479 | the words of a snippet stay as they are and apart, also at the end of a line |
| Snippet.ReturnsVanish | engine/scraper.go:474 | a carriage return makes no difference |
| Snippet.CleanIdempotent | engine/scraper.go:472-479 | cleaning twice is cleaning once; the texts it leaves alone are exactly the tidy ones |
| Redirect.ResolveRelativeURL | engine/scraper.go:412-469 | a tracking link resolves to its target parameter in the order uddg, q, url, u; other links stay or are resolved against the base |
| Redirect.WhereLinksLead | engine/scraper.go:412-469 | a link with one of the seven marks leads to the first of its parameters uddg, q, url and u that is given, u as it stands when it is not encoded; any other link stays when it is absolute or cannot be parsed and is resolved otherwise |
| Redirect.ForeignTargetStands | engine/scraper.go:439-455 | an encoded target with a character of neither alphabet is taken as it stands |
| Redirect.TargetRoundTrip | engine/scraper.go:439-455 | "a1" and the unpadded URL-safe base64 of any non-empty byte string decode to that string |
| Redirect.EncodeMeaning | engine/scraper.go:446-449 | the encoding that is inverted is base64url: the digits of three bytes at a time in the URL-safe alphabet, written out |
| Redirect.DigitsOfBytes | engine/scraper.go:446-449 | three bytes are 24 bits cut into four digits; one byte is padded to 12 bits, two to 18 |
| Redirect.SpareBitsIgnored | engine/scraper.go:449 | the decoder ignores bits past the last whole byte |
| Redirect.PaddingInside | engine/scraper.go:449 | it rejects padding before the last group |
| Redirect.LineBreaksSkipped | engine/scraper.go:449 | it skips line breaks |
| Redirect.ResolveEncoded | engine/scraper.go:419-455 | a /ck/ link with such a parameter and no earlier one resolves to the encoded target |
| ProxyPool.Rotator.GetNext | proxy/proxy.go:89-95 | hands out the proxy at the old counter modulo the pool size and advances the 64-bit counter; nil for an empty pool |
| ProxyPool.Serve | proxy/proxy.go:89-95 | calls that do not overlap, on a new rotator, are handed the pool positions in round-robin order |
| ProxyPool.ExactShares | proxy/proxy.go:93-94 | under every interleaving of the increments and returns of any goroutines, T increments up to 2^64, proxy j of n has been handed out or is about to be exactly (T+n-1-j)/n times, rounded down; once all calls have returned it has been handed out that often |
| ProxyPool.CallIsTwoSteps | proxy/proxy.go:93-94 | an increment and the return of the same goroutine hand out the proxy at the old counter modulo the pool size and advance the counter, as GetNext does |
| ProxyPool.RoundRobinForeverIffDivides | proxy/proxy.go:93-94 | the round robin survives the wrap of the counter if and only if the pool size divides 2^64 |
| ProxyPool.Rotator.RoundTrip | proxy/proxy.go:104-136 | runs min(3, n) attempts at most over the next picks in order, consuming exactly the picks used; without proxies it goes direct |
| ProxyPool.FirstUsableDecides | proxy/proxy.go:115-135 | every attempt before the last one made was unusable; the last one made either is usable and is the result, or was the last allowed and its failure is reported |
| ProxyPool.RequestMeaning | proxy/proxy.go:104-135 | up to three attempts, or as many as there are proxies, and the first response whose status is not 502, 503 or 504; when all fail, the report of the last: its status and number, or its error |
| ProxyPool.ConsecutivePicksDiffer | proxy/proxy.go:93-94 | before the wrap, consecutive picks that are fewer than n apart are different proxies |
| ProxyPool.SomePickAvoidsBad | proxy/proxy.go:109-115 | with fewer bad proxies than attempts, before the wrap, some attempt uses another proxy |
| ProxyPool.AttemptsSurvive | proxy/proxy.go:104-135 | hence at most min(3, n) - 1 bad proxies cannot make an undisturbed request fail |
| ProxyPool.SurvivesIffFewerThanAttempts | proxy/proxy.go:104-135 | m bad proxies, whichever and however they fail, can never fail an undisturbed request before the wrap if and only if m is smaller than 3 and than n |
| ProxyPool.RoundTripSurvives | proxy/proxy.go:104-136 | the transport itself returns a response then |
| SearchPipeline.MakePlan | server/handlers.go:182-256 | trims and parses the query, chooses the categories and derives locale, language and country, or reports which of the two query errors applies |
| SearchPipeline.PlanMeaning | server/handlers.go:182-256 | for every accepted plan: the language is the override, or the request's, or the folded first part of its locale, or en; the country the request's, or the second part of its locale in capitals, or US; the locale is the language and that second part as given, or the country; the categories are the override alone, or the non-empty requested ones trimmed and folded, or general |
| SearchPipeline.RefusalMeaning | server/handlers.go:182-193 | a request is refused for a missing query if and only if the query is white space, and as empty if and only if it is not and parsing leaves nothing of it |
| SearchPipeline.LanguageTokenDecides | server/handlers.go:240-256 | for every accepted request and word w, one more token ":w" makes folded w the language and the first part of the locale |
| SearchPipeline.CategoryTokenDecides | server/handlers.go:210-214 | one more token "!!w" makes folded w the only category |
| SearchPipeline.RouteOverrides | server/handlers.go:299-311 | registered enabled engines in override order, repetitions kept, split by suspension at the clock reading of each, with reasons |
| SearchPipeline.OneMoreOverride | server/handlers.go:299-311 | one more override routes one more engine, after the others, if it is registered and enabled: as suspended while the clock reading taken for it lies before the end of its suspension, as active otherwise |
| SearchPipeline.CacheHitIsSound | server/handlers.go:266-275 | accepted requests with equal raw keys have the same overrides, exclusions and category multiset, the same query and options up to case, and the same engines over every registry state, provided that no category has a comma or a bar and language, country and locale have no bar |
| SearchPipeline.CommaRequestsCollide | server/handlers.go:203-275 | with commas it fails: every accepted query without category override, asked with the category "x,y" and with the categories x and y, has one raw key, and an engine of category x is concerned by the second request only |
| SearchPipeline.BarRequestsCollide | server/handlers.go:217-275 | with bars even exclusion fails: for all lower-case words t, c, x, y, u, two requests that exclude t and t-bar-c, in the categories c and x, with the languages x-bar-y and y and the countries u and u-bar-x, are accepted, have one raw key and exclude different terms |
| SearchPipeline.ExclusionSafeIffNoBars | server/handlers.go:262-275 | any two accepted requests with one raw key have the same exclusions if and only if bars are kept out of the categories and options of keys, commas or not |
| SearchPipeline.SearchSafeIffNoSeparators | server/handlers.go:262-275 | any two accepted requests with one raw key ask for the same search if and only if both bars and commas are kept out |
| SearchPipeline.SchedulesAreConfluent | server/handlers.go:331-334 | two complete runs of the same engines give, after aggregation, the same canonical URLs with the same summaries and the same ranked (google, score) pairs |
| SearchPipeline.RunSearch | server/handlers.go:316-345 | the response aggregates what arrived from the selected engines without excluded terms, and reports metrics and suspended engines; nothing runs when none is selected |
| SearchPipeline.FreshEchoes | server/handlers.go:302-345 | a fresh response repeats the query, counts its results, and names with their reasons only engines that are enabled and suspended |
| SearchPipeline.FreshComesFromAnswers | server/handlers.go:331-334 | every card has the URL of a result that a selected engine returned without an error for the query without its operators |
| SearchPipeline.SearchHandler.SearchSingle | server/handlers.go:178-354 | a rejected request leaves the cache alone, and so does every request when caching is off; an unexpired page under the plan's key is returned as a hit; otherwise the response is fresh and stored under that key exactly when it has results |
| SearchPipeline.FreshShowsNoExcludedTerm | server/handlers.go:334 | no card of a fresh response shows a term that the query excludes, and the cards are ranked |
| SearchPipeline.FreshAccountsForEveryEngine | server/handlers.go:312-331 | routed by category, each enabled engine of the categories appears exactly once among metrics and unresponsive engines, on every schedule and deadline |
| SearchRuns.SearchIsAskThenKeep | server/handlers.go:262-350 | what SearchSingle does to a cache in use is the machine's look-up followed, for a fresh response with results, by its write |
| SearchRuns.HitReplaysLastFresh | server/handlers.go:266-350 | over every run of interleaved searches, limiter requests, sweeps and other operations on one cache, a hit is the fresh response with results that was last written under the key, served before its time to live, if it has one, is over |
| SearchRuns.NextRequestHits | server/handlers.go:266-350 | after a response is written and until its key is written again, whatever else happens in between on a clock that does not run backwards, a search with that key gets it while it lasts and a fresh response afterwards |
| SearchRuns.HitAnswersSameSearch | server/handlers.go:266-350 | over every such run, as long as the requests up to then under the hit's own key have one raw key and no separators in its fields, the hit was the fresh response to a request with the same overrides, exclusions, options, category multiset and engines and the same query up to case; requests under other keys, and collisions there, do not matter |
| SearchRuns.RepliesHideExcludedTerms | server/handlers.go:266-345 | in any such run a reply, from the cache or fresh, shows no term that the query of its own request excludes, and is ranked, as long as the requests up to then under its own key have one raw key and no bar in categories, language, country and locale; commas do no harm |
| SearchRuns.SearchesAreForeign | cache/cache.go:188-189 | keys in hexadecimal differ from every key of the limiter, so the cache operations of searches are among those allowed in between the limiter's |

## Left out

- The Redis cache driver, HTTP clients, TLS, DNS caching, chromedp, selectors, readability, configuration and `main.go`: foreign calls and I/O.
- HTTP handlers, authorization, header handling and the extraction of the client address: request plumbing; the limiter takes the address as given.
- Bulk search and the crawler: they repeat the single search and the fan-out.
- The regular-expression cleaners and the retry loops of the drivers: not part of this model.
- Timeout arithmetic: a deadline may fire at any step of a schedule, whatever its length.
- Floating-point rounding, Unicode case folding and white space, SHA-256 collisions, clock overflow of int64.
- The internals of `url.Parse`: host, path and parameters are taken as it reports them.
- AdmissionsAreSpaced: for runs in which no two admitted requests of the address overlap, without Clear or Delete of the limiter's own key, which the server never does; OverlapExceedsLimit and SpacedIffOneInFlight show what overlap allows.
- LimiterRefinesIdeal: with each Get as one step.
- CanonicalDecidesEquality: not stated for decoded paths with a question mark, where HiddenParameterCollides shows two URLs sharing a form.
- RoundTripSurvives: assumes that the transport asks for one proxy per attempt and that no other request advances the counter in between.
- NextRequestHits: each cache operation is one step; between the critical sections of a Get a late delete can drop a fresh page, as LateDeleteDropsFresh shows.
- HitReplaysLastFresh: each cache operation is one step, here and in HitAnswersSameSearch and RepliesHideExcludedTerms; HitReturnsLastSet is the statement about the critical sections of a Get.
- HitAnswersSameSearch: each Get is one step, and not stated for keys under which requests have separators or collide.
- RepliesHideExcludedTerms: each Get is one step, and not stated for keys under which requests have bars or collide; BarRequestsCollide shows two requests with bars that share a key and exclude different terms.
- CacheHitIsSound: not stated for categories that contain commas or bars, and options that contain bars, where CommaRequestsCollide and BarRequestsCollide show requests sharing a key; ExclusionSafeIffNoBars and SearchSafeIffNoSeparators give the exact conditions.
- MergedIffSameTarget: not stated for URLs that cannot be parsed, have no host or have a decoded question mark in the path, for the reason given for CanonicalDecidesEquality.
- SearchSingle: the processing time in the response is not modelled.
