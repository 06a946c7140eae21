# Research-team core in Dafny

This project models the core of a small multi-agent research pipeline.

- **Senior research analyst** (`crewai_agents.py`). It searches for sources
  and keeps the first `top_k`. In `verify_facts` it splits every snippet into
  sentences, normalises each sentence into a claim, and maps claims to the
  sources behind them (one source per url). It clusters claims first-fit
  against fixed representatives, then turns each cluster supported by at
  least `min_support` distinct urls into a verified fact. An optional
  entity-intersection gate applies. The facts are ranked by support.
- **Mock search client** (`MockTavilyClient.search`). It makes `limit`
  synthetic sources that cycle through five sample snippets.
- **Fallback entity extractor** (`extract_entities` without a spaCy model).
  It returns the lowercased matches of the capitalised-phrase regular
  expression.
- **Tavily adapter**. The key check of the constructor, the choice of the
  result list in the HTTP response, and `_parse_results` with its chained
  `or` fallbacks.
- **Agent core** (`agents_core.py`). The in-process memory, the tool
  registry, and an agent's `act`, `observe`, `reflect` and `run_once` loop.

Python values appear as `PyValue.Value`: None, booleans, integers, strings,
lists, and dicts as insertion-ordered entry lists. Truthiness and `or` are
written out. A Python exception is an `Err` of a `Result`.

Code that loops or mutates becomes a method proved against a specification
function: the loops of `verify_facts`, `search`, `_parse_results` and
`run_once`, and the memory and registry classes. The properties are proved
as lemmas about those functions.

Dependencies the core does not define are parameters:
- the similarity measure (`Scorer`: rapidfuzz's ratio as an arbitrary
  function, or the substring fallback);
- the entity extractor used by `verify_facts`;
- the environment of the Tavily constructor;
- the tools, and an agent's `plan` and `observe`.

Where the code and its tests or documentation disagree, the model follows
the code:
- The Tavily constructor raises `TavilyError` on a missing key
  (`tavily_adapter.py:43-44`). `tests/test_tavily_adapter.py:9-14` expects
  it not to.
- With the entity gate on, a cluster whose supporting snippets all have
  empty entity sets does not get dropped. It makes `set.intersection()`
  raise a `TypeError`, which `verify_facts` does not catch
  (`crewai_agents.py:188`). `Verification.VerifyError` models that error.

## Model

| member | source | states |
|---|---|---|
| Text.Lower | crewai_agents.py:112 | `str.lower()` keeps the length and maps each character through the ASCII lowering |
| Text.TrimStart | crewai_agents.py:106 | `lstrip` removes exactly the leading whitespace run: the result is a suffix, everything removed is whitespace, and the result does not start with whitespace |
| Text.TrimEnd | crewai_agents.py:106 | `rstrip` removes exactly the trailing whitespace run |
| Text.StripShape | crewai_agents.py:106-108 | `strip()` leaves a contiguous, trimmed slice of its input and removes only whitespace |
| Text.StripTrimmed | crewai_agents.py:108 | stripping an already trimmed string changes nothing, so the second `s.strip()` is a no-op |
| Text.SearchFrom | crewai_agents.py:153 | the left-to-right scan finds `a` from index `i` exactly when `a` occurs in `b` at some index `>= i` |
| Text.SearchAgrees | crewai_agents.py:153 | the scan agrees with Python's substring test `c in rep` |
| Text.NatToString | crewai_agents.py:67-68 | `str(n)` is a non-empty string of decimal digits |
| Text.ParseNatToString | crewai_agents.py:67-68 | reading the decimal rendering back gives the number |
| Text.NatToStringInjective | crewai_agents.py:68 | distinct numbers render differently, so the mock's urls differ |
| PyValue.FirstTruthy | tavily_adapter.py:104-107 | the reference reading of an `or` chain is one of its operands or the default, and is truthy unless it is the default |
| PyValue.Get | tavily_adapter.py:104-107 | `d.get(key)` is None unless the key is present |
| PyValue.Keys | crewai_agents.py:134 | a dict's keys, in insertion order, one per entry |
| PyValue.OrChain | tavily_adapter.py:104-106 | `a or b or c or d` is the first truthy of `a, b, c`, else `d` |
| PyValue.OrChain3 | tavily_adapter.py:105-107 | `a or b or c` is the first truthy of `a, b`, else `c` |
| Claims.FirstBreak | crewai_agents.py:106 | the next place `(?<=[.!?])\s+` matches: a break there, and none before it |
| Claims.SplitSentences | crewai_agents.py:106 | `re.split` returns at least one piece |
| Claims.SplitCovers | crewai_agents.py:106 | the pieces of `re.split`, in order, interleaved with one separator each, give back the text; each separator is a non-empty whitespace run right after a terminator and not followed by more whitespace (a trailing run leaves a final empty piece) |
| Claims.SplitPiecesUnbroken | crewai_agents.py:106 | no piece of the split contains a terminator followed by whitespace |
| Claims.KeepLong | crewai_agents.py:108 | every kept sentence is the stripped form of some piece |
| Claims.KeepLongLong | crewai_agents.py:108 | every kept sentence has at least 20 characters |
| Claims.SentencesShape | crewai_agents.py:104-108 | every sentence of `_sentences_from_text` is trimmed, at least 20 characters long, and holds no terminator followed by whitespace |
| Claims.BlankTextHasNoSentences | crewai_agents.py:104-108 | an empty or whitespace-only snippet yields no sentence |
| Claims.CollapseSpaces | crewai_agents.py:113 | `re.sub(r"\s+", " ")` is empty exactly for empty input and starts with a space exactly when the input starts with whitespace |
| Claims.KeepClaimChars | crewai_agents.py:114 | after `re.sub(r"[^a-z0-9 .,]", "")` only `[a-z0-9 .,]` remains |
| Claims.NormalizeShape | crewai_agents.py:111-116 | a normalised claim holds only `[a-z0-9 .,]` and neither starts nor ends with a space |
| Claims.StripKeepsChars | crewai_agents.py:115 | the final `strip()` keeps the character class and leaves the string trimmed |
| Claims.NormalizeNotIdempotent | crewai_agents.py:111-116 | normalisation is not idempotent: `"a - b"` becomes `"a  b"`, whose normal form is `"a b"` |
| Claims.KeepConcat | crewai_agents.py:114 | character filtering distributes over concatenation |
| Claims.TrimStartConcat | crewai_agents.py:115 | `lstrip` of a concatenation skips an all-whitespace prefix and otherwise strips only the prefix |
| Claims.CollapseConcat | crewai_agents.py:113 | whitespace collapsing distributes over a concatenation that does not join two whitespace runs |
| Claims.DroppedCharVanishes | crewai_agents.py:111-116 | a character that is neither whitespace nor kept (such as `%`) vanishes without trace, unless it separated two whitespace runs |
| Claims.SurveySentencesAgree | tests/test_verification.py:4-14 | the two survey sentences, with `70%` and with `70`, normalise to the same claim |
| Verification.ClaimsOfSentences | crewai_agents.py:124-127 | every claim kept has at least 40 characters |
| Verification.AddBackerValid | crewai_agents.py:128-131 | `setdefault` plus the guarded append keeps the map a dict of non-empty, url-distinct source lists |
| Verification.AddClaimsValid | crewai_agents.py:124-131 | adding one source's claims keeps the map valid |
| Verification.BuildValid | crewai_agents.py:120-131 | the claim map is a dict whose keys are listed once each, with non-empty, url-distinct source lists |
| Verification.FirstFit | crewai_agents.py:146-159 | the cluster a claim joins is the first whose representative it matches; no earlier one matches |
| Verification.Place | crewai_agents.py:144-162 | placing a claim keeps every cluster founded by its first member and made of claim-map keys |
| Verification.ClusterClaims | crewai_agents.py:134-162 | clustering all keys yields well-formed clusters |
| Verification.DedupByUrl | crewai_agents.py:172-179 | the supporting sources have pairwise different urls |
| Verification.DedupSubset | crewai_agents.py:172-179 | every supporting source is one of the sources listed under a member |
| Verification.LongestIndex | crewai_agents.py:192 | `max(members, key=len)` picks the first member of greatest length |
| Verification.EntitySets | crewai_agents.py:184 | one entity set per supporting source, from its snippet text |
| Verification.NonEmptySets | crewai_agents.py:188 | the filtered list holds exactly the non-empty sets |
| Verification.IntersectAll | crewai_agents.py:188 | an entity is in the intersection exactly when it is in every set |
| Verification.MapSources | crewai_agents.py:120-131 | every source listed under a claim is an input that produced that claim |
| Verification.MapOf | crewai_agents.py:120-131 | the claim map of the inputs is valid and lists only well-typed sources |
| Verification.ClustersOf | crewai_agents.py:134-162 | the clusters of the inputs are well formed over that claim map |
| ClaimMapProperties.Firsts | crewai_agents.py:128-134 | first occurrences keep the same set of claims |
| ClaimMapProperties.FirstsDistinct | crewai_agents.py:134 | the keys in insertion order are pairwise different |
| ClaimMapProperties.AddBackerKeys | crewai_agents.py:128 | `setdefault` appends a new claim to the keys and leaves an existing one where it is |
| ClaimMapProperties.AddBackerCovers | crewai_agents.py:130-131 | after the guarded append, a source with the new source's url is listed under the claim |
| ClaimMapProperties.AddBackerGrows | crewai_agents.py:128-131 | a key's source list is only ever extended |
| ClaimMapProperties.MapKeys | crewai_agents.py:120-134 | the keys are the claims of all sources in the order first met |
| ClaimMapProperties.MapComplete | crewai_agents.py:120-131 | every claim of every source is a key listing a source with that source's url |
| ClaimMapProperties.MapOfKeys | crewai_agents.py:120-131 | a claim is a key exactly when some input produces it |
| ClaimMapProperties.MapOfSound | crewai_agents.py:120-131 | a source listed under a claim is an input that produces the claim |
| ClusterProperties.PlaceShape | crewai_agents.py:144-162 | placing a claim appends it to one cluster's members or appends a new cluster `{rep: c, members: [c]}` |
| ClusterProperties.PlaceMembers | crewai_agents.py:144-162 | placing a claim adds exactly one member, that claim |
| ClusterProperties.ClusterPartition | crewai_agents.py:134-162 | the clusters partition the keys: as many members as keys, the same claims, and no more clusters than keys |
| ClusterProperties.PlaceFirstFit | crewai_agents.py:146-159 | placing keeps every member in the earliest cluster whose representative it matched |
| ClusterProperties.ClusterFirstFit | crewai_agents.py:144-162 | each claim joined the earliest cluster whose representative it matched, or founded one |
| ClusterProperties.ClusterGrowth | crewai_agents.py:144-162 | later claims only add members to existing clusters or add clusters, and representatives never change |
| ClusterProperties.FallbackMatches | crewai_agents.py:153-154 | without rapidfuzz a claim matches exactly when one string contains the other |
| ClusterProperties.PlaceUrls | crewai_agents.py:155-161 | each cluster's url set stays the urls of its members' sources |
| ClusterProperties.ClusterUrls | crewai_agents.py:144-162 | after clustering, each url set is the urls of the members' sources |
| ClusterProperties.DedupUrls | crewai_agents.py:172-179 | keeping only the first source per url keeps every url |
| ClusterProperties.DistinctUrlCount | crewai_agents.py:172-179 | url-distinct sources have as many urls as sources |
| ClusterProperties.SupportMatchesUrls | crewai_agents.py:170-181 | a cluster's supporting sources are exactly one per url of `cl["sources"]` |
| FactProperties.GatePasses | crewai_agents.py:183-190 | the gate keeps a fact exactly when there is a source and an entity common to all non-empty entity sets |
| FactProperties.GateRaises | crewai_agents.py:183-190 | the gate raises exactly when there are sources and all their entity sets are empty |
| FactProperties.DecideFact | crewai_agents.py:181-193 | a fact made from a cluster has the cluster's support, at least `min_support` url-distinct sources, the first longest member as its claim, and with the gate an entity shared by the sources |
| FactProperties.DecideRaises | crewai_agents.py:181-190 | a cluster raises exactly when the gate is on, its support reaches `min_support`, there is a source, and every entity set is empty |
| FactProperties.DecideWithoutGate | crewai_agents.py:181-193 | without the gate a cluster yields its fact exactly when its support reaches `min_support` |
| FactProperties.CandidatesSound | crewai_agents.py:169-193 | every candidate fact is the fact of some cluster |
| FactProperties.CandidatesRaise | crewai_agents.py:169-193 | collecting the facts raises exactly when some cluster raises |
| FactProperties.ClusterRaises | crewai_agents.py:169-193 | a raising cluster makes the whole collection raise |
| FactProperties.RaisingCluster | crewai_agents.py:169-193 | when the collection raises, some cluster raises |
| FactProperties.GateOnlyRemoves | crewai_agents.py:181-193 | without the gate nothing raises; with it the facts are a subsequence of those without it |
| FactProperties.CandidatesComplete | crewai_agents.py:169-193 | a fact that some cluster yields is among the candidates |
| FactProperties.ClusterFactSound | crewai_agents.py:118-193 | a fact made from a cluster of `verify_facts` is sound: enough url-distinct input sources, a claim of at least 40 characters produced by an input whose url is supporting, and with the gate a shared entity |
| FactProperties.SupportFromInputs | crewai_agents.py:172-179 | every supporting source is an input |
| FactProperties.ClaimBacked | crewai_agents.py:120-179 | a member's claim is at least 40 characters long and is produced by an input whose url is in the support |
| FactProperties.VerifiedFactsSound | crewai_agents.py:118-198 | every fact `verify_facts` returns is sound |
| FactProperties.VerifiedFactsFromClusters | crewai_agents.py:169-193 | each returned fact's claim is the first longest member of a cluster, and its sources are that cluster's support |
| FactProperties.VerifyRanked | crewai_agents.py:196 | the facts are ordered by support, largest first, are a permutation of the candidates, and keep cluster order among equal supports |
| FactProperties.VerifyGateOnlyRemoves | crewai_agents.py:118-198 | without the gate `verify_facts` never raises; with it, if it returns, it returns a subsequence of the ungated facts |
| FactProperties.VerifyRaises | crewai_agents.py:183-190 | with the gate on, `verify_facts` raises exactly when some cluster has enough support but no entity in any supporting snippet |
| Ranking.Insert | crewai_agents.py:196 | an insertion adds one element and keeps the rest |
| Ranking.SortDesc | crewai_agents.py:196 | the sort keeps the length and is a permutation |
| Ranking.InsertSorted | crewai_agents.py:196 | inserting into a descending list keeps it descending |
| Ranking.SortDescCorrect | crewai_agents.py:196 | `sort(key, reverse=True)` is descending, a permutation, and stable (equal keys keep their order) |
| Ranking.SortMonotone | crewai_agents.py:196 | sorting preserves the subsequence relation, so dropping facts before the sort drops them after it |
| Analyst.SkipSentence | crewai_agents.py:126-127 | a sentence whose claim is shorter than 40 adds no claim |
| Analyst.KeepSentence | crewai_agents.py:125-131 | a sentence whose claim is long enough adds that claim at the end |
| Analyst.FirstFitAt | crewai_agents.py:146-159 | the inner loop with `break` stops at the first matching cluster |
| Analyst.CandidatesErrPrefix | crewai_agents.py:169-193 | once a cluster raises, the rest of the loop does not matter |
| Analyst.AddSource | crewai_agents.py:128-131 | one claim of one source is added as the claim map specification says |
| Analyst.AddSentences | crewai_agents.py:124-131 | the inner loop adds exactly the long-enough normalised claims of the sentences, in order |
| Analyst.AddSourceClaims | crewai_agents.py:121-131 | one pass of the outer loop adds exactly the claims of that source's snippet |
| Analyst.CollectClaims | crewai_agents.py:120-131 | the loops build exactly the claim map specification |
| Analyst.AddUrls | crewai_agents.py:156-157 | the url set gains exactly the urls of the claim's sources |
| Analyst.PlaceClaim | crewai_agents.py:145-162 | one pass of the clustering loop places the claim as `Place` says |
| Analyst.ClusterKeys | crewai_agents.py:134-162 | the clustering loop yields exactly `ClusterClaims` of the keys |
| Analyst.AddUnseen | crewai_agents.py:174-179 | the inner loop appends the sources with unseen urls and tracks the seen urls |
| Analyst.Supporting | crewai_agents.py:172-179 | the supporting sources are exactly the url-deduplicated sources of the members |
| Analyst.DecideCluster | crewai_agents.py:172-193 | one cluster's pass yields its fact, nothing, or the gate's error, as `Decide` says |
| Analyst.CollectFacts | crewai_agents.py:169-193 | the loop over the clusters yields exactly the candidates, stopping at the first raise |
| Analyst.VerifyFacts | crewai_agents.py:118-198 | `verify_facts` computes the specification `Verify`; without the gate it never raises; every fact it returns is sound |
| Analyst.VerifySound | crewai_agents.py:118-198 | without the gate `Verify` succeeds, and every fact it returns is sound |
| Corroboration.ClusterOfClaim | crewai_agents.py:144-181 | the cluster holding a claim listed with two different urls has at least two supporting sources |
| Corroboration.RankedFactOf | crewai_agents.py:181-196 | such a cluster's fact is in the ranking, with a claim at least as long as the claim |
| Corroboration.KeyOfTwo | crewai_agents.py:120-131 | a claim of two sources is a key listing both their urls |
| Corroboration.TwoSourcesVerified | crewai_agents.py:118-198 | a claim produced by two sources with different urls yields, for `min_support <= 2` and no gate, a fact with two or more sources and a claim at least as long, whatever the similarity measure |
| Entities.LetterRunEnd | crewai_agents_helpers.py:35 | the end of the maximal run of ASCII letters |
| Entities.SpaceRunEnd | crewai_agents_helpers.py:35 | the end of the maximal run of whitespace (`\s+`) |
| Entities.ChainEnd | crewai_agents_helpers.py:35 | the greedy `(?:\s+[A-Z][a-zA-Z]{2,})*` ends at or after its start and within the text |
| Entities.MatchEnd | crewai_agents_helpers.py:35 | a match is at least three characters long |
| Entities.ExtractEntities | crewai_agents_helpers.py:24-36 | empty text has no entities |
| Entities.MatchPhrase | crewai_agents_helpers.py:35 | every match is a phrase of capitalised words of at least three letters, between word boundaries |
| Entities.FindAllSound | crewai_agents_helpers.py:35 | every string `re.findall` returns is a phrase of the text between word boundaries |
| Entities.EntitySound | crewai_agents_helpers.py:35-36 | every entity is the lowercased form of such a phrase of the text |
| Entities.EntitiesLowercase | crewai_agents_helpers.py:36 | entities hold no upper-case ASCII letter |
| Entities.NoUpperNoEntities | crewai_agents_helpers.py:35-36 | text without an upper-case ASCII letter has no entities |
| Entities.SomeMatchSomeEntity | crewai_agents_helpers.py:35-36 | text in which a match starts somewhere has at least one entity |
| Entities.EntitiesAtMostMatches | crewai_agents_helpers.py:35-36 | the set has at most as many entities as there were matches |
| MockSearch.SampleCount | crewai_agents.py:57-63 | the mock has five sample snippets |
| MockSearch.ReplaceSpaces | crewai_agents.py:68 | `topic.replace(' ', '_')` keeps the length and replaces exactly the spaces |
| MockSearch.Search | crewai_agents.py:56-74 | `search(topic, limit)` returns `limit` sources (none for a negative limit), the `i`-th being the mock source of round `i` |
| MockSearch.MockUrlsDistinct | crewai_agents.py:68 | different rounds get different urls |
| MockSearch.MockSnippetsCycle | crewai_agents.py:69 | rounds five apart repeat the same snippet |
| MockSearch.MockWellTyped | crewai_agents.py:65-73 | the mock's sources are text-valued with pairwise different urls |
| MockSearch.SliceTo | crewai_agents.py:99 | Python's `s[:k]` is a prefix of the expected length, also for negative `k` |
| MockSearch.SearchAndCollect | crewai_agents.py:95-101 | the selected sources are the mock's first rounds, `min(top_k, limit)` of them for non-negative `top_k` |
| MockSearch.Run | crewai_agents.py:200-203 | `run` verifies the collected sources with `min_support` 2, threshold 80 and no gate, never raises, and every fact has at least two sources |
| MockSearch.SameSnippetSameClaims | crewai_agents.py:121-131 | two sources with the same snippet produce the same claims |
| MockSearch.SharedSnippetVerified | crewai_agents.py:118-198 | two sources sharing a claim-producing snippet under different urls make `verify_facts` return at least one fact |
| MockSearch.SixSourcesVerify | tests/test_agents.py:5-11 | with six sources from the mock, rounds 0 and 5 share a snippet under different urls, so `run` returns at least one fact whenever that snippet yields a claim |
| Tavily.EnvGet | tavily_adapter.py:39-40 | `os.environ.get` is a string or None |
| Tavily.NewClientKey | tavily_adapter.py:38-44 | the constructor succeeds exactly when the argument or `TAVILY_API_KEY` is truthy, raising `TavilyError` otherwise, and keeps the first truthy key |
| Tavily.NewClientBase | tavily_adapter.py:40 | the base url is the first non-empty of the argument and `TAVILY_API_BASE`, else `https://api.tavily.ai` |
| Tavily.SelectResultsShape | tavily_adapter.py:88-94 | a dict with a non-None `results`, or a top-level list, is accepted as the result list; anything else raises `TavilyError` |
| Tavily.DictItems | tavily_adapter.py:102-103 | only dict items are parsed |
| Tavily.Chars | tavily_adapter.py:101 | slicing a string gives one-character strings, never dicts |
| Tavily.ParseItem | tavily_adapter.py:104-108 | the `or` chains compute the reference reading of each field, and `metadata` is the item |
| Tavily.ParseItems | tavily_adapter.py:100-109 | the loop parses exactly the dict items, in order |
| Tavily.ParseResultsOf | tavily_adapter.py:98-109 | `_parse_results` returns the parsed sources of a list or a string and raises `TypeError` when `results[:]` is not defined |
| Tavily.HandleResponse | tavily_adapter.py:87-96 | an unexpected response raises `TavilyError`; otherwise the chosen result list is parsed |
| Tavily.ParsedItems | tavily_adapter.py:100-109 | one source per dict item, in input order, each the reference reading of its item and carrying it as metadata |
| Tavily.StringResultsEmpty | tavily_adapter.py:101-103 | a string result list yields no sources |
| Tavily.NoDictsParseEmpty | tavily_adapter.py:102-103 | items none of which is a dict yield no sources |
| Tavily.ParsedTitle | tavily_adapter.py:104 | every title is truthy, and it is `"Untitled"` when `title`, `headline` and `name` are all falsy |
| Tavily.ParsedUrl | tavily_adapter.py:105 | the url is truthy exactly when one of `url`, `link`, `uri` is, and is None when all three are absent |
| Tavily.ItemWellTyped | tavily_adapter.py:104-108 | an item with textual url and snippet keys parses into a source `verify_facts` accepts |
| Tavily.ParsedWellTyped | tavily_adapter.py:100-109 | such items parse into sources `verify_facts` accepts |
| AgentsCore.StoreGet | agents_core.py:62 | `dict.get` of an absent key is None |
| AgentsCore.Iterate | agents_core.py:147-150 | `list(v)` of a list is its items, and it raises `TypeError` exactly for None, booleans and integers |
| AgentsCore.GetAfterSet | agents_core.py:58-62 | after `set(k, v)`, `get(k)` is `v` and every other key reads as before |
| AgentsCore.ListOfShape | agents_core.py:69-70 | `get_list` of an absent or falsy key is `[]`, and of a list its items |
| AgentsCore.AppendThenList | agents_core.py:64-70 | `append_to_list` succeeds exactly on an absent, falsy or list value, raises `AttributeError` otherwise, makes `get_list` grow by the value, and leaves other keys alone |
| AgentsCore.AppendReplacesFalsy | agents_core.py:65-67 | a falsy stored value is replaced by a one-element list |
| AgentsCore.AppendTwice | tests/test_memory_and_llm.py:7-13 | appending 1 and then 2 to a fresh key gives the list `[1, 2]` |
| AgentsCore.InMemoryMemory.constructor | agents_core.py:55-56 | a new memory is empty |
| AgentsCore.InMemoryMemory.Set | agents_core.py:58-59 | `set` stores the value under the key and changes nothing else |
| AgentsCore.InMemoryMemory.Get | agents_core.py:61-62 | `get` returns the stored value, or None for an absent key |
| AgentsCore.InMemoryMemory.AppendToList | agents_core.py:64-67 | `append_to_list` stores the appended list, or raises `AttributeError` with nothing stored |
| AgentsCore.InMemoryMemory.GetList | agents_core.py:69-70 | `get_list` is `[]` for a falsy value, the items of a list, and raises for a truthy number |
| AgentsCore.ToolRegistry.constructor | agents_core.py:26-27 | a new registry is empty |
| AgentsCore.ToolRegistry.Register | agents_core.py:29-30 | `register` binds the name to the tool, replacing any earlier binding, and nothing else |
| AgentsCore.ToolRegistry.Get | agents_core.py:32-33 | `get` returns the registered tool exactly when the name is registered, and raises `KeyError` otherwise |
| AgentsCore.RegistryLookup | agents_core.py:29-33 | registering one name leaves every other lookup as it was |
| AgentsCore.DefaultObserve | agents_core.py:152-155 | the default observation is a dict whose `result` is the result |
| AgentsCore.Observations | agents_core.py:166 | one observation per result, in order |
| AgentsCore.StepRecords | agents_core.py:165-168 | a round whose tool runs records its result and appends its observation to the history |
| AgentsCore.RunHistory | agents_core.py:161-169 | a run that does not raise returns one result per action in plan order, grows the history by the observations in that order, and leaves every other key alone |
| AgentsCore.RunCompletes | agents_core.py:161-169 | on an appendable history key the run completes exactly when every action's tool runs |
| AgentsCore.FirstFailure | agents_core.py:161-169 | a run that raises raises the error of the first failing action, after running every action before it |
| AgentsCore.RunStopped | agents_core.py:164-168 | once an action raises, no later action runs |
| AgentsCore.OneSearchRecorded | tests/test_run_agent_flow.py:6-28 | a plan of one search action with positional arguments and a `limit` keyword records exactly that action's observation in a fresh history |
| AgentsCore.Agent.constructor | agents_core.py:134-138 | the agent keeps its name and tools, uses the given memory or a fresh empty one, and its history key is `agent:<name>:history` |
| AgentsCore.Agent.Act | agents_core.py:144-150 | `act` succeeds only for a registered string tool name; a list or dict name raises `TypeError` (unhashable), a None, boolean, integer or unregistered name raises `KeyError` |
| AgentsCore.Agent.Reflect | agents_core.py:157-159 | `reflect` appends the observation to the history, or raises `AttributeError` with the memory unchanged |
| AgentsCore.Agent.RunOnce | agents_core.py:161-169 | `run_once` leaves the memory as the specification `RunFrom` of the plan says, and returns its results or its exception |

## Left out

- `TavilyClient.search` (`tavily_adapter.py:59-86`): the SDK and HTTP calls are I/O. The model starts from the decoded response (`Tavily.HandleResponse`). Authorization headers, retries and timeouts are not modelled.
- The Redis-backed memory, `make_memory`, the Tavily cache and metrics, and the LLM adapters are not part of this model. They are external services.
- The writer agent, the report file, the team runner and the key-validation script are not part of this model. They do file I/O and orchestration.
- Logging calls are left out: they do not affect results.
- spaCy NER (`crewai_agents_helpers.py:28-33`) is not modelled: it is a foreign model. `verify_facts` takes the entity extractor as a parameter, and exceptions raised by an extractor are not modelled.
- rapidfuzz's `token_sort_ratio` is an arbitrary function into reals, not computed. Every lemma about `verify_facts` holds for any such function.
- Entities.ExtractEntities: `[A-Z]`, `[a-zA-Z]` and the `\b` test use ASCII letters, digits and `_`. Python's `\w` also counts non-ASCII letters and digits as word characters.
- Text.Lower: lowercases ASCII letters only. Python's Unicode case mapping is not modelled.
- Tools are pure functions of their arguments. A tool that raises or has side effects is not modelled.
- `plan` is a parameter of the agent, so the `NotImplementedError` of the base class is not modelled.
- Registry names are strings. An action whose `tool` is None, a boolean or an integer raises `KeyError` (`agents_core.py:33`), and one whose `tool` is a list or a dict raises `TypeError` because it cannot be hashed; `AgentsCore.ActOn` models both.
- Python list aliasing is not modelled. `append_to_list` mutates the list object it read, and `metadata=item` shares the item dict. The model treats both as values.
- MockSearch.SixSourcesVerify: does not compute the claims of the literal topic "Test Topic". It assumes the shared snippet yields a claim (`ClaimLists(sources)[0] != []`). As a result, `len(verified) >= 1` in `tests/test_agents.py` is proved only under that hypothesis.
- `datetime.date(...).isoformat()` is modelled as the decimal year followed by `-01-01` (`MockSearch.Published`). It holds for the years 2022-2024 the mock uses.
- Python objects of other types (floats, tuples, user classes) are not values of the model.
- Analyst.VerifyFacts: requires every source to satisfy `Verification.WellTyped`, which follows the declared `url: str` and `snippet: str` of `Source` (`crewai_agents.py:29-34`). The error paths this excludes are not modelled: a truthy non-string snippet makes `text.strip()` raise `AttributeError` (`crewai_agents.py:106`), and a list or dict url makes the url set raise `TypeError` because it cannot be hashed (`crewai_agents.py:157-161`). Integer and boolean urls would run in Python, compared by value with `1 == True`; they are left out because the equality of `Value` does not identify `1` with `True`.
