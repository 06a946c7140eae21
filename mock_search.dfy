/**
 * The mock search client and the analyst's collection step: `search` makes
 * `limit` synthetic sources that cycle through five sample sentences about
 * the topic, each with its own url; `search_and_collect` keeps the first
 * `top_k` of them; `run` verifies what was collected with the default
 * settings of `verify_facts`.
 */
module MockSearch {
  import opened Wrappers
  import opened PyValue
  import opened Text
  import opened Verification
  import Analyst
  import Corroboration

  /** The five sample snippets, each naming the topic. */
  function SampleSnippets(topic: string): (r: seq<string>)
  {
    [ topic + " is primarily defined as an evolving area with multiple approaches."
    , "Recent research on " + topic + " highlights three main trends: efficiency, scalability, and privacy."
    , "Experts in " + topic + " recommend combining methods A and B for better results."
    , "A 2023 survey on " + topic + " found that 70% of practitioners adopt hybrid techniques."
    , "A study concluded that method X outperforms method Y on benchmarks for " + topic + "."
    ]
  }

  /** The mock cycles through five snippets. */
  lemma SampleCount(topic: string)
    ensures |SampleSnippets(topic)| == 5
  {
  }

  /** `s.replace(' ', '_')`. */
  function ReplaceSpaces(s: string): (r: string)
    ensures |r| == |s|
    ensures forall k :: 0 <= k < |s| ==> r[k] == if s[k] == ' ' then '_' else s[k]
  {
    if s == [] then [] else [if s[0] == ' ' then '_' else s[0]] + ReplaceSpaces(s[1..])
  }

  const UrlPrefix := "https://example.com/"

  /** `datetime.date(2022 + i % 3, 1, 1).isoformat()`. */
  function Published(i: nat): string
  {
    NatToString(2022 + i % 3) + "-01-01"
  }

  /** The url of the source numbered `i + 1`. */
  function MockUrl(topic: string, i: nat): string
  {
    UrlPrefix + ReplaceSpaces(topic) + "/" + NatToString(i + 1)
  }

  /** The source the loop of `search` builds in round `i`, cycling through `samples`. */
  function MockSource(topic: string, samples: seq<string>, i: nat): Source
    requires |samples| > 0
  {
    Source(VStr(topic + " - Article " + NatToString(i + 1)),
           VStr(MockUrl(topic, i)),
           VStr(samples[i % |samples|]),
           VStr(Published(i)),
           VDict([("rank", VInt(i + 1))]))
  }

  /** `range(limit)` is empty for a negative limit. */
  function RangeLength(limit: int): nat
  {
    if limit < 0 then 0 else limit
  }

  /** `MockTavilyClient.search(topic, limit)`: one source per round, appended in order. */
  method Search(topic: string, limit: int) returns (sources: seq<Source>)
    ensures |sources| == RangeLength(limit)
    ensures forall i :: 0 <= i < |sources| ==> sources[i] == MockSource(topic, SampleSnippets(topic), i)
  {
    var samples := SampleSnippets(topic);
    sources := [];
    var i := 0;
    while i < limit
      invariant 0 <= i && |sources| == i
      invariant if limit >= 0 then i <= limit else i == 0
      invariant forall k :: 0 <= k < i ==> sources[k] == MockSource(topic, samples, k)
    {
      sources := sources + [MockSource(topic, samples, i)];
      i := i + 1;
    }
  }

  /** Strings that agree after a common prefix agree. */
  lemma PrefixCancel(p: string, x: string, y: string)
    requires p + x == p + y
    ensures x == y
  {
    assert x == (p + x)[|p|..];
    assert y == (p + y)[|p|..];
  }

  /** Every round gets its own url. */
  lemma MockUrlsDistinct(topic: string, i: nat, j: nat)
    requires i != j
    ensures MockUrl(topic, i) != MockUrl(topic, j)
  {
    if MockUrl(topic, i) == MockUrl(topic, j) {
      var p := UrlPrefix + ReplaceSpaces(topic) + "/";
      PrefixCancel(p, NatToString(i + 1), NatToString(j + 1));
      NatToStringInjective(i + 1, j + 1);
    }
  }

  /** Rounds five apart repeat the same snippet. */
  lemma MockSnippetsCycle(topic: string, samples: seq<string>, i: nat)
    requires |samples| == 5
    ensures MockSource(topic, samples, i + 5).snippet == MockSource(topic, samples, i).snippet
  {
    assert (i + 5) % 5 == i % 5;
  }

  /** The sources the mock returns for `topic` in rounds `0 .. |sources| - 1`. */
  ghost predicate MockRounds(sources: seq<Source>, topic: string, samples: seq<string>)
  {
    |samples| > 0 && forall i :: 0 <= i < |sources| ==> sources[i] == MockSource(topic, samples, i)
  }

  /** The mock's sources are all text with pairwise different urls, so `verify_facts` accepts them. */
  lemma MockWellTyped(sources: seq<Source>, topic: string, samples: seq<string>)
    requires MockRounds(sources, topic, samples)
    ensures AllWellTyped(sources)
    ensures DistinctUrls(sources)
  {
    forall i, j | 0 <= i < j < |sources| ensures sources[i].url != sources[j].url {
      MockUrlsDistinct(topic, i, j);
    }
  }

  /** The analyst's settings: how many sources to ask for and how many to keep. */
  datatype ResearchAnalyst = ResearchAnalyst(searchLimit: int, topK: int)

  const DefaultAnalyst := ResearchAnalyst(20, 10)

  function Min(a: int, b: int): int { if a < b then a else b }

  function Max(a: int, b: int): int { if a < b then b else a }

  /** Python's `s[:k]`: the first `k` elements, or for negative `k` all but the last `-k`. */
  function SliceTo<T>(s: seq<T>, k: int): (r: seq<T>)
    ensures r <= s
    ensures |r| == if k >= 0 then Min(k, |s|) else Max(|s| + k, 0)
  {
    if k >= |s| then s
    else if k >= 0 then s[..k]
    else if -k < |s| then s[..|s| + k]
    else []
  }

  /** `search_and_collect`: the first `top_k` of the `search_limit` sources the mock returns. */
  method SearchAndCollect(analyst: ResearchAnalyst, topic: string) returns (selected: seq<Source>)
    ensures MockRounds(selected, topic, SampleSnippets(topic))
    ensures |selected| == if analyst.topK >= 0 then Min(analyst.topK, RangeLength(analyst.searchLimit))
                          else Max(RangeLength(analyst.searchLimit) + analyst.topK, 0)
  {
    var sources := Search(topic, analyst.searchLimit);
    selected := SliceTo(sources, analyst.topK);
  }

  /** `run`: the collected sources verified with `min_support` 2, `fuzzy_threshold` 80 and no entity gate. */
  method Run(analyst: ResearchAnalyst, topic: string, scorer: Scorer, entities: string -> set<string>)
    returns (sources: seq<Source>, facts: seq<VerifiedFact>)
    ensures MockRounds(sources, topic, SampleSnippets(topic))
    ensures AllWellTyped(sources)
    ensures Verify(sources, DefaultMinSupport, DefaultFuzzyThreshold, false, scorer, entities) == Ok(facts)
    ensures forall f :: f in facts ==> |f.supportingSources| >= DefaultMinSupport
  {
    sources := SearchAndCollect(analyst, topic);
    MockWellTyped(sources, topic, SampleSnippets(topic));
    var r := Analyst.VerifyFacts(sources, DefaultMinSupport, DefaultFuzzyThreshold, false, scorer, entities);
    facts := r.value;
  }

  /** Two sources with the same snippet produce the same claims. */
  lemma SameSnippetSameClaims(sources: seq<Source>, i: nat, j: nat)
    requires AllWellTyped(sources) && i < |sources| && j < |sources|
    requires sources[i].snippet == sources[j].snippet
    ensures ClaimLists(sources)[i] == ClaimLists(sources)[j]
  {
  }

  /** Two sources with the same snippet share a claim when that snippet yields one. */
  lemma SharedClaim(sources: seq<Source>, i: nat, j: nat) returns (c: string)
    requires AllWellTyped(sources) && i < |sources| && j < |sources|
    requires sources[i].snippet == sources[j].snippet
    requires ClaimLists(sources)[i] != []
    ensures c in ClaimLists(sources)[i] && c in ClaimLists(sources)[j]
  {
    ClaimListsAt(sources, i);
    ClaimListsAt(sources, j);
    var own := ClaimsOf(sources[i]);
    assert own == ClaimsOf(sources[j]);
    c := own[0];
  }

  lemma ClaimListsAt(sources: seq<Source>, i: nat)
    requires AllWellTyped(sources) && i < |sources|
    ensures WellTyped(sources[i]) && ClaimLists(sources)[i] == ClaimsOf(sources[i])
  {
  }

  /** Two sources with the same snippet and different urls verify a fact as soon as that snippet yields a claim. */
  lemma SharedSnippetVerified(sources: seq<Source>, minSupport: int, fuzzyThreshold: int,
                               scorer: Scorer, entities: string -> set<string>, i: nat, j: nat)
    requires AllWellTyped(sources) && i < |sources| && j < |sources|
    requires sources[i].snippet == sources[j].snippet && sources[i].url != sources[j].url
    requires ClaimLists(sources)[i] != [] && minSupport <= 2
    ensures Verify(sources, minSupport, fuzzyThreshold, false, scorer, entities).Ok?
    ensures |Verify(sources, minSupport, fuzzyThreshold, false, scorer, entities).value| >= 1
  {
    var c := SharedClaim(sources, i, j);
    Corroboration.TwoSourcesVerified(sources, minSupport, fuzzyThreshold, scorer, entities, i, j, c);
  }

  /**
   * With the settings of the analyst test (six sources asked for, six kept),
   * the first and sixth sources share a snippet under different urls, so as
   * soon as that snippet yields a claim `run` verifies at least one fact,
   * whatever the similarity measure.
   */
  lemma SixSourcesVerify(topic: string, samples: seq<string>, sources: seq<Source>,
                         scorer: Scorer, entities: string -> set<string>)
    requires MockRounds(sources, topic, samples) && |samples| == 5 && |sources| == 6
    requires AllWellTyped(sources) && ClaimLists(sources)[0] != []
    ensures Verify(sources, DefaultMinSupport, DefaultFuzzyThreshold, false, scorer, entities).Ok?
    ensures |Verify(sources, DefaultMinSupport, DefaultFuzzyThreshold, false, scorer, entities).value| >= 1
  {
    assert sources[0] == MockSource(topic, samples, 0) && sources[5] == MockSource(topic, samples, 5);
    MockSnippetsCycle(topic, samples, 0);
    MockUrlsDistinct(topic, 0, 5);
    SharedSnippetVerified(sources, DefaultMinSupport, DefaultFuzzyThreshold, scorer, entities, 0, 5);
  }
}
