/**
 * The fact-verification pipeline of the senior research analyst
 * (`verify_facts`): claims are extracted from every source's snippet, mapped
 * to the sources behind them, clustered first-fit against fixed
 * representatives, and every cluster supported by enough distinct sources
 * (optionally sharing an entity) becomes a verified fact; the facts are then
 * ranked by support, largest first.
 *
 * The similarity measure and the entity extractor are parameters: the
 * pipeline uses rapidfuzz's `token_sort_ratio` when it is installed and a
 * substring test otherwise, and the entity extractor is a module-level
 * function that callers may replace.
 */
module Verification {
  import opened Wrappers
  import opened PyValue
  import opened Text
  import opened Claims
  import Ranking

  /** A search result. Python does not enforce the field annotations, so every field holds a value. */
  datatype Source = Source(title: Value, url: Value, snippet: Value, published: Value, metadata: Value)

  datatype VerifiedFact = VerifiedFact(claim: string, supportingSources: seq<Source>)

  /** `set.intersection()` called with no sets raises a `TypeError`. */
  datatype VerifyError = IntersectionOfNothing

  /** The default `min_support` and `fuzzy_threshold` of `verify_facts`. */
  const DefaultMinSupport := 2
  const DefaultFuzzyThreshold := 80

  /**
   * The sources `verify_facts` is modelled on, following the declared
   * `url: str` and `snippet: str` of `Source`: the snippet is text or falsy
   * (a truthy non-string snippet makes `text.strip()` raise
   * `AttributeError`), and the url is a string or None. Integer and boolean
   * urls are left out: Python compares them by value with `1 == True`,
   * which the equality of `Value` does not do.
   */
  predicate WellTyped(src: Source)
  {
    (src.url.VStr? || src.url.VNone?) && (!Truthy(src.snippet) || src.snippet.VStr?)
  }

  predicate AllWellTyped(sources: seq<Source>)
  {
    forall s :: s in sources ==> WellTyped(s)
  }

  /** `src.snippet or ""`. */
  function SnippetText(src: Source): string
    requires WellTyped(src)
  {
    if Truthy(src.snippet) then src.snippet.s else ""
  }

  // ---------------------------------------------------------------------
  // Step 1 and 2: sentences to claims

  /** The normalised claims of these sentences that are long enough, in order. */
  function ClaimsOfSentences(sents: seq<string>): (cs: seq<string>)
    ensures forall c :: c in cs ==> |c| >= MinClaimLength
  {
    if sents == [] then []
    else
      var norm := NormalizeClaim(sents[|sents| - 1]);
      ClaimsOfSentences(sents[..|sents| - 1]) + (if |norm| < MinClaimLength then [] else [norm])
  }

  /** The claims one source contributes. */
  function ClaimsOf(src: Source): seq<string>
    requires WellTyped(src)
  {
    ClaimsOfSentences(SentencesFromText(SnippetText(src)))
  }

  // ---------------------------------------------------------------------
  // Step 3: the claim map

  /** `claim_map`: its keys in insertion order, and the sources behind each key. */
  datatype ClaimMap = ClaimMap(keys: seq<string>, backers: map<string, seq<Source>>)

  /** Some source in `srcs` has this url. */
  predicate HasUrl(srcs: seq<Source>, url: Value)
  {
    exists k :: 0 <= k < |srcs| && srcs[k].url == url
  }

  predicate DistinctUrls(srcs: seq<Source>)
  {
    forall i, j :: 0 <= i < j < |srcs| ==> srcs[i].url != srcs[j].url
  }

  ghost predicate DistinctKeys(keys: seq<string>)
  {
    forall i, j :: 0 <= i < j < |keys| ==> keys[i] != keys[j]
  }

  /** A dict's shape: every key once, in the map, with a non-empty, url-distinct source list. */
  ghost predicate ValidMap(cm: ClaimMap)
  {
    && DistinctKeys(cm.keys)
    && (forall c :: c in cm.backers <==> c in cm.keys)
    && (forall c :: c in cm.backers ==> cm.backers[c] != [] && DistinctUrls(cm.backers[c]))
  }

  /** `claim_map.setdefault(norm, [])` followed by the append unless a source with that url is already there. */
  function AddBacker(cm: ClaimMap, claim: string, src: Source): ClaimMap
  {
    if claim !in cm.backers then ClaimMap(cm.keys + [claim], cm.backers[claim := [src]])
    else if HasUrl(cm.backers[claim], src.url) then cm
    else ClaimMap(cm.keys, cm.backers[claim := cm.backers[claim] + [src]])
  }

  /** Adding a backer keeps the map a dict of url-distinct lists, and lists a source with that url under the claim. */
  lemma AddBackerValid(cm: ClaimMap, claim: string, src: Source)
    requires ValidMap(cm)
    ensures ValidMap(AddBacker(cm, claim, src))
  {
    if claim !in cm.backers {
      assert [src][0].url == src.url;
      assert forall i :: 0 <= i < |cm.keys| ==> cm.keys[i] in cm.backers;
    } else if !HasUrl(cm.backers[claim], src.url) {
      var srcs := cm.backers[claim] + [src];
      assert srcs[|srcs| - 1].url == src.url;
      assert forall k :: 0 <= k < |srcs| - 1 ==> srcs[k].url != src.url;
    }
  }

  /** The inner loop of step 3: the claims of `src` added in order. */
  function AddClaims(cm: ClaimMap, claims: seq<string>, src: Source): ClaimMap
  {
    if claims == [] then cm
    else AddBacker(AddClaims(cm, claims[..|claims| - 1], src), claims[|claims| - 1], src)
  }

  lemma {:induction false} AddClaimsValid(cm: ClaimMap, claims: seq<string>, src: Source)
    requires ValidMap(cm)
    ensures ValidMap(AddClaims(cm, claims, src))
  {
    if claims != [] {
      AddClaimsValid(cm, claims[..|claims| - 1], src);
      AddBackerValid(AddClaims(cm, claims[..|claims| - 1], src), claims[|claims| - 1], src);
    }
  }

  /** The claims of every source, source by source. */
  function ClaimLists(sources: seq<Source>): (r: seq<seq<string>>)
    requires AllWellTyped(sources)
  {
    seq(|sources|, i requires 0 <= i < |sources| => ClaimsOf(sources[i]))
  }

  /** The claim map built from `sources`, whose claims are `lists`, in order. */
  function BuildClaimMap(sources: seq<Source>, lists: seq<seq<string>>): ClaimMap
    requires |lists| == |sources|
  {
    if sources == [] then ClaimMap([], map[])
    else
      var n := |sources| - 1;
      AddClaims(BuildClaimMap(sources[..n], lists[..n]), lists[n], sources[n])
  }

  /** The claim map is a dict whose keys are listed once each, with non-empty, url-distinct source lists. */
  lemma {:induction false} BuildValid(sources: seq<Source>, lists: seq<seq<string>>)
    requires |lists| == |sources|
    ensures ValidMap(BuildClaimMap(sources, lists))
  {
    if sources != [] {
      var n := |sources| - 1;
      BuildValid(sources[..n], lists[..n]);
      AddClaimsValid(BuildClaimMap(sources[..n], lists[..n]), lists[n], sources[n]);
    }
  }

  // ---------------------------------------------------------------------
  // Step 4: first-fit clustering

  /** A cluster: its representative, fixed when it is created, its members and their urls. */
  datatype Cluster = Cluster(rep: string, members: seq<string>, urls: set<Value>)

  /** The similarity measure: an injected 0..100 ratio, or the substring fallback. */
  datatype Scorer = Fuzzy(ratio: (string, string) -> real) | SubstringFallback

  /** The score of claim `c` against representative `rep`. */
  function Score(scorer: Scorer, c: string, rep: string): real
  {
    match scorer
    case Fuzzy(ratio) => ratio(c, rep)
    case SubstringFallback => if IsSubstring(c, rep) || IsSubstring(rep, c) then 100.0 else 0.0
  }

  predicate Matches(scorer: Scorer, threshold: int, c: string, rep: string)
  {
    Score(scorer, c, rep) >= threshold as real
  }

  /** The index of the first cluster at or after `i` whose representative `c` matches, or `|clusters|`. */
  function FirstFit(clusters: seq<Cluster>, c: string, scorer: Scorer, threshold: int, i: nat): (k: nat)
    requires i <= |clusters|
    ensures i <= k <= |clusters|
    ensures k < |clusters| ==> Matches(scorer, threshold, c, clusters[k].rep)
    ensures forall j :: i <= j < k ==> !Matches(scorer, threshold, c, clusters[j].rep)
    decreases |clusters| - i
  {
    if i == |clusters| || Matches(scorer, threshold, c, clusters[i].rep) then i
    else FirstFit(clusters, c, scorer, threshold, i + 1)
  }

  /** The urls of a list of sources. */
  function UrlsOf(srcs: seq<Source>): set<Value>
  {
    set k | 0 <= k < |srcs| :: srcs[k].url
  }

  /** Every cluster has its founder as first member, and all its members are claim-map keys. */
  ghost predicate WellFormed(clusters: seq<Cluster>, cm: ClaimMap)
  {
    forall i :: 0 <= i < |clusters| ==>
      && clusters[i].members != []
      && clusters[i].members[0] == clusters[i].rep
      && (forall m :: m in clusters[i].members ==> m in cm.backers)
  }

  /** Places claim `c`: into the first matching cluster, or into a new one. */
  function Place(clusters: seq<Cluster>, c: string, cm: ClaimMap, scorer: Scorer, threshold: int): (r: seq<Cluster>)
    requires c in cm.backers && WellFormed(clusters, cm)
    ensures WellFormed(r, cm)
  {
    var k := FirstFit(clusters, c, scorer, threshold, 0);
    if k < |clusters| then
      var cl := clusters[k];
      clusters[k := Cluster(cl.rep, cl.members + [c], cl.urls + UrlsOf(cm.backers[c]))]
    else
      clusters + [Cluster(c, [c], UrlsOf(cm.backers[c]))]
  }

  /** The clusters after placing `claims` in order. */
  function ClusterClaims(claims: seq<string>, cm: ClaimMap, scorer: Scorer, threshold: int): (r: seq<Cluster>)
    requires forall c :: c in claims ==> c in cm.backers
    ensures WellFormed(r, cm)
  {
    if claims == [] then []
    else Place(ClusterClaims(claims[..|claims| - 1], cm, scorer, threshold), claims[|claims| - 1], cm, scorer, threshold)
  }

  // ---------------------------------------------------------------------
  // Step 5: support, entity gate, representative claim, ranking

  /** The sources behind the members, member by member. */
  function Backers(members: seq<string>, cm: ClaimMap): seq<Source>
    requires forall m :: m in members ==> m in cm.backers
  {
    if members == [] then []
    else Backers(members[..|members| - 1], cm) + cm.backers[members[|members| - 1]]
  }

  /** The sources in order, each kept only if no earlier kept source has its url. */
  function DedupByUrl(srcs: seq<Source>): (r: seq<Source>)
    ensures DistinctUrls(r)
  {
    if srcs == [] then []
    else
      var before := DedupByUrl(srcs[..|srcs| - 1]);
      var last := srcs[|srcs| - 1];
      if HasUrl(before, last.url) then before else before + [last]
  }

  /** `supporting_srcs` of a cluster. */
  function Support(members: seq<string>, cm: ClaimMap): seq<Source>
    requires forall m :: m in members ==> m in cm.backers
  {
    DedupByUrl(Backers(members, cm))
  }

  /** `max(members, key=len)`: the index of the first longest member. */
  function LongestIndex(members: seq<string>): (i: nat)
    requires members != []
    ensures i < |members|
    ensures forall j :: 0 <= j < |members| ==> |members[j]| <= |members[i]|
    ensures forall j :: 0 <= j < i ==> |members[j]| < |members[i]|
  {
    if |members| == 1 then 0
    else
      var i := LongestIndex(members[..|members| - 1]);
      if |members[|members| - 1]| > |members[i]| then |members| - 1 else i
  }

  /** The entity sets of the snippets of these sources. */
  function EntitySets(srcs: seq<Source>, entities: string -> set<string>): (sets: seq<set<string>>)
    requires AllWellTyped(srcs)
    ensures |sets| == |srcs|
    ensures forall k :: 0 <= k < |srcs| ==> sets[k] == entities(SnippetText(srcs[k]))
  {
    if srcs == [] then []
    else [entities(SnippetText(srcs[0]))] + EntitySets(srcs[1..], entities)
  }

  /** `[es for es in entity_sets if es]`. */
  function NonEmptySets(sets: seq<set<string>>): (r: seq<set<string>>)
    ensures forall k :: 0 <= k < |r| ==> r[k] != {}
    ensures forall s :: s in r <==> s in sets && s != {}
  {
    if sets == [] then []
    else (if sets[0] != {} then [sets[0]] else []) + NonEmptySets(sets[1..])
  }

  /** `set.intersection(*sets)` for at least one set. */
  function IntersectAll(sets: seq<set<string>>): (r: set<string>)
    requires sets != []
    ensures forall e :: e in r <==> forall k :: 0 <= k < |sets| ==> e in sets[k]
  {
    if |sets| == 1 then sets[0]
    else sets[0] * IntersectAll(sets[1..])
  }

  /**
   * The entity gate of lines 183-190: `Ok(true)` keeps the fact; with no
   * non-empty entity set the intersection has no argument and raises.
   */
  function EntityGate(srcs: seq<Source>, entities: string -> set<string>): Result<bool, VerifyError>
    requires AllWellTyped(srcs)
  {
    var sets := EntitySets(srcs, entities);
    if sets == [] then Ok(false)
    else
      var nonEmpty := NonEmptySets(sets);
      if nonEmpty == [] then Err(IntersectionOfNothing) else Ok(IntersectAll(nonEmpty) != {})
  }

  ghost predicate ClaimsMapped(sources: seq<Source>, cm: ClaimMap)
  {
    forall c :: c in cm.backers ==> forall s :: s in cm.backers[c] ==> s in sources
  }

  /** The fact a cluster yields when it passes: its longest member and its support. */
  function FactOf(cl: Cluster, cm: ClaimMap): VerifiedFact
    requires cl.members != [] && forall m :: m in cl.members ==> m in cm.backers
  {
    VerifiedFact(cl.members[LongestIndex(cl.members)], Support(cl.members, cm))
  }

  /** What one cluster contributes: a fact, nothing, or the error the gate raises. */
  function Decide(cl: Cluster, cm: ClaimMap, minSupport: int, nerRequired: bool, entities: string -> set<string>)
    : Result<Option<VerifiedFact>, VerifyError>
    requires cl.members != [] && forall m :: m in cl.members ==> m in cm.backers
    requires forall m :: m in cl.members ==> AllWellTyped(cm.backers[m])
  {
    var supp := Support(cl.members, cm);
    if |supp| < minSupport then Ok(None)
    else if !nerRequired then Ok(Some(FactOf(cl, cm)))
    else
      SupportWellTyped(cl.members, cm);
      match EntityGate(supp, entities)
      case Err(e) => Err(e)
      case Ok(pass) => if pass then Ok(Some(FactOf(cl, cm))) else Ok(None)
  }

  lemma {:induction false} SupportWellTyped(members: seq<string>, cm: ClaimMap)
    requires forall m :: m in members ==> m in cm.backers && AllWellTyped(cm.backers[m])
    ensures AllWellTyped(Support(members, cm))
  {
    BackersWellTyped(members, cm);
    DedupSubset(Backers(members, cm));
  }

  lemma {:induction false} BackersWellTyped(members: seq<string>, cm: ClaimMap)
    requires forall m :: m in members ==> m in cm.backers && AllWellTyped(cm.backers[m])
    ensures AllWellTyped(Backers(members, cm))
  {
    if members != [] {
      BackersWellTyped(members[..|members| - 1], cm);
    }
  }

  /** Every kept source is one of the inputs. */
  lemma {:induction false} DedupSubset(srcs: seq<Source>)
    ensures forall s :: s in DedupByUrl(srcs) ==> s in srcs
  {
    if srcs != [] {
      DedupSubset(srcs[..|srcs| - 1]);
    }
  }

  ghost predicate ClustersWellTyped(clusters: seq<Cluster>, cm: ClaimMap)
  {
    forall i, m :: 0 <= i < |clusters| && m in clusters[i].members ==> m in cm.backers && AllWellTyped(cm.backers[m])
  }

  /** The facts of the clusters in cluster order, before ranking, or the error the first failing gate raises. */
  function Candidates(clusters: seq<Cluster>, cm: ClaimMap, minSupport: int, nerRequired: bool,
                      entities: string -> set<string>): Result<seq<VerifiedFact>, VerifyError>
    requires WellFormed(clusters, cm) && ClustersWellTyped(clusters, cm)
  {
    if clusters == [] then Ok([])
    else
      var init := clusters[..|clusters| - 1];
      match Candidates(init, cm, minSupport, nerRequired, entities)
      case Err(e) => Err(e)
      case Ok(facts) =>
        match Decide(clusters[|clusters| - 1], cm, minSupport, nerRequired, entities)
        case Err(e) => Err(e)
        case Ok(None) => Ok(facts)
        case Ok(Some(f)) => Ok(facts + [f])
  }

  /** The support count that ranks a fact. */
  function SupportCount(f: VerifiedFact): int
  {
    |f.supportingSources|
  }

  /** `verified.sort(key=lambda vf: len(vf.supporting_sources), reverse=True)`. */
  function RankBySupport(facts: seq<VerifiedFact>): seq<VerifiedFact>
  {
    Ranking.SortDesc(facts, SupportCount)
  }

  /** Every source listed in the claim map is an input that produced that claim. */
  ghost predicate MapSound(cm: ClaimMap, sources: seq<Source>, lists: seq<seq<string>>)
    requires |lists| == |sources|
  {
    forall c, s :: c in cm.backers && s in cm.backers[c] ==>
      exists i :: 0 <= i < |sources| && sources[i] == s && c in lists[i]
  }

  lemma {:induction false} MapSources(sources: seq<Source>, lists: seq<seq<string>>)
    requires |lists| == |sources|
    ensures MapSound(BuildClaimMap(sources, lists), sources, lists)
  {
    if sources != [] {
      var n := |sources| - 1;
      MapSources(sources[..n], lists[..n]);
      var cm := BuildClaimMap(sources[..n], lists[..n]);
      forall c, s | c in cm.backers && s in cm.backers[c]
        ensures exists i :: 0 <= i < |sources| && sources[i] == s && c in lists[i]
      {
        var i :| 0 <= i < n && sources[..n][i] == s && c in lists[..n][i];
        assert sources[i] == s && c in lists[i];
      }
      AddClaimsSound(cm, lists[n], |lists[n]|, sources, lists, n);
      assert lists[n][..|lists[n]|] == lists[n];
    }
  }

  lemma {:induction false} AddClaimsSound(cm: ClaimMap, claims: seq<string>, k: nat,
                                          sources: seq<Source>, lists: seq<seq<string>>, n: nat)
    requires |lists| == |sources| && n < |sources| && claims == lists[n] && k <= |claims|
    requires MapSound(cm, sources, lists)
    ensures MapSound(AddClaims(cm, claims[..k], sources[n]), sources, lists)
  {
    if k > 0 {
      AddClaimsSound(cm, claims, k - 1, sources, lists, n);
      assert claims[..k][..k - 1] == claims[..k - 1];
      var before := AddClaims(cm, claims[..k - 1], sources[n]);
      var after := AddBacker(before, claims[k - 1], sources[n]);
      assert after == AddClaims(cm, claims[..k], sources[n]);
      forall c, s | c in after.backers && s in after.backers[c]
        ensures exists i :: 0 <= i < |sources| && sources[i] == s && c in lists[i]
      {
        if c == claims[k - 1] && s == sources[n] {
          assert c in lists[n];
        } else {
          assert c in before.backers && s in before.backers[c];
        }
      }
    }
  }

  /** Every source listed in the claim map is well typed. */
  ghost predicate TypedMap(cm: ClaimMap)
  {
    forall c :: c in cm.backers ==> AllWellTyped(cm.backers[c])
  }

  /** Every source in a claim map built from `sources` is one of them, so it is well typed. */
  lemma MapWellTyped(sources: seq<Source>, lists: seq<seq<string>>)
    requires AllWellTyped(sources) && |lists| == |sources|
    ensures TypedMap(BuildClaimMap(sources, lists))
  {
    MapSources(sources, lists);
  }

  /** The clusters of a well-typed claim map are well typed. */
  lemma ClustersTyped(clusters: seq<Cluster>, cm: ClaimMap)
    requires WellFormed(clusters, cm) && TypedMap(cm)
    ensures ClustersWellTyped(clusters, cm)
  {
  }

  /** `claim_map` after step 3. */
  function MapOf(sources: seq<Source>): (cm: ClaimMap)
    requires AllWellTyped(sources)
    ensures ValidMap(cm) && TypedMap(cm)
  {
    MapWellTyped(sources, ClaimLists(sources));
    BuildValid(sources, ClaimLists(sources));
    BuildClaimMap(sources, ClaimLists(sources))
  }

  /** `clusters` after step 4. */
  function ClustersOf(sources: seq<Source>, scorer: Scorer, threshold: int): (r: seq<Cluster>)
    requires AllWellTyped(sources)
    ensures WellFormed(r, MapOf(sources)) && ClustersWellTyped(r, MapOf(sources))
  {
    var cm := MapOf(sources);
    var clusters := ClusterClaims(cm.keys, cm, scorer, threshold);
    ClustersTyped(clusters, cm);
    clusters
  }

  /** `verified` before the sort. */
  function CandidatesOf(sources: seq<Source>, minSupport: int, fuzzyThreshold: int, nerRequired: bool,
                        scorer: Scorer, entities: string -> set<string>): Result<seq<VerifiedFact>, VerifyError>
    requires AllWellTyped(sources)
  {
    Candidates(ClustersOf(sources, scorer, fuzzyThreshold), MapOf(sources), minSupport, nerRequired, entities)
  }

  /** The specification of `verify_facts`. */
  function Verify(sources: seq<Source>, minSupport: int, fuzzyThreshold: int, nerRequired: bool,
                  scorer: Scorer, entities: string -> set<string>): Result<seq<VerifiedFact>, VerifyError>
    requires AllWellTyped(sources)
  {
    match CandidatesOf(sources, minSupport, fuzzyThreshold, nerRequired, scorer, entities)
    case Err(e) => Err(e)
    case Ok(facts) => Ok(RankBySupport(facts))
  }
}
