/**
 * `SeniorResearchAnalyst.verify_facts` as the source writes it: a loop that
 * fills the claim map with `setdefault` and `append`, a loop that places
 * each claim into the first matching cluster (with a `placed` flag and a
 * `break`), a loop per cluster that gathers its supporting sources behind a
 * `seen` set, and a loop that appends the facts before the in-place sort.
 * Each loop is proved to compute the corresponding function of
 * `Verification`, so every property proved there holds of the method.
 */
module Analyst {
  import opened Wrappers
  import opened PyValue
  import opened Claims
  import opened Verification
  import ClusterProperties
  import FactProperties

  // ---------------------------------------------------------------------
  // Facts about one more loop iteration

  lemma AddClaimsSnoc(cm: ClaimMap, claims: seq<string>, c: string, src: Source)
    ensures AddClaims(cm, claims + [c], src) == AddBacker(AddClaims(cm, claims, src), c, src)
  {
    assert (claims + [c])[..|claims|] == claims;
  }

  /** A sentence whose claim is too short adds no claim. */
  lemma SkipSentence(sents: seq<string>, j: nat)
    requires j < |sents| && |NormalizeClaim(sents[j])| < MinClaimLength
    ensures ClaimsOfSentences(sents[..j + 1]) == ClaimsOfSentences(sents[..j])
  {
    assert sents[..j + 1][..j] == sents[..j];
  }

  /** A sentence whose claim is long enough adds that claim at the end. */
  lemma KeepSentence(sents: seq<string>, j: nat, norm: string)
    requires j < |sents| && norm == NormalizeClaim(sents[j]) && |norm| >= MinClaimLength
    ensures ClaimsOfSentences(sents[..j + 1]) == ClaimsOfSentences(sents[..j]) + [norm]
  {
    assert sents[..j + 1][..j] == sents[..j];
  }

  /** One more sentence adds its claim when that is long enough, and nothing otherwise. */
  lemma AddSentenceStep(cm: ClaimMap, sents: seq<string>, j: nat, src: Source, r: ClaimMap)
    requires j < |sents| && r == AddClaims(cm, ClaimsOfSentences(sents[..j]), src)
    ensures AddClaims(cm, ClaimsOfSentences(sents[..j + 1]), src) ==
      if |NormalizeClaim(sents[j])| >= MinClaimLength then AddBacker(r, NormalizeClaim(sents[j]), src) else r
  {
    var norm := NormalizeClaim(sents[j]);
    if |norm| >= MinClaimLength {
      KeepSentence(sents, j, norm);
      AddClaimsSnoc(cm, ClaimsOfSentences(sents[..j]), norm, src);
    } else {
      SkipSentence(sents, j);
    }
  }

  /** The clusters before `i` still satisfy what `Candidates` needs, and so does cluster `i`. */
  lemma ClustersPrefix(clusters: seq<Cluster>, cm: ClaimMap, i: nat)
    requires WellFormed(clusters, cm) && ClustersWellTyped(clusters, cm) && i < |clusters|
    ensures WellFormed(clusters[..i + 1], cm) && ClustersWellTyped(clusters[..i + 1], cm)
    ensures clusters[i].members != [] && forall m :: m in clusters[i].members ==> m in cm.backers
    ensures forall m :: m in clusters[i].members ==> AllWellTyped(cm.backers[m])
  {
  }

  /** One more claim is placed into the clusters of the claims before it. */
  lemma ClusterClaimsStep(claims: seq<string>, cm: ClaimMap, scorer: Scorer, threshold: int, i: nat)
    requires i < |claims| && forall c :: c in claims ==> c in cm.backers
    ensures claims[i] in cm.backers
    ensures ClusterClaims(claims[..i + 1], cm, scorer, threshold) ==
      Place(ClusterClaims(claims[..i], cm, scorer, threshold), claims[i], cm, scorer, threshold)
  {
    assert claims[..i + 1][..i] == claims[..i];
  }

  lemma BuildClaimMapStep(sources: seq<Source>, lists: seq<seq<string>>, i: nat)
    requires |lists| == |sources| && i < |sources|
    ensures BuildClaimMap(sources[..i + 1], lists[..i + 1]) ==
      AddClaims(BuildClaimMap(sources[..i], lists[..i]), lists[i], sources[i])
  {
    assert sources[..i + 1][..i] == sources[..i] && lists[..i + 1][..i] == lists[..i];
  }

  /** A url is in the url set of some sources exactly when one of them has it. */
  lemma HasUrlInUrls(srcs: seq<Source>, url: Value)
    ensures HasUrl(srcs, url) <==> url in UrlsOf(srcs)
  {
    if url in UrlsOf(srcs) {
      var k :| 0 <= k < |srcs| && srcs[k].url == url;
    }
  }

  lemma UrlsOfStep(srcs: seq<Source>, q: nat)
    requires q < |srcs|
    ensures UrlsOf(srcs[..q + 1]) == UrlsOf(srcs[..q]) + {srcs[q].url}
  {
    assert srcs[..q + 1] == srcs[..q] + [srcs[q]];
    ClusterProperties.UrlsOfConcat(srcs[..q], [srcs[q]]);
    assert UrlsOf([srcs[q]]) == {srcs[q].url};
  }

  lemma DedupSnoc(srcs: seq<Source>, s: Source)
    ensures DedupByUrl(srcs + [s]) ==
      if HasUrl(DedupByUrl(srcs), s.url) then DedupByUrl(srcs) else DedupByUrl(srcs) + [s]
  {
    assert (srcs + [s])[..|srcs|] == srcs;
  }

  /** The first matching index is the one a left-to-right scan with `break` stops at. */
  lemma FirstFitAt(clusters: seq<Cluster>, c: string, scorer: Scorer, threshold: int, k: nat)
    requires k < |clusters| && Matches(scorer, threshold, c, clusters[k].rep)
    requires forall j :: 0 <= j < k ==> !Matches(scorer, threshold, c, clusters[j].rep)
    ensures FirstFit(clusters, c, scorer, threshold, 0) == k
  {
  }

  /** Once a prefix of the clusters raises, the whole run raises the same error. */
  lemma {:induction false} CandidatesErrPrefix(clusters: seq<Cluster>, cm: ClaimMap, minSupport: int, nerRequired: bool,
                                               entities: string -> set<string>, i: nat)
    requires WellFormed(clusters, cm) && ClustersWellTyped(clusters, cm) && i <= |clusters|
    requires Candidates(clusters[..i], cm, minSupport, nerRequired, entities).Err?
    ensures Candidates(clusters, cm, minSupport, nerRequired, entities) ==
      Candidates(clusters[..i], cm, minSupport, nerRequired, entities)
    decreases |clusters|
  {
    if i < |clusters| {
      var n := |clusters| - 1;
      assert clusters[..n][..i] == clusters[..i];
      CandidatesErrPrefix(clusters[..n], cm, minSupport, nerRequired, entities, i);
    } else {
      assert clusters[..i] == clusters;
    }
  }

  /** One more cluster extends the candidates by its decision. */
  lemma CandidatesStep(clusters: seq<Cluster>, cm: ClaimMap, minSupport: int, nerRequired: bool,
                       entities: string -> set<string>, i: nat, verified: seq<VerifiedFact>)
    requires WellFormed(clusters, cm) && ClustersWellTyped(clusters, cm) && i < |clusters|
    requires Candidates(clusters[..i], cm, minSupport, nerRequired, entities) == Ok(verified)
    ensures Candidates(clusters[..i + 1], cm, minSupport, nerRequired, entities) ==
      match Decide(clusters[i], cm, minSupport, nerRequired, entities)
      case Err(e) => Err(e)
      case Ok(None) => Ok(verified)
      case Ok(Some(f)) => Ok(verified + [f])
  {
    assert clusters[..i + 1][..i] == clusters[..i] && clusters[..i + 1][i] == clusters[i];
  }

  /** Without the gate nothing is raised, and every fact returned is sound. */
  lemma VerifySound(sources: seq<Source>, minSupport: int, fuzzyThreshold: int, nerRequired: bool,
                    scorer: Scorer, entities: string -> set<string>)
    requires AllWellTyped(sources)
    ensures !nerRequired ==> Verify(sources, minSupport, fuzzyThreshold, nerRequired, scorer, entities).Ok?
    ensures Verify(sources, minSupport, fuzzyThreshold, nerRequired, scorer, entities).Ok? ==>
      forall f :: f in Verify(sources, minSupport, fuzzyThreshold, nerRequired, scorer, entities).value ==>
        FactProperties.FactSound(f, sources, minSupport, nerRequired, entities)
  {
    if !nerRequired {
      FactProperties.VerifyGateOnlyRemoves(sources, minSupport, fuzzyThreshold, scorer, entities);
    }
    if Verify(sources, minSupport, fuzzyThreshold, nerRequired, scorer, entities).Ok? {
      FactProperties.VerifiedFactsSound(sources, minSupport, fuzzyThreshold, nerRequired, scorer, entities);
    }
  }

  // ---------------------------------------------------------------------
  // The four loops

  /** `claim_map.setdefault(norm, [])`, then the append unless a source with that url is listed (lines 128-131). */
  method AddSource(cm: ClaimMap, norm: string, src: Source) returns (r: ClaimMap)
    ensures r == AddBacker(cm, norm, src)
  {
    r := cm;
    if norm !in r.backers {
      r := ClaimMap(r.keys + [norm], r.backers[norm := []]);
    }
    var existing := r.backers[norm];
    if !HasUrl(existing, src.url) {
      r := ClaimMap(r.keys, r.backers[norm := existing + [src]]);
    }
    if norm !in cm.backers {
      assert [] + [src] == [src];
      assert r.backers == cm.backers[norm := [src]];
    }
  }

  /** The inner loop of step 3 (lines 124-131): one source's sentences, normalised, the short ones skipped. */
  method AddSentences(cm: ClaimMap, sents: seq<string>, src: Source) returns (r: ClaimMap)
    ensures r == AddClaims(cm, ClaimsOfSentences(sents), src)
  {
    r := cm;
    var j := 0;
    while j < |sents|
      invariant 0 <= j <= |sents|
      invariant r == AddClaims(cm, ClaimsOfSentences(sents[..j]), src)
    {
      var norm := NormalizeClaim(sents[j]);
      AddSentenceStep(cm, sents, j, src, r);
      if |norm| >= MinClaimLength {
        r := AddSource(r, norm, src);
      }
      j := j + 1;
    }
    assert sents[..|sents|] == sents;
  }

  /** One pass of the outer loop of step 3 (lines 121-131): the claims of one source's snippet. */
  method AddSourceClaims(cm: ClaimMap, src: Source) returns (r: ClaimMap)
    requires WellTyped(src)
    ensures r == AddClaims(cm, ClaimsOf(src), src)
  {
    var text := SnippetText(src);
    var sents := SentencesFromText(text);
    r := AddSentences(cm, sents, src);
  }

  /** Step 3 (lines 120-131): the claim map, built source by source. */
  method CollectClaims(sources: seq<Source>) returns (cm: ClaimMap)
    requires AllWellTyped(sources)
    ensures cm == MapOf(sources)
  {
    ghost var lists := ClaimLists(sources);
    cm := ClaimMap([], map[]);
    var i := 0;
    while i < |sources|
      invariant 0 <= i <= |sources|
      invariant cm == BuildClaimMap(sources[..i], lists[..i])
    {
      BuildClaimMapStep(sources, lists, i);
      cm := AddSourceClaims(cm, sources[i]);
      i := i + 1;
    }
    assert sources[..|sources|] == sources && lists[..|lists|] == lists;
  }

  /** Lines 156-157: `cl["sources"].add(src.url)` for each source of the claim. */
  method AddUrls(urls: set<Value>, srcs: seq<Source>) returns (r: set<Value>)
    ensures r == urls + UrlsOf(srcs)
  {
    r := urls;
    var q := 0;
    while q < |srcs|
      invariant 0 <= q <= |srcs|
      invariant r == urls + UrlsOf(srcs[..q])
    {
      UrlsOfStep(srcs, q);
      r := r + {srcs[q].url};
      q := q + 1;
    }
    assert srcs[..|srcs|] == srcs;
  }

  /** One pass of the loop of step 4 (lines 145-162): claim `c` joins the first matching cluster, or founds one. */
  method PlaceClaim(clusters: seq<Cluster>, c: string, cm: ClaimMap, scorer: Scorer, threshold: int)
    returns (r: seq<Cluster>)
    requires c in cm.backers && WellFormed(clusters, cm)
    ensures r == Place(clusters, c, cm, scorer, threshold)
  {
    r := clusters;
    var placed := false;
    var k := 0;
    while k < |r|
      invariant 0 <= k <= |r| && r == clusters && !placed
      invariant forall j :: 0 <= j < k ==> !Matches(scorer, threshold, c, r[j].rep)
    {
      var cl := r[k];
      var sim := Score(scorer, c, cl.rep);
      if sim >= threshold as real {
        var urls := AddUrls(cl.urls, cm.backers[c]);
        FirstFitAt(r, c, scorer, threshold, k);
        r := r[k := Cluster(cl.rep, cl.members + [c], urls)];
        placed := true;
        break;
      }
      k := k + 1;
    }
    if !placed {
      r := r + [Cluster(c, [c], UrlsOf(cm.backers[c]))];
    }
  }

  /** Step 4 (lines 134-162): the claims placed in claim-map order. */
  method ClusterKeys(cm: ClaimMap, scorer: Scorer, threshold: int) returns (clusters: seq<Cluster>)
    requires forall c :: c in cm.keys ==> c in cm.backers
    ensures clusters == ClusterClaims(cm.keys, cm, scorer, threshold)
  {
    var claims := cm.keys;
    clusters := [];
    var i := 0;
    while i < |claims|
      invariant 0 <= i <= |claims|
      invariant clusters == ClusterClaims(claims[..i], cm, scorer, threshold)
    {
      ClusterClaimsStep(claims, cm, scorer, threshold, i);
      clusters := PlaceClaim(clusters, claims[i], cm, scorer, threshold);
      i := i + 1;
    }
    assert claims[..|claims|] == claims;
  }

  /** The inner loop of lines 174-179: the sources of one member whose url is not yet seen, in order. */
  method AddUnseen(supp: seq<Source>, seen: set<Value>, srcs: seq<Source>, ghost base: seq<Source>)
    returns (supp': seq<Source>, seen': set<Value>)
    requires supp == DedupByUrl(base) && seen == UrlsOf(supp)
    ensures supp' == DedupByUrl(base + srcs) && seen' == UrlsOf(supp')
  {
    supp', seen' := supp, seen;
    assert base + srcs[..0] == base;
    var q := 0;
    while q < |srcs|
      invariant 0 <= q <= |srcs|
      invariant supp' == DedupByUrl(base + srcs[..q])
      invariant seen' == UrlsOf(supp')
    {
      var s := srcs[q];
      assert base + srcs[..q + 1] == (base + srcs[..q]) + [s];
      DedupSnoc(base + srcs[..q], s);
      HasUrlInUrls(supp', s.url);
      if s.url !in seen' {
        ClusterProperties.UrlsOfConcat(supp', [s]);
        assert UrlsOf([s]) == {s.url};
        supp' := supp' + [s];
        seen' := seen' + {s.url};
      }
      q := q + 1;
    }
    assert srcs[..|srcs|] == srcs;
  }

  /** Lines 172-179: the members' sources in order, skipping any url already seen. */
  method Supporting(members: seq<string>, cm: ClaimMap) returns (supp: seq<Source>)
    requires forall m :: m in members ==> m in cm.backers
    ensures supp == Support(members, cm)
  {
    supp := [];
    var seen: set<Value> := {};
    var mi := 0;
    while mi < |members|
      invariant 0 <= mi <= |members|
      invariant supp == DedupByUrl(Backers(members[..mi], cm))
      invariant seen == UrlsOf(supp)
    {
      assert members[..mi + 1] == members[..mi] + [members[mi]];
      ClusterProperties.BackersSnoc(members[..mi], members[mi], cm);
      supp, seen := AddUnseen(supp, seen, cm.backers[members[mi]], Backers(members[..mi], cm));
      mi := mi + 1;
    }
    assert members[..|members|] == members;
  }

  /** Lines 172-193 for one cluster: its fact, nothing, or the gate's `TypeError`. */
  method DecideCluster(cl: Cluster, cm: ClaimMap, minSupport: int, nerRequired: bool, entities: string -> set<string>)
    returns (d: Result<Option<VerifiedFact>, VerifyError>)
    requires cl.members != [] && forall m :: m in cl.members ==> m in cm.backers
    requires forall m :: m in cl.members ==> AllWellTyped(cm.backers[m])
    ensures d == Decide(cl, cm, minSupport, nerRequired, entities)
  {
    var supp := Supporting(cl.members, cm);
    if |supp| < minSupport {
      return Ok(None);
    }
    if nerRequired {
      SupportWellTyped(cl.members, cm);
      var gate := EntityGate(supp, entities);
      if gate.Err? {
        return Err(gate.error);
      }
      if !gate.value {
        return Ok(None);
      }
    }
    var rep := cl.members[LongestIndex(cl.members)];
    d := Ok(Some(VerifiedFact(rep, supp)));
  }

  /** The loop of lines 169-193: the facts in cluster order, stopping at the first raise. */
  method CollectFacts(clusters: seq<Cluster>, cm: ClaimMap, minSupport: int, nerRequired: bool,
                      entities: string -> set<string>) returns (r: Result<seq<VerifiedFact>, VerifyError>)
    requires WellFormed(clusters, cm) && ClustersWellTyped(clusters, cm)
    ensures r == Candidates(clusters, cm, minSupport, nerRequired, entities)
  {
    var verified: seq<VerifiedFact> := [];
    var i := 0;
    while i < |clusters|
      invariant 0 <= i <= |clusters|
      invariant Candidates(clusters[..i], cm, minSupport, nerRequired, entities) == Ok(verified)
    {
      ClustersPrefix(clusters, cm, i);
      CandidatesStep(clusters, cm, minSupport, nerRequired, entities, i, verified);
      var d := DecideCluster(clusters[i], cm, minSupport, nerRequired, entities);
      if d.Err? {
        CandidatesErrPrefix(clusters, cm, minSupport, nerRequired, entities, i + 1);
        return Err(d.error);
      }
      if d.value.Some? {
        verified := verified + [d.value.value];
      }
      i := i + 1;
    }
    assert clusters[..|clusters|] == clusters;
    r := Ok(verified);
  }

  /**
   * `verify_facts`: the facts of the clusters that reach `minSupport` and
   * pass the entity gate, ranked by support; the gate's `TypeError` when it
   * intersects no set. Every fact returned is sound, and without the gate
   * nothing is raised.
   */
  method VerifyFacts(sources: seq<Source>, minSupport: int, fuzzyThreshold: int, nerRequired: bool,
                     scorer: Scorer, entities: string -> set<string>) returns (r: Result<seq<VerifiedFact>, VerifyError>)
    requires AllWellTyped(sources)
    ensures r == Verify(sources, minSupport, fuzzyThreshold, nerRequired, scorer, entities)
    ensures !nerRequired ==> r.Ok?
    ensures r.Ok? ==> forall f :: f in r.value ==> FactProperties.FactSound(f, sources, minSupport, nerRequired, entities)
  {
    var cm := CollectClaims(sources);
    var clusters := ClusterKeys(cm, scorer, fuzzyThreshold);
    assert clusters == ClustersOf(sources, scorer, fuzzyThreshold);
    var verified := CollectFacts(clusters, cm, minSupport, nerRequired, entities);
    if verified.Err? {
      r := Err(verified.error);
    } else {
      r := Ok(RankBySupport(verified.value));
    }
    VerifySound(sources, minSupport, fuzzyThreshold, nerRequired, scorer, entities);
  }
}
