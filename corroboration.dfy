/**
 * Completeness of `verify_facts`: a claim that two sources with different
 * urls both produce is verified. Whatever the similarity measure, it ends up
 * in a cluster whose support counts both urls, so with `min_support` at most
 * two and no entity gate that cluster yields a fact.
 */
module Corroboration {
  import opened Wrappers
  import opened PyValue
  import opened Verification
  import ClaimMapProperties
  import ClusterProperties
  import FactProperties
  import Ranking

  /** Some fact has at least two supporting sources and a claim at least as long as `c`. */
  ghost predicate Corroborated(facts: seq<VerifiedFact>, c: string)
  {
    exists f :: f in facts && |f.supportingSources| >= 2 && |f.claim| >= |c|
  }

  /** A corroborated claim means at least one fact. */
  lemma CorroboratedNonEmpty(facts: seq<VerifiedFact>, c: string)
    requires Corroborated(facts, c)
    ensures |facts| >= 1
  {
  }

  /** A claim of the flattened members belongs to some cluster. */
  lemma {:induction false} FlattenMember(clusters: seq<Cluster>, c: string) returns (k: nat)
    requires c in ClusterProperties.Flatten(clusters)
    ensures k < |clusters| && c in clusters[k].members
  {
    var n := |clusters| - 1;
    if c in ClusterProperties.Flatten(clusters[..n]) {
      k := FlattenMember(clusters[..n], c);
      assert clusters[..n][k] == clusters[k];
    } else {
      k := n;
    }
  }

  /** A set holding two different values has at least two elements. */
  lemma TwoElements<T>(s: set<T>, a: T, b: T)
    requires a in s && b in s && a != b
    ensures |s| >= 2
  {
    assert {a, b} <= s;
    var rest := s - {a, b};
    assert s == rest + {a, b};
  }

  /** The cluster holding claim `c` counts the urls of two sources listed under `c`. */
  lemma ClusterOfClaim(cm: ClaimMap, scorer: Scorer, threshold: int, c: string, u1: Value, u2: Value)
    returns (k: nat)
    requires forall m :: m in cm.keys ==> m in cm.backers
    requires c in cm.keys && HasUrl(cm.backers[c], u1) && HasUrl(cm.backers[c], u2) && u1 != u2
    ensures k < |ClusterClaims(cm.keys, cm, scorer, threshold)|
    ensures c in ClusterClaims(cm.keys, cm, scorer, threshold)[k].members
    ensures |Support(ClusterClaims(cm.keys, cm, scorer, threshold)[k].members, cm)| >= 2
  {
    var clusters := ClusterClaims(cm.keys, cm, scorer, threshold);
    ClusterProperties.ClusterPartition(cm.keys, cm, scorer, threshold);
    k := FlattenMember(clusters, c);
    var cl := clusters[k];
    ClusterProperties.ClusterUrls(cm.keys, cm, scorer, threshold);
    assert cl.urls == UrlsOf(Backers(cl.members, cm));
    var srcs := cm.backers[c];
    var p :| 0 <= p < |srcs| && srcs[p].url == u1;
    var q :| 0 <= q < |srcs| && srcs[q].url == u2;
    var all := Backers(cl.members, cm);
    FactProperties.BackersContain(cl.members, cm, c, srcs[p]);
    FactProperties.BackersContain(cl.members, cm, c, srcs[q]);
    var p' :| 0 <= p' < |all| && all[p'] == srcs[p];
    var q' :| 0 <= q' < |all| && all[q'] == srcs[q];
    assert u1 in cl.urls && u2 in cl.urls;
    TwoElements(cl.urls, u1, u2);
    ClusterProperties.SupportMatchesUrls(cl, cm);
  }

  /** A cluster that reaches `min_support` without the gate puts its fact into the ranking. */
  lemma RankedFactOf(clusters: seq<Cluster>, cm: ClaimMap, minSupport: int, entities: string -> set<string>,
                     k: nat, c: string)
    requires WellFormed(clusters, cm) && ClustersWellTyped(clusters, cm)
    requires Candidates(clusters, cm, minSupport, false, entities).Ok?
    requires k < |clusters| && c in clusters[k].members
    requires |Support(clusters[k].members, cm)| >= 2 && minSupport <= 2
    ensures Corroborated(RankBySupport(Candidates(clusters, cm, minSupport, false, entities).value), c)
  {
    var cl := clusters[k];
    FactProperties.DecideWithoutGate(cl, cm, minSupport, entities);
    var f := FactOf(cl, cm);
    FactProperties.CandidatesComplete(clusters, cm, minSupport, false, entities, k, f);
    var cands := Candidates(clusters, cm, minSupport, false, entities).value;
    Ranking.SortDescCorrect(cands, SupportCount);
    assert f in multiset(RankBySupport(cands));
    var at :| 0 <= at < |cl.members| && cl.members[at] == c;
    assert |f.claim| >= |cl.members[at]|;
  }

  /** A claim of two inputs is a claim-map key listing sources with both their urls. */
  lemma KeyOfTwo(sources: seq<Source>, i: nat, j: nat, c: string)
    requires AllWellTyped(sources) && i < |sources| && j < |sources|
    requires c in ClaimLists(sources)[i] && c in ClaimLists(sources)[j]
    ensures c in MapOf(sources).keys
    ensures HasUrl(MapOf(sources).backers[c], sources[i].url) && HasUrl(MapOf(sources).backers[c], sources[j].url)
  {
    var lists := ClaimLists(sources);
    ClaimMapProperties.MapComplete(sources, lists, i, c);
    ClaimMapProperties.MapComplete(sources, lists, j, c);
  }

  /**
   * When two inputs with different urls produce claim `c`, `verify_facts`
   * with `min_support` at most 2 and no entity gate returns a fact with at
   * least two supporting sources whose claim is at least as long as `c`.
   */
  lemma TwoSourcesVerified(sources: seq<Source>, minSupport: int, fuzzyThreshold: int,
                           scorer: Scorer, entities: string -> set<string>, i: nat, j: nat, c: string)
    requires AllWellTyped(sources)
    requires i < |sources| && j < |sources| && sources[i].url != sources[j].url
    requires c in ClaimLists(sources)[i] && c in ClaimLists(sources)[j]
    requires minSupport <= 2
    ensures Verify(sources, minSupport, fuzzyThreshold, false, scorer, entities).Ok?
    ensures Corroborated(Verify(sources, minSupport, fuzzyThreshold, false, scorer, entities).value, c)
    ensures |Verify(sources, minSupport, fuzzyThreshold, false, scorer, entities).value| >= 1
  {
    var cm := MapOf(sources);
    KeyOfTwo(sources, i, j, c);
    var k := ClusterOfClaim(cm, scorer, fuzzyThreshold, c, sources[i].url, sources[j].url);
    var clusters := ClustersOf(sources, scorer, fuzzyThreshold);
    FactProperties.GateOnlyRemoves(clusters, cm, minSupport, entities);
    RankedFactOf(clusters, cm, minSupport, entities, k, c);
    CorroboratedNonEmpty(Verify(sources, minSupport, fuzzyThreshold, false, scorer, entities).value, c);
  }
}
