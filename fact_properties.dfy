/**
 * What `verify_facts` promises about the facts it returns: enough distinct
 * supporting sources, the longest member as the claim, a shared entity when
 * the entity gate is on, the order of the ranking, and that the gate only
 * ever removes facts.
 */
module FactProperties {
  import opened Wrappers
  import opened Claims
  import opened Verification
  import opened ClaimMapProperties
  import opened ClusterProperties
  import Ranking

  // ---------------------------------------------------------------------
  // One cluster

  /** Entity `e` is in every non-empty entity set of these sources' snippets. */
  ghost predicate InEveryNonEmpty(e: string, srcs: seq<Source>, entities: string -> set<string>)
    requires AllWellTyped(srcs)
  {
    forall k :: 0 <= k < |srcs| && entities(SnippetText(srcs[k])) != {} ==> e in entities(SnippetText(srcs[k]))
  }

  /** Some entity is common to every non-empty entity set of these sources' snippets. */
  ghost predicate CommonEntity(srcs: seq<Source>, entities: string -> set<string>)
    requires AllWellTyped(srcs)
  {
    exists e :: InEveryNonEmpty(e, srcs, entities)
  }

  /** The entity gate passes exactly when there is a source and a common entity of the non-empty sets. */
  lemma GatePasses(srcs: seq<Source>, entities: string -> set<string>)
    requires AllWellTyped(srcs)
    requires EntityGate(srcs, entities) == Ok(true)
    ensures srcs != [] && CommonEntity(srcs, entities)
  {
    var sets := EntitySets(srcs, entities);
    var nonEmpty := NonEmptySets(sets);
    var e :| e in IntersectAll(nonEmpty);
    forall k | 0 <= k < |srcs| && entities(SnippetText(srcs[k])) != {}
      ensures e in entities(SnippetText(srcs[k]))
    {
      assert sets[k] in nonEmpty;
      var j :| 0 <= j < |nonEmpty| && nonEmpty[j] == sets[k];
    }
    assert InEveryNonEmpty(e, srcs, entities);
  }

  /** The gate raises exactly when there are sources and all their entity sets are empty. */
  lemma GateRaises(srcs: seq<Source>, entities: string -> set<string>)
    requires AllWellTyped(srcs)
    ensures EntityGate(srcs, entities).Err? <==>
      srcs != [] && forall k :: 0 <= k < |srcs| ==> entities(SnippetText(srcs[k])) == {}
  {
    var sets := EntitySets(srcs, entities);
    var nonEmpty := NonEmptySets(sets);
    if srcs != [] && nonEmpty != [] {
      assert nonEmpty[0] in nonEmpty;
      assert nonEmpty[0] in sets;
      var k :| 0 <= k < |sets| && sets[k] == nonEmpty[0];
    }
    if srcs != [] && nonEmpty == [] {
      forall k | 0 <= k < |srcs| ensures entities(SnippetText(srcs[k])) == {} {
        assert sets[k] in sets;
      }
    }
  }

  /** A fact made from a cluster: its support, its claim, and the entity it shares. */
  lemma DecideFact(cl: Cluster, cm: ClaimMap, minSupport: int, nerRequired: bool,
                   entities: string -> set<string>, f: VerifiedFact)
    requires cl.members != [] && forall m :: m in cl.members ==> m in cm.backers
    requires forall m :: m in cl.members ==> AllWellTyped(cm.backers[m])
    requires Decide(cl, cm, minSupport, nerRequired, entities) == Ok(Some(f))
    ensures f.supportingSources == Support(cl.members, cm)
    ensures |f.supportingSources| >= minSupport
    ensures DistinctUrls(f.supportingSources)
    ensures f.claim in cl.members && forall m :: m in cl.members ==> |m| <= |f.claim|
    ensures exists li :: 0 <= li < |cl.members| && cl.members[li] == f.claim &&
                         forall i :: 0 <= i < li ==> |cl.members[i]| < |f.claim|
    ensures AllWellTyped(f.supportingSources)
    ensures nerRequired ==> CommonEntity(f.supportingSources, entities)
  {
    SupportWellTyped(cl.members, cm);
    var li := LongestIndex(cl.members);
    assert f == FactOf(cl, cm);
    assert cl.members[li] == f.claim;
    if nerRequired {
      GatePasses(f.supportingSources, entities);
    }
  }

  /** What makes a cluster raise under the gate. */
  lemma DecideRaises(cl: Cluster, cm: ClaimMap, minSupport: int, nerRequired: bool, entities: string -> set<string>)
    requires cl.members != [] && forall m :: m in cl.members ==> m in cm.backers
    requires forall m :: m in cl.members ==> AllWellTyped(cm.backers[m])
    ensures AllWellTyped(Support(cl.members, cm))
    ensures Decide(cl, cm, minSupport, nerRequired, entities).Err? <==>
      var supp := Support(cl.members, cm);
      && nerRequired && |supp| >= minSupport && supp != []
      && forall k :: 0 <= k < |supp| ==> entities(SnippetText(supp[k])) == {}
  {
    SupportWellTyped(cl.members, cm);
    GateRaises(Support(cl.members, cm), entities);
  }

  /** Without the gate a cluster yields its fact exactly when its support is large enough. */
  lemma DecideWithoutGate(cl: Cluster, cm: ClaimMap, minSupport: int, entities: string -> set<string>)
    requires cl.members != [] && forall m :: m in cl.members ==> m in cm.backers
    requires forall m :: m in cl.members ==> AllWellTyped(cm.backers[m])
    ensures Decide(cl, cm, minSupport, false, entities) ==
      if |Support(cl.members, cm)| >= minSupport then Ok(Some(FactOf(cl, cm))) else Ok(None)
  {
  }

  // ---------------------------------------------------------------------
  // All clusters

  /** Every candidate fact comes from some cluster, which yields it. */
  lemma {:induction false} CandidatesSound(clusters: seq<Cluster>, cm: ClaimMap, minSupport: int, nerRequired: bool,
                                           entities: string -> set<string>, facts: seq<VerifiedFact>)
    requires WellFormed(clusters, cm) && ClustersWellTyped(clusters, cm)
    requires Candidates(clusters, cm, minSupport, nerRequired, entities) == Ok(facts)
    ensures forall f :: f in facts ==>
      exists i :: 0 <= i < |clusters| && Decide(clusters[i], cm, minSupport, nerRequired, entities) == Ok(Some(f))
  {
    if clusters != [] {
      var n := |clusters| - 1;
      var init := clusters[..n];
      var before :| Candidates(init, cm, minSupport, nerRequired, entities) == Ok(before);
      CandidatesSound(init, cm, minSupport, nerRequired, entities, before);
      forall f | f in facts
        ensures exists i :: 0 <= i < |clusters| && Decide(clusters[i], cm, minSupport, nerRequired, entities) == Ok(Some(f))
      {
        if f in before {
          var i :| 0 <= i < n && Decide(init[i], cm, minSupport, nerRequired, entities) == Ok(Some(f));
          assert init[i] == clusters[i];
        } else {
          assert Decide(clusters[n], cm, minSupport, nerRequired, entities) == Ok(Some(f));
        }
      }
    }
  }

  /** Cluster `cl` raises under the gate. */
  ghost predicate Raises(cl: Cluster, cm: ClaimMap, minSupport: int, nerRequired: bool, entities: string -> set<string>)
    requires cl.members != [] && forall m :: m in cl.members ==> m in cm.backers
    requires forall m :: m in cl.members ==> AllWellTyped(cm.backers[m])
  {
    Decide(cl, cm, minSupport, nerRequired, entities).Err?
  }

  /** The candidates raise exactly when some cluster raises. */
  lemma CandidatesRaise(clusters: seq<Cluster>, cm: ClaimMap, minSupport: int, nerRequired: bool,
                        entities: string -> set<string>)
    requires WellFormed(clusters, cm) && ClustersWellTyped(clusters, cm)
    ensures Candidates(clusters, cm, minSupport, nerRequired, entities).Err? <==>
      exists i :: 0 <= i < |clusters| && Raises(clusters[i], cm, minSupport, nerRequired, entities)
  {
    if Candidates(clusters, cm, minSupport, nerRequired, entities).Err? {
      var i := RaisingCluster(clusters, cm, minSupport, nerRequired, entities);
    }
    if exists i :: 0 <= i < |clusters| && Raises(clusters[i], cm, minSupport, nerRequired, entities) {
      var i :| 0 <= i < |clusters| && Raises(clusters[i], cm, minSupport, nerRequired, entities);
      ClusterRaises(clusters, cm, minSupport, nerRequired, entities, i);
    }
  }

  /** A cluster that raises makes the candidates raise. */
  lemma {:induction false} ClusterRaises(clusters: seq<Cluster>, cm: ClaimMap, minSupport: int, nerRequired: bool,
                                         entities: string -> set<string>, i: nat)
    requires WellFormed(clusters, cm) && ClustersWellTyped(clusters, cm)
    requires i < |clusters| && Raises(clusters[i], cm, minSupport, nerRequired, entities)
    ensures Candidates(clusters, cm, minSupport, nerRequired, entities).Err?
  {
    var n := |clusters| - 1;
    CandidatesLastErr(clusters, cm, minSupport, nerRequired, entities);
    if i < n {
      var init := clusters[..n];
      assert init[i] == clusters[i];
      ClusterRaises(init, cm, minSupport, nerRequired, entities, i);
    }
  }

  /** The candidates raise exactly when those of all but the last cluster do or the last cluster does. */
  lemma CandidatesLastErr(clusters: seq<Cluster>, cm: ClaimMap, minSupport: int, nerRequired: bool,
                          entities: string -> set<string>)
    requires WellFormed(clusters, cm) && ClustersWellTyped(clusters, cm) && clusters != []
    ensures var n := |clusters| - 1;
      && WellFormed(clusters[..n], cm) && ClustersWellTyped(clusters[..n], cm)
      && (Candidates(clusters, cm, minSupport, nerRequired, entities).Err? <==>
          Candidates(clusters[..n], cm, minSupport, nerRequired, entities).Err? ||
          Raises(clusters[n], cm, minSupport, nerRequired, entities))
  {
  }

  /** When the candidates raise, some cluster raises. */
  lemma {:induction false} RaisingCluster(clusters: seq<Cluster>, cm: ClaimMap, minSupport: int, nerRequired: bool,
                                          entities: string -> set<string>) returns (i: nat)
    requires WellFormed(clusters, cm) && ClustersWellTyped(clusters, cm)
    requires Candidates(clusters, cm, minSupport, nerRequired, entities).Err?
    ensures i < |clusters| && Raises(clusters[i], cm, minSupport, nerRequired, entities)
  {
    var n := |clusters| - 1;
    var init := clusters[..n];
    CandidatesLastErr(clusters, cm, minSupport, nerRequired, entities);
    if Candidates(init, cm, minSupport, nerRequired, entities).Err? {
      i := RaisingCluster(init, cm, minSupport, nerRequired, entities);
      assert init[i] == clusters[i];
    } else {
      i := n;
    }
  }

  /**
   * The gate only removes facts: with it the candidates are a subsequence
   * of those without it, and without it nothing raises.
   */
  lemma {:induction false} GateOnlyRemoves(clusters: seq<Cluster>, cm: ClaimMap, minSupport: int,
                                           entities: string -> set<string>)
    requires WellFormed(clusters, cm) && ClustersWellTyped(clusters, cm)
    ensures Candidates(clusters, cm, minSupport, false, entities).Ok?
    ensures Candidates(clusters, cm, minSupport, true, entities).Ok? ==>
      Ranking.IsSubseq(Candidates(clusters, cm, minSupport, true, entities).value,
                       Candidates(clusters, cm, minSupport, false, entities).value)
  {
    if clusters == [] {
      Ranking.SubseqRefl<VerifiedFact>([]);
    } else {
      var n := |clusters| - 1;
      var init := clusters[..n];
      GateOnlyRemoves(init, cm, minSupport, entities);
      var cl := clusters[n];
      var plain := Candidates(init, cm, minSupport, false, entities).value;
      var gated := Candidates(init, cm, minSupport, true, entities);
      if gated.Ok? && Decide(cl, cm, minSupport, true, entities).Ok? {
        match Decide(cl, cm, minSupport, true, entities).value
        case None =>
          if |Support(cl.members, cm)| >= minSupport {
            Ranking.SubseqAppendRight(gated.value, plain, FactOf(cl, cm));
          }
        case Some(f) =>
          Ranking.SubseqAppendBoth(gated.value, plain, f);
      }
    }
  }

  /** A fact yielded by a cluster is among the candidates. */
  lemma {:induction false} CandidatesComplete(clusters: seq<Cluster>, cm: ClaimMap, minSupport: int, nerRequired: bool,
                                              entities: string -> set<string>, i: nat, f: VerifiedFact)
    requires WellFormed(clusters, cm) && ClustersWellTyped(clusters, cm)
    requires i < |clusters| && Decide(clusters[i], cm, minSupport, nerRequired, entities) == Ok(Some(f))
    requires Candidates(clusters, cm, minSupport, nerRequired, entities).Ok?
    ensures f in Candidates(clusters, cm, minSupport, nerRequired, entities).value
  {
    var n := |clusters| - 1;
    if i < n {
      var init := clusters[..n];
      assert init[i] == clusters[i];
      CandidatesComplete(init, cm, minSupport, nerRequired, entities, i, f);
    }
  }

  // ---------------------------------------------------------------------
  // Sources and claims behind a fact

  lemma {:induction false} BackersMember(members: seq<string>, cm: ClaimMap, s: Source) returns (m: string)
    requires forall m :: m in members ==> m in cm.backers
    requires s in Backers(members, cm)
    ensures m in members && s in cm.backers[m]
  {
    var n := |members| - 1;
    if s in Backers(members[..n], cm) {
      m := BackersMember(members[..n], cm, s);
    } else {
      m := members[n];
    }
  }

  lemma {:induction false} BackersContain(members: seq<string>, cm: ClaimMap, m: string, s: Source)
    requires forall m :: m in members ==> m in cm.backers
    requires m in members && s in cm.backers[m]
    ensures s in Backers(members, cm)
  {
    var n := |members| - 1;
    if m != members[n] {
      BackersContain(members[..n], cm, m, s);
    }
  }

  /** The claim of fact `f` is a claim of an input whose url one of the supporting sources has. */
  ghost predicate Backed(f: VerifiedFact, sources: seq<Source>)
    requires AllWellTyped(sources)
  {
    exists s :: s in sources && f.claim in ClaimsOf(s) && exists t :: t in f.supportingSources && t.url == s.url
  }

  /** What `verify_facts` promises about each fact it returns. */
  ghost predicate FactSound(f: VerifiedFact, sources: seq<Source>, minSupport: int, nerRequired: bool,
                            entities: string -> set<string>)
    requires AllWellTyped(sources)
  {
    && |f.supportingSources| >= minSupport
    && DistinctUrls(f.supportingSources)
    && (forall s :: s in f.supportingSources ==> s in sources)
    && |f.claim| >= MinClaimLength
    && Backed(f, sources)
    && (nerRequired ==> CommonEntity(f.supportingSources, entities))
  }

  /** A fact made from cluster `i` of `verify_facts` is sound. */
  lemma ClusterFactSound(sources: seq<Source>, minSupport: int, fuzzyThreshold: int, nerRequired: bool,
                         scorer: Scorer, entities: string -> set<string>, i: nat, f: VerifiedFact)
    requires AllWellTyped(sources)
    requires i < |ClustersOf(sources, scorer, fuzzyThreshold)|
    requires Decide(ClustersOf(sources, scorer, fuzzyThreshold)[i], MapOf(sources), minSupport, nerRequired, entities) == Ok(Some(f))
    ensures FactSound(f, sources, minSupport, nerRequired, entities)
  {
    var cm := MapOf(sources);
    var cl := ClustersOf(sources, scorer, fuzzyThreshold)[i];
    DecideFact(cl, cm, minSupport, nerRequired, entities, f);
    SupportFromInputs(sources, cl.members);
    var b := ClaimBacked(sources, cl.members, f.claim);
    FactSoundIntro(f, sources, minSupport, nerRequired, entities, b);
  }

  /** The parts of `FactSound`, with the input that produced the claim. */
  lemma FactSoundIntro(f: VerifiedFact, sources: seq<Source>, minSupport: int, nerRequired: bool,
                       entities: string -> set<string>, b: Source)
    requires AllWellTyped(sources)
    requires |f.supportingSources| >= minSupport && DistinctUrls(f.supportingSources)
    requires forall s :: s in f.supportingSources ==> s in sources
    requires |f.claim| >= MinClaimLength
    requires b in sources && f.claim in ClaimsOf(b) && b.url in UrlsOf(f.supportingSources)
    requires nerRequired ==> CommonEntity(f.supportingSources, entities)
    ensures FactSound(f, sources, minSupport, nerRequired, entities)
  {
    var j :| 0 <= j < |f.supportingSources| && f.supportingSources[j].url == b.url;
    assert f.supportingSources[j] in f.supportingSources;
  }

  /** Every supporting source of a cluster is an input. */
  lemma SupportFromInputs(sources: seq<Source>, members: seq<string>)
    requires AllWellTyped(sources)
    requires forall m :: m in members ==> m in MapOf(sources).backers
    ensures forall s :: s in Support(members, MapOf(sources)) ==> s in sources
  {
    var cm := MapOf(sources);
    forall s | s in Support(members, cm) ensures s in sources {
      DedupSubset(Backers(members, cm));
      var m := BackersMember(members, cm, s);
      MapOfSound(sources, m, s);
    }
  }

  /** A member's claim was produced by an input whose url is among the support's urls. */
  lemma ClaimBacked(sources: seq<Source>, members: seq<string>, claim: string) returns (b: Source)
    requires AllWellTyped(sources)
    requires forall m :: m in members ==> m in MapOf(sources).backers
    requires claim in members
    ensures |claim| >= MinClaimLength
    ensures b in sources && claim in ClaimsOf(b) && b.url in UrlsOf(Support(members, MapOf(sources)))
  {
    var cm := MapOf(sources);
    b := cm.backers[claim][0];
    MapOfSound(sources, claim, b);
    BackersContain(members, cm, claim, b);
    var all := Backers(members, cm);
    var k :| 0 <= k < |all| && all[k] == b;
    assert b.url in UrlsOf(all);
    DedupUrls(all);
  }

  /** A fact in the ranking is one of the candidates. */
  lemma RankedIsCandidate(facts: seq<VerifiedFact>, f: VerifiedFact)
    requires f in RankBySupport(facts)
    ensures f in facts
  {
    assert f in multiset(RankBySupport(facts));
  }

  /**
   * Every fact `verify_facts` returns has at least `min_support` url-distinct
   * supporting sources taken from its input, a claim of at least 40
   * characters that one of its inputs produced under a supporting url, and,
   * with the gate on, an entity common to its non-empty entity sets.
   */
  lemma VerifiedFactsSound(sources: seq<Source>, minSupport: int, fuzzyThreshold: int, nerRequired: bool,
                           scorer: Scorer, entities: string -> set<string>)
    requires AllWellTyped(sources)
    requires Verify(sources, minSupport, fuzzyThreshold, nerRequired, scorer, entities).Ok?
    ensures forall f :: f in Verify(sources, minSupport, fuzzyThreshold, nerRequired, scorer, entities).value ==>
      FactSound(f, sources, minSupport, nerRequired, entities)
  {
    var cm := MapOf(sources);
    var clusters := ClustersOf(sources, scorer, fuzzyThreshold);
    var cands := CandidatesOf(sources, minSupport, fuzzyThreshold, nerRequired, scorer, entities).value;
    CandidatesSound(clusters, cm, minSupport, nerRequired, entities, cands);
    forall f | f in Verify(sources, minSupport, fuzzyThreshold, nerRequired, scorer, entities).value
      ensures FactSound(f, sources, minSupport, nerRequired, entities)
    {
      RankedIsCandidate(cands, f);
      var i :| 0 <= i < |clusters| && Decide(clusters[i], cm, minSupport, nerRequired, entities) == Ok(Some(f));
      ClusterFactSound(sources, minSupport, fuzzyThreshold, nerRequired, scorer, entities, i, f);
    }
  }

  /** Fact `f` is made from cluster `cl`: its claim is the first longest member and its sources are the cluster's support. */
  ghost predicate FromCluster(f: VerifiedFact, cl: Cluster, cm: ClaimMap)
    requires forall m :: m in cl.members ==> m in cm.backers
  {
    && f.supportingSources == Support(cl.members, cm)
    && f.claim in cl.members
    && (forall m :: m in cl.members ==> |m| <= |f.claim|)
    && exists li :: 0 <= li < |cl.members| && cl.members[li] == f.claim &&
                    forall j :: 0 <= j < li ==> |cl.members[j]| < |f.claim|
  }

  /** Each returned fact's claim is the first longest member of a cluster, and its sources are that cluster's support. */
  lemma VerifiedFactsFromClusters(sources: seq<Source>, minSupport: int, fuzzyThreshold: int, nerRequired: bool,
                                  scorer: Scorer, entities: string -> set<string>, f: VerifiedFact)
    requires AllWellTyped(sources)
    requires Verify(sources, minSupport, fuzzyThreshold, nerRequired, scorer, entities).Ok?
    requires f in Verify(sources, minSupport, fuzzyThreshold, nerRequired, scorer, entities).value
    ensures exists i :: 0 <= i < |ClustersOf(sources, scorer, fuzzyThreshold)| &&
                        FromCluster(f, ClustersOf(sources, scorer, fuzzyThreshold)[i], MapOf(sources))
  {
    var cm := MapOf(sources);
    var clusters := ClustersOf(sources, scorer, fuzzyThreshold);
    var i := RankedFactDecided(clusters, cm, minSupport, nerRequired, entities, f);
    DecideFact(clusters[i], cm, minSupport, nerRequired, entities, f);
  }

  /** A ranked fact is the decision of one of the clusters. */
  lemma RankedFactDecided(clusters: seq<Cluster>, cm: ClaimMap, minSupport: int, nerRequired: bool,
                          entities: string -> set<string>, f: VerifiedFact) returns (i: nat)
    requires WellFormed(clusters, cm) && ClustersWellTyped(clusters, cm)
    requires Candidates(clusters, cm, minSupport, nerRequired, entities).Ok?
    requires f in RankBySupport(Candidates(clusters, cm, minSupport, nerRequired, entities).value)
    ensures i < |clusters| && Decide(clusters[i], cm, minSupport, nerRequired, entities) == Ok(Some(f))
  {
    var cands := Candidates(clusters, cm, minSupport, nerRequired, entities).value;
    CandidatesSound(clusters, cm, minSupport, nerRequired, entities, cands);
    RankedIsCandidate(cands, f);
    i :| 0 <= i < |clusters| && Decide(clusters[i], cm, minSupport, nerRequired, entities) == Ok(Some(f));
  }

  // ---------------------------------------------------------------------
  // The ranking and the gate

  /**
   * The facts are ranked by support, largest first; they are the candidates
   * in another order, and facts with equal support keep cluster order.
   */
  lemma VerifyRanked(sources: seq<Source>, minSupport: int, fuzzyThreshold: int, nerRequired: bool,
                     scorer: Scorer, entities: string -> set<string>)
    requires AllWellTyped(sources)
    requires Verify(sources, minSupport, fuzzyThreshold, nerRequired, scorer, entities).Ok?
    ensures CandidatesOf(sources, minSupport, fuzzyThreshold, nerRequired, scorer, entities).Ok?
    ensures var facts := Verify(sources, minSupport, fuzzyThreshold, nerRequired, scorer, entities).value;
      var cands := CandidatesOf(sources, minSupport, fuzzyThreshold, nerRequired, scorer, entities).value;
      && Ranking.SortedDesc(facts, SupportCount)
      && multiset(facts) == multiset(cands)
      && forall k :: Ranking.WithKey(facts, SupportCount, k) == Ranking.WithKey(cands, SupportCount, k)
  {
    var cands := CandidatesOf(sources, minSupport, fuzzyThreshold, nerRequired, scorer, entities).value;
    Ranking.SortDescCorrect(cands, SupportCount);
  }

  /**
   * Without the entity gate `verify_facts` never raises; with it, when it
   * does not raise, it returns a subsequence of the facts it returns without.
   */
  lemma VerifyGateOnlyRemoves(sources: seq<Source>, minSupport: int, fuzzyThreshold: int,
                              scorer: Scorer, entities: string -> set<string>)
    requires AllWellTyped(sources)
    ensures Verify(sources, minSupport, fuzzyThreshold, false, scorer, entities).Ok?
    ensures Verify(sources, minSupport, fuzzyThreshold, true, scorer, entities).Ok? ==>
      Ranking.IsSubseq(Verify(sources, minSupport, fuzzyThreshold, true, scorer, entities).value,
                       Verify(sources, minSupport, fuzzyThreshold, false, scorer, entities).value)
  {
    var cm := MapOf(sources);
    var clusters := ClustersOf(sources, scorer, fuzzyThreshold);
    GateOnlyRemoves(clusters, cm, minSupport, entities);
    var plain := CandidatesOf(sources, minSupport, fuzzyThreshold, false, scorer, entities);
    var gated := CandidatesOf(sources, minSupport, fuzzyThreshold, true, scorer, entities);
    if gated.Ok? {
      Ranking.SortMonotone(gated.value, plain.value, SupportCount);
    }
  }

  /** Cluster `cl` has enough support, at least one source, and no entity in any of its sources. */
  ghost predicate NoEntities(cl: Cluster, cm: ClaimMap, minSupport: int, entities: string -> set<string>)
    requires cl.members != [] && forall m :: m in cl.members ==> m in cm.backers
    requires forall m :: m in cl.members ==> AllWellTyped(cm.backers[m])
  {
    SupportWellTyped(cl.members, cm);
    var supp := Support(cl.members, cm);
    && |supp| >= minSupport && supp != []
    && forall k :: 0 <= k < |supp| ==> entities(SnippetText(supp[k])) == {}
  }

  /**
   * With the gate on, `verify_facts` raises exactly when some cluster has
   * enough support but no entity in any supporting snippet, because
   * `set.intersection()` is then called with no argument.
   */
  lemma VerifyRaises(sources: seq<Source>, minSupport: int, fuzzyThreshold: int,
                     scorer: Scorer, entities: string -> set<string>)
    requires AllWellTyped(sources)
    ensures Verify(sources, minSupport, fuzzyThreshold, true, scorer, entities).Err? <==>
      exists i :: 0 <= i < |ClustersOf(sources, scorer, fuzzyThreshold)| &&
        NoEntities(ClustersOf(sources, scorer, fuzzyThreshold)[i], MapOf(sources), minSupport, entities)
  {
    var cm := MapOf(sources);
    var clusters := ClustersOf(sources, scorer, fuzzyThreshold);
    CandidatesRaise(clusters, cm, minSupport, true, entities);
    forall i | 0 <= i < |clusters|
      ensures Raises(clusters[i], cm, minSupport, true, entities) <==> NoEntities(clusters[i], cm, minSupport, entities)
    {
      DecideRaises(clusters[i], cm, minSupport, true, entities);
    }
  }
}
