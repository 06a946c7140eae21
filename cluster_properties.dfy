/**
 * What step 4 of `verify_facts` builds: first-fit clusters over the claims
 * in claim-map order. Every claim lands in exactly one cluster, a cluster's
 * representative is its founder and never changes, each claim joins the
 * earliest cluster whose representative it matches, and each cluster's url
 * set is the set of urls of its members' sources.
 */
module ClusterProperties {
  import opened Text
  import opened Verification

  /** The members of all clusters, cluster after cluster. */
  function Flatten(clusters: seq<Cluster>): seq<string>
  {
    if clusters == [] then [] else Flatten(clusters[..|clusters| - 1]) + clusters[|clusters| - 1].members
  }

  /** How placing `c` changes the clusters: one cluster gains `c` at the end, or a new cluster is appended. */
  lemma PlaceShape(clusters: seq<Cluster>, c: string, cm: ClaimMap, scorer: Scorer, threshold: int)
    requires c in cm.backers && WellFormed(clusters, cm)
    ensures var r := Place(clusters, c, cm, scorer, threshold);
      var k := FirstFit(clusters, c, scorer, threshold, 0);
      && |r| == (if k < |clusters| then |clusters| else |clusters| + 1)
      && (forall i :: 0 <= i < |clusters| ==> r[i].rep == clusters[i].rep)
      && (forall i :: 0 <= i < |clusters| && i != k ==> r[i] == clusters[i])
      && (k < |clusters| ==> r[k].members == clusters[k].members + [c])
      && (k == |clusters| ==> r[k] == Cluster(c, [c], UrlsOf(cm.backers[c])))
  {
  }

  // ---------------------------------------------------------------------
  // Every claim in exactly one cluster

  /** Appending `x` to one cluster's members adds one member, `x`, to all members. */
  lemma {:induction false} FlattenGrow(clusters: seq<Cluster>, k: nat, cl: Cluster, x: string)
    requires k < |clusters| && cl.members == clusters[k].members + [x]
    ensures |Flatten(clusters[k := cl])| == |Flatten(clusters)| + 1
    ensures forall c :: c in Flatten(clusters[k := cl]) <==> c in Flatten(clusters) || c == x
  {
    var n := |clusters| - 1;
    var updated := clusters[k := cl];
    var rest := Flatten(clusters[..n]);
    assert Flatten(clusters) == rest + clusters[n].members;
    if k == n {
      assert updated[..n] == clusters[..n];
      assert Flatten(updated) == rest + (clusters[n].members + [x]);
      assert Flatten(updated) == Flatten(clusters) + [x];
    } else {
      assert updated[..n] == clusters[..n][k := cl];
      FlattenGrow(clusters[..n], k, cl, x);
      assert Flatten(updated) == Flatten(clusters[..n][k := cl]) + clusters[n].members;
    }
  }

  lemma FlattenSnoc(clusters: seq<Cluster>, cl: Cluster)
    ensures Flatten(clusters + [cl]) == Flatten(clusters) + cl.members
  {
    assert (clusters + [cl])[..|clusters|] == clusters;
  }

  /** Placing `c` adds exactly one member, `c`. */
  lemma PlaceMembers(clusters: seq<Cluster>, c: string, cm: ClaimMap, scorer: Scorer, threshold: int)
    requires c in cm.backers && WellFormed(clusters, cm)
    ensures |Flatten(Place(clusters, c, cm, scorer, threshold))| == |Flatten(clusters)| + 1
    ensures forall m :: m in Flatten(Place(clusters, c, cm, scorer, threshold)) <==> m in Flatten(clusters) || m == c
  {
    var k := FirstFit(clusters, c, scorer, threshold, 0);
    if k < |clusters| {
      var cl := clusters[k];
      var grown := Cluster(cl.rep, cl.members + [c], cl.urls + UrlsOf(cm.backers[c]));
      var r := Place(clusters, c, cm, scorer, threshold);
      assert r == clusters[k := grown];
      FlattenGrow(clusters, k, grown, c);
      forall m ensures m in Flatten(r) <==> m in Flatten(clusters) || m == c {
        assert m in Flatten(clusters[k := grown]) <==> m in Flatten(clusters) || m == c;
      }
    } else {
      var founded := Cluster(c, [c], UrlsOf(cm.backers[c]));
      assert Place(clusters, c, cm, scorer, threshold) == clusters + [founded];
      FlattenSnoc(clusters, founded);
    }
  }

  /**
   * Every claim is a member of some cluster and every member is a claim,
   * with one member per claim; so the clusters partition distinct claims,
   * and there are never more clusters than claims.
   */
  lemma {:induction false} ClusterPartition(claims: seq<string>, cm: ClaimMap, scorer: Scorer, threshold: int)
    requires forall c :: c in claims ==> c in cm.backers
    ensures |Flatten(ClusterClaims(claims, cm, scorer, threshold))| == |claims|
    ensures forall c :: c in Flatten(ClusterClaims(claims, cm, scorer, threshold)) <==> c in claims
    ensures |ClusterClaims(claims, cm, scorer, threshold)| <= |claims|
  {
    if claims != [] {
      var n := |claims| - 1;
      ClusterPartition(claims[..n], cm, scorer, threshold);
      var before := ClusterClaims(claims[..n], cm, scorer, threshold);
      var after := ClusterClaims(claims, cm, scorer, threshold);
      ClusterClaimsLast(claims, cm, scorer, threshold);
      PlaceMembers(before, claims[n], cm, scorer, threshold);
      PlaceGrows(before, claims[n], cm, scorer, threshold);
      forall c ensures c in Flatten(after) <==> c in claims {
        InLast(claims, c);
      }
    }
  }

  lemma InLast(s: seq<string>, c: string)
    requires s != []
    ensures c in s <==> c in s[..|s| - 1] || c == s[|s| - 1]
  {
    assert s == s[..|s| - 1] + [s[|s| - 1]];
  }

  // ---------------------------------------------------------------------
  // First fit against fixed representatives

  /**
   * Member `m`, at position `p` of cluster `i`, matches no earlier cluster's
   * representative, and, unless it founded the cluster, matches its own.
   */
  ghost predicate Placed(clusters: seq<Cluster>, i: nat, p: nat, scorer: Scorer, threshold: int)
    requires i < |clusters| && p < |clusters[i].members|
  {
    var m := clusters[i].members[p];
    && (forall j :: 0 <= j < i ==> !Matches(scorer, threshold, m, clusters[j].rep))
    && (p > 0 ==> Matches(scorer, threshold, m, clusters[i].rep))
  }

  ghost predicate FirstFitOrder(clusters: seq<Cluster>, scorer: Scorer, threshold: int)
  {
    forall i, p :: 0 <= i < |clusters| && 0 <= p < |clusters[i].members| ==> Placed(clusters, i, p, scorer, threshold)
  }

  lemma PlaceFirstFit(clusters: seq<Cluster>, c: string, cm: ClaimMap, scorer: Scorer, threshold: int)
    requires c in cm.backers && WellFormed(clusters, cm) && FirstFitOrder(clusters, scorer, threshold)
    ensures FirstFitOrder(Place(clusters, c, cm, scorer, threshold), scorer, threshold)
  {
    var r := Place(clusters, c, cm, scorer, threshold);
    var k := FirstFit(clusters, c, scorer, threshold, 0);
    PlaceShape(clusters, c, cm, scorer, threshold);
    forall i, p | 0 <= i < |r| && 0 <= p < |r[i].members| ensures Placed(r, i, p, scorer, threshold) {
      if i < |clusters| && p < |clusters[i].members| {
        assert Placed(clusters, i, p, scorer, threshold);
        assert r[i].members[p] == clusters[i].members[p];
      } else {
        assert r[i].members[p] == c;
      }
    }
  }

  /** Each claim joined the earliest cluster whose representative it matched, or founded one. */
  lemma {:induction false} ClusterFirstFit(claims: seq<string>, cm: ClaimMap, scorer: Scorer, threshold: int)
    requires forall c :: c in claims ==> c in cm.backers
    ensures FirstFitOrder(ClusterClaims(claims, cm, scorer, threshold), scorer, threshold)
  {
    if claims != [] {
      var n := |claims| - 1;
      ClusterFirstFit(claims[..n], cm, scorer, threshold);
      PlaceFirstFit(ClusterClaims(claims[..n], cm, scorer, threshold), claims[n], cm, scorer, threshold);
    }
  }

  /**
   * Representatives never change and clusters never merge: the clusters
   * after a prefix of the claims keep their representatives and only gain
   * members at the end.
   */
  lemma {:induction false} ClusterGrowth(claims: seq<string>, cm: ClaimMap, scorer: Scorer, threshold: int, m: nat)
    requires forall c :: c in claims ==> c in cm.backers
    requires m <= |claims|
    ensures var a := ClusterClaims(claims[..m], cm, scorer, threshold);
      var b := ClusterClaims(claims, cm, scorer, threshold);
      && |a| <= |b|
      && forall i :: 0 <= i < |a| ==> b[i].rep == a[i].rep && a[i].members <= b[i].members
  {
    if m < |claims| {
      var n := |claims| - 1;
      assert claims[..n][..m] == claims[..m];
      var a := ClusterClaims(claims[..m], cm, scorer, threshold);
      var mid := ClusterClaims(claims[..n], cm, scorer, threshold);
      var b := ClusterClaims(claims, cm, scorer, threshold);
      ClusterGrowth(claims[..n], cm, scorer, threshold, m);
      ClusterClaimsLast(claims, cm, scorer, threshold);
      PlaceGrows(mid, claims[n], cm, scorer, threshold);
      forall i | 0 <= i < |a| ensures b[i].rep == a[i].rep && a[i].members <= b[i].members {
        assert a[i].members <= mid[i].members <= b[i].members;
      }
    } else {
      assert claims[..m] == claims;
    }
  }

  /** Under the substring fallback a claim matches exactly when one string contains the other. */
  lemma FallbackMatches(c: string, rep: string, threshold: int)
    requires 0 < threshold <= 100
    ensures Matches(SubstringFallback, threshold, c, rep) <==> IsSubstring(c, rep) || IsSubstring(rep, c)
  {
  }

  /** The last claim is placed into the clusters of the ones before it. */
  lemma ClusterClaimsLast(claims: seq<string>, cm: ClaimMap, scorer: Scorer, threshold: int)
    requires claims != [] && forall c :: c in claims ==> c in cm.backers
    ensures ClusterClaims(claims, cm, scorer, threshold) ==
      Place(ClusterClaims(claims[..|claims| - 1], cm, scorer, threshold), claims[|claims| - 1], cm, scorer, threshold)
  {
  }

  /** Placing a claim keeps every cluster's representative and only adds members at the end. */
  lemma PlaceGrows(clusters: seq<Cluster>, c: string, cm: ClaimMap, scorer: Scorer, threshold: int)
    requires c in cm.backers && WellFormed(clusters, cm)
    ensures var r := Place(clusters, c, cm, scorer, threshold);
      && |clusters| <= |r| <= |clusters| + 1
      && forall i :: 0 <= i < |clusters| ==> r[i].rep == clusters[i].rep && clusters[i].members <= r[i].members
  {
    PlaceShape(clusters, c, cm, scorer, threshold);
  }

  // ---------------------------------------------------------------------
  // The url sets

  lemma UrlsOfConcat(a: seq<Source>, b: seq<Source>)
    ensures UrlsOf(a + b) == UrlsOf(a) + UrlsOf(b)
  {
    forall u | u in UrlsOf(a) + UrlsOf(b) ensures u in UrlsOf(a + b) {
      if u in UrlsOf(a) {
        var k :| 0 <= k < |a| && a[k].url == u;
        assert (a + b)[k].url == u;
      } else {
        var k :| 0 <= k < |b| && b[k].url == u;
        assert (a + b)[|a| + k].url == u;
      }
    }
  }

  lemma BackersSnoc(members: seq<string>, c: string, cm: ClaimMap)
    requires forall m :: m in members ==> m in cm.backers
    requires c in cm.backers
    ensures Backers(members + [c], cm) == Backers(members, cm) + cm.backers[c]
  {
    assert (members + [c])[..|members|] == members;
  }

  /** Each cluster's url set holds the urls of its members' sources. */
  ghost predicate UrlsTracked(clusters: seq<Cluster>, cm: ClaimMap)
    requires WellFormed(clusters, cm)
  {
    forall i :: 0 <= i < |clusters| ==> clusters[i].urls == UrlsOf(Backers(clusters[i].members, cm))
  }

  lemma PlaceUrls(clusters: seq<Cluster>, c: string, cm: ClaimMap, scorer: Scorer, threshold: int)
    requires c in cm.backers && WellFormed(clusters, cm) && UrlsTracked(clusters, cm)
    ensures UrlsTracked(Place(clusters, c, cm, scorer, threshold), cm)
  {
    var k := FirstFit(clusters, c, scorer, threshold, 0);
    PlaceShape(clusters, c, cm, scorer, threshold);
    if k < |clusters| {
      BackersSnoc(clusters[k].members, c, cm);
      UrlsOfConcat(Backers(clusters[k].members, cm), cm.backers[c]);
    } else {
      BackersSnoc([], c, cm);
      assert [] + [c] == [c];
      UrlsOfConcat([], cm.backers[c]);
    }
  }

  lemma {:induction false} ClusterUrls(claims: seq<string>, cm: ClaimMap, scorer: Scorer, threshold: int)
    requires forall c :: c in claims ==> c in cm.backers
    ensures UrlsTracked(ClusterClaims(claims, cm, scorer, threshold), cm)
  {
    if claims != [] {
      var n := |claims| - 1;
      ClusterUrls(claims[..n], cm, scorer, threshold);
      PlaceUrls(ClusterClaims(claims[..n], cm, scorer, threshold), claims[n], cm, scorer, threshold);
    }
  }

  /** Keeping the first source per url keeps every url. */
  lemma {:induction false} DedupUrls(srcs: seq<Source>)
    ensures UrlsOf(DedupByUrl(srcs)) == UrlsOf(srcs)
  {
    if srcs != [] {
      var n := |srcs| - 1;
      var before := DedupByUrl(srcs[..n]);
      DedupUrls(srcs[..n]);
      assert srcs == srcs[..n] + [srcs[n]];
      UrlsOfConcat(srcs[..n], [srcs[n]]);
      if HasUrl(before, srcs[n].url) {
        var k :| 0 <= k < |before| && before[k].url == srcs[n].url;
      } else {
        UrlsOfConcat(before, [srcs[n]]);
      }
    }
  }

  /** A list of url-distinct sources has as many urls as sources. */
  lemma {:induction false} DistinctUrlCount(srcs: seq<Source>)
    requires DistinctUrls(srcs)
    ensures |UrlsOf(srcs)| == |srcs|
  {
    if srcs != [] {
      var n := |srcs| - 1;
      DistinctUrlCount(srcs[..n]);
      assert srcs == srcs[..n] + [srcs[n]];
      UrlsOfConcat(srcs[..n], [srcs[n]]);
      assert UrlsOf([srcs[n]]) == {srcs[n].url};
    }
  }

  /** A cluster's support has exactly one source per url of the cluster. */
  lemma SupportMatchesUrls(cl: Cluster, cm: ClaimMap)
    requires cl.members != [] && forall m :: m in cl.members ==> m in cm.backers
    requires cl.urls == UrlsOf(Backers(cl.members, cm))
    ensures UrlsOf(Support(cl.members, cm)) == cl.urls
    ensures |Support(cl.members, cm)| == |cl.urls|
  {
    DedupUrls(Backers(cl.members, cm));
    DistinctUrlCount(Support(cl.members, cm));
  }
}
