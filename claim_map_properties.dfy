/**
 * What step 3 of `verify_facts` builds: `claim_map` has every claim of every
 * source as a key, in the order the claims are first met, and lists each
 * source that produced a claim, once per url.
 */
module ClaimMapProperties {
  import opened Verification

  /** The claims in order, each kept only at its first occurrence. */
  function Firsts(xs: seq<string>): (r: seq<string>)
    ensures forall c :: c in r <==> c in xs
  {
    if xs == [] then []
    else
      var n := |xs| - 1;
      Firsts(xs[..n]) + (if xs[n] in xs[..n] then [] else [xs[n]])
  }

  /** The claims of all sources, source after source. */
  function Flat(lists: seq<seq<string>>): seq<string>
  {
    if lists == [] then [] else Flat(lists[..|lists| - 1]) + lists[|lists| - 1]
  }

  lemma FirstsDistinct(xs: seq<string>)
    ensures DistinctKeys(Firsts(xs))
  {
    if xs != [] {
      var n := |xs| - 1;
      FirstsDistinct(xs[..n]);
    }
  }

  /** `setdefault` appends a new claim to the keys and leaves the keys alone otherwise. */
  lemma AddBackerKeys(cm: ClaimMap, claim: string, src: Source)
    ensures AddBacker(cm, claim, src).keys == if claim in cm.backers then cm.keys else cm.keys + [claim]
    ensures forall c :: c in AddBacker(cm, claim, src).backers <==> c in cm.backers || c == claim
  {
  }

  /** After the append, some source with the url of `src` is listed under the claim. */
  lemma AddBackerCovers(cm: ClaimMap, claim: string, src: Source)
    ensures claim in AddBacker(cm, claim, src).backers
    ensures HasUrl(AddBacker(cm, claim, src).backers[claim], src.url)
  {
    var r := AddBacker(cm, claim, src);
    if claim !in cm.backers {
      assert r.backers[claim][0] == src;
    } else if !HasUrl(cm.backers[claim], src.url) {
      assert r.backers[claim][|cm.backers[claim]|] == src;
    }
  }

  /** A key's sources are only ever extended. */
  lemma AddBackerGrows(cm: ClaimMap, claim: string, src: Source, c: string)
    requires c in cm.backers
    ensures c in AddBacker(cm, claim, src).backers && cm.backers[c] <= AddBacker(cm, claim, src).backers[c]
  {
  }

  lemma FirstsSnoc(xs: seq<string>, y: string)
    ensures Firsts(xs + [y]) == Firsts(xs) + (if y in xs then [] else [y])
  {
    assert (xs + [y])[..|xs|] == xs;
  }

  /** The keys after adding `claims` are everything seen so far. */
  lemma {:induction false} AddClaimsDomain(cm: ClaimMap, claims: seq<string>, src: Source, seen: seq<string>)
    requires forall c :: c in cm.backers <==> c in seen
    ensures forall c :: c in AddClaims(cm, claims, src).backers <==> c in seen + claims
  {
    if claims != [] {
      var n := |claims| - 1;
      AddClaimsDomain(cm, claims[..n], src, seen);
      var before := AddClaims(cm, claims[..n], src);
      AddBackerKeys(before, claims[n], src);
      var prior := seen + claims[..n];
      assert seen + claims == prior + [claims[n]];
      forall c ensures c in seen + claims <==> c in prior || c == claims[n] {
        assert c in prior + [claims[n]] <==> c in prior || c == claims[n];
      }
    } else {
      assert seen + claims == seen;
    }
  }

  /** The keys after adding `claims`, in order, are the first occurrences of everything seen so far. */
  lemma {:induction false} AddClaimsKeys(cm: ClaimMap, claims: seq<string>, src: Source, seen: seq<string>)
    requires cm.keys == Firsts(seen) && (forall c :: c in cm.backers <==> c in seen)
    ensures AddClaims(cm, claims, src).keys == Firsts(seen + claims)
  {
    if claims != [] {
      var n := |claims| - 1;
      var before := AddClaims(cm, claims[..n], src);
      var prior := seen + claims[..n];
      calc {
        AddClaims(cm, claims, src).keys;
        AddBacker(before, claims[n], src).keys;
        == { AddBackerKeys(before, claims[n], src); }
        if claims[n] in before.backers then before.keys else before.keys + [claims[n]];
        == { AddClaimsKeys(cm, claims[..n], src, seen); AddClaimsDomain(cm, claims[..n], src, seen); }
        Firsts(prior) + (if claims[n] in prior then [] else [claims[n]]);
        == { FirstsSnoc(prior, claims[n]); }
        Firsts(prior + [claims[n]]);
        == { assert seen + claims == prior + [claims[n]]; }
        Firsts(seen + claims);
      }
    } else {
      assert seen + claims == seen;
    }
  }

  /** `claim_map`'s keys are the claims of all sources in the order first met. */
  lemma {:induction false} MapKeys(sources: seq<Source>, lists: seq<seq<string>>)
    requires |lists| == |sources|
    ensures BuildClaimMap(sources, lists).keys == Firsts(Flat(lists))
    ensures forall c :: c in BuildClaimMap(sources, lists).backers <==> c in Flat(lists)
  {
    if sources != [] {
      var n := |sources| - 1;
      MapKeys(sources[..n], lists[..n]);
      AddClaimsKeys(BuildClaimMap(sources[..n], lists[..n]), lists[n], sources[n], Flat(lists[..n]));
      AddClaimsDomain(BuildClaimMap(sources[..n], lists[..n]), lists[n], sources[n], Flat(lists[..n]));
    }
  }

  /** Adding claims never removes a key or a listed source. */
  lemma {:induction false} AddClaimsGrows(cm: ClaimMap, claims: seq<string>, src: Source, c: string)
    requires c in cm.backers
    ensures c in AddClaims(cm, claims, src).backers
    ensures cm.backers[c] <= AddClaims(cm, claims, src).backers[c]
  {
    if claims != [] {
      AddClaimsGrows(cm, claims[..|claims| - 1], src, c);
      AddBackerGrows(AddClaims(cm, claims[..|claims| - 1], src), claims[|claims| - 1], src, c);
    }
  }

  /** After adding `claims[..k]` for `src`, each of them lists a source with the url of `src`. */
  lemma {:induction false} AddClaimsCovers(cm: ClaimMap, claims: seq<string>, src: Source, j: nat)
    requires j < |claims|
    ensures claims[j] in AddClaims(cm, claims, src).backers
    ensures HasUrl(AddClaims(cm, claims, src).backers[claims[j]], src.url)
  {
    var n := |claims| - 1;
    var before := AddClaims(cm, claims[..n], src);
    if j < n {
      AddClaimsCovers(cm, claims[..n], src, j);
      assert claims[..n][j] == claims[j];
      var k :| 0 <= k < |before.backers[claims[j]]| && before.backers[claims[j]][k].url == src.url;
      var after := AddBacker(before, claims[n], src);
      AddBackerGrows(before, claims[n], src, claims[j]);
      assert after.backers[claims[j]][k].url == src.url;
    } else {
      AddBackerCovers(before, claims[n], src);
    }
  }

  /** Growing a claim map keeps every key and extends every key's source list. */
  lemma {:induction false} BuildGrows(sources: seq<Source>, lists: seq<seq<string>>, m: nat, c: string)
    requires |lists| == |sources| && m <= |sources|
    requires c in BuildClaimMap(sources[..m], lists[..m]).backers
    ensures c in BuildClaimMap(sources, lists).backers
    ensures BuildClaimMap(sources[..m], lists[..m]).backers[c] <= BuildClaimMap(sources, lists).backers[c]
    decreases |sources|
  {
    if m < |sources| {
      var n := |sources| - 1;
      assert sources[..n][..m] == sources[..m] && lists[..n][..m] == lists[..m];
      BuildGrows(sources[..n], lists[..n], m, c);
      AddClaimsGrows(BuildClaimMap(sources[..n], lists[..n]), lists[n], sources[n], c);
    } else {
      assert sources[..m] == sources && lists[..m] == lists;
    }
  }

  /** Every claim of source `i` is a key, and a source with its url is listed under it. */
  lemma MapComplete(sources: seq<Source>, lists: seq<seq<string>>, i: nat, c: string)
    requires |lists| == |sources| && i < |sources| && c in lists[i]
    ensures c in BuildClaimMap(sources, lists).backers
    ensures HasUrl(BuildClaimMap(sources, lists).backers[c], sources[i].url)
  {
    var j :| 0 <= j < |lists[i]| && lists[i][j] == c;
    var before := BuildClaimMap(sources[..i], lists[..i]);
    assert sources[..i + 1][..i] == sources[..i] && lists[..i + 1][..i] == lists[..i];
    assert sources[..i + 1][i] == sources[i] && lists[..i + 1][i] == lists[i];
    AddClaimsCovers(before, lists[i], sources[i], j);
    var mid := BuildClaimMap(sources[..i + 1], lists[..i + 1]);
    assert mid == AddClaims(before, lists[i], sources[i]);
    var k :| 0 <= k < |mid.backers[c]| && mid.backers[c][k].url == sources[i].url;
    BuildGrows(sources, lists, i + 1, c);
    assert BuildClaimMap(sources, lists).backers[c][k].url == sources[i].url;
  }

  /** The claim map of `verify_facts` has exactly the claims of its sources as keys. */
  lemma MapOfKeys(sources: seq<Source>, c: string)
    requires AllWellTyped(sources)
    ensures c in MapOf(sources).backers <==> exists i :: 0 <= i < |sources| && c in ClaimLists(sources)[i]
  {
    var lists := ClaimLists(sources);
    MapKeys(sources, lists);
    if c in MapOf(sources).backers {
      var i := FlatMember(lists, c);
    }
    if exists i :: 0 <= i < |sources| && c in lists[i] {
      var i :| 0 <= i < |sources| && c in lists[i];
      MapComplete(sources, lists, i, c);
    }
  }

  /** A claim of the concatenation comes from one of the lists. */
  lemma {:induction false} FlatMember(lists: seq<seq<string>>, c: string) returns (i: nat)
    requires c in Flat(lists)
    ensures i < |lists| && c in lists[i]
  {
    var n := |lists| - 1;
    if c in Flat(lists[..n]) {
      i := FlatMember(lists[..n], c);
      assert lists[..n][i] == lists[i];
    } else {
      i := n;
    }
  }

  /** Every listed source is an input that produced that claim. */
  lemma MapOfSound(sources: seq<Source>, c: string, s: Source)
    requires AllWellTyped(sources)
    requires c in MapOf(sources).backers && s in MapOf(sources).backers[c]
    ensures s in sources && c in ClaimsOf(s)
  {
    var lists := ClaimLists(sources);
    MapSources(sources, lists);
    var i :| 0 <= i < |sources| && sources[i] == s && c in lists[i];
  }
}
