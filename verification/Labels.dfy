/** Matching of AddonValue labels by a selector
    (internal/controller/values/aggregator.go, FilterAddonLabels and ExactMatchAddonLabels). */
module Labels {
  type LabelMap = map<string, string>

  const ADDON_PREFIX := "addons.in-cloud.io/"

  function FilterAddonLabels(labels: LabelMap): LabelMap {
    map k | k in labels && ADDON_PREFIX <= k :: labels[k]
  }

  /** Reading a missing key of a string map yields the empty string. */
  function Lookup(labels: LabelMap, k: string): string {
    if k in labels then labels[k] else ""
  }

  predicate ExactMatch(selector: LabelMap, resource: LabelMap) {
    var s, r := FilterAddonLabels(selector), FilterAddonLabels(resource);
    |s| == |r| && forall k | k in s :: Lookup(r, k) == s[k]
  }

  /** The API server's label selection: every requested label is present with that value. */
  predicate ServerMatch(wanted: LabelMap, labels: LabelMap) {
    forall k | k in wanted :: k in labels && labels[k] == wanted[k]
  }

  /** The two stages an AddonValue passes: the server's pre-filter, then the exact match. */
  predicate Selects(selector: LabelMap, resource: LabelMap) {
    var wanted := FilterAddonLabels(selector);
    (|wanted| > 0 ==> ServerMatch(wanted, resource)) && ExactMatch(selector, resource)
  }

  lemma SameSizeSubmap(small: LabelMap, big: LabelMap)
    requires |small| == |big| && forall k | k in small :: k in big && big[k] == small[k]
    ensures small == big
  {
    assert small.Keys <= big.Keys && |small.Keys| == |big.Keys|;
    SubsetOfSameSize(small.Keys, big.Keys);
  }

  lemma SubsetOfSameSize<T>(small: set<T>, big: set<T>)
    requires small <= big && |small| == |big|
    ensures small == big
  {
    assert |big - small| == |big| - |small|;
  }

  /** Both have this key with the same value, or neither has it. */
  predicate Agree(selector: LabelMap, resource: LabelMap, k: string) {
    (k in selector <==> k in resource) && (k in selector && k in resource ==> selector[k] == resource[k])
  }

  lemma FilterIsAgreement(selector: LabelMap, resource: LabelMap)
    ensures FilterAddonLabels(selector) == FilterAddonLabels(resource) <==>
            forall k | "addons.in-cloud.io/" <= k :: Agree(selector, resource, k)
  {
    var s, r := FilterAddonLabels(selector), FilterAddonLabels(resource);
    if s == r {
      forall k | "addons.in-cloud.io/" <= k
        ensures Agree(selector, resource, k)
      {
        assert k in s <==> k in selector;
        assert k in r <==> k in resource;
      }
    }
    if forall k | "addons.in-cloud.io/" <= k :: Agree(selector, resource, k) {
      forall k
        ensures k in s <==> k in r
        ensures k in s ==> s[k] == r[k]
      {
        assert "addons.in-cloud.io/" <= k ==> Agree(selector, resource, k);
      }
    }
  }

  /** Both stages together compare the addon-prefixed labels exactly, empty values included. */
  lemma SelectsIsEquality(selector: LabelMap, resource: LabelMap)
    ensures Selects(selector, resource) <==> FilterAddonLabels(selector) == FilterAddonLabels(resource)
    ensures Selects(selector, resource) <==>
            forall k | "addons.in-cloud.io/" <= k :: Agree(selector, resource, k)
  {
    var s, r := FilterAddonLabels(selector), FilterAddonLabels(resource);
    FilterIsAgreement(selector, resource);
    if Selects(selector, resource) {
      SameSizeSubmap(s, r);
    }
    if s == r {
      assert forall k | k in s :: k in resource;
    }
  }

  lemma NoExactMatchDiffers(selector: LabelMap, resource: LabelMap)
    requires !ExactMatch(selector, resource)
    ensures FilterAddonLabels(selector) != FilterAddonLabels(resource)
  {
  }

  lemma LongerThanAll(keys: set<string>) returns (n: nat)
    ensures forall k | k in keys :: |k| < n
  {
    if keys == {} {
      n := 0;
    } else {
      var k :| k in keys;
      var m := LongerThanAll(keys - {k});
      n := m + |k| + 1;
    }
  }

  lemma FreshAddonKey(keys: set<string>) returns (unused: string)
    ensures unused !in keys && ADDON_PREFIX <= unused
  {
    var n := LongerThanAll(keys);
    unused := ADDON_PREFIX + seq(n, _ => 'x');
    assert |unused| >= n;
  }

  /** The exact match alone is label equality for every resource iff no addon label of the selector
      has the empty value: an empty value also matches a key the resource lacks. */
  lemma ExactMatchAloneIff(selector: LabelMap)
    ensures (forall resource: LabelMap ::
              ExactMatch(selector, resource) <==> FilterAddonLabels(selector) == FilterAddonLabels(resource))
            <==> (forall k | k in FilterAddonLabels(selector) :: selector[k] != "")
  {
    var s := FilterAddonLabels(selector);
    if forall k | k in s :: selector[k] != "" {
      forall resource: LabelMap
        ensures ExactMatch(selector, resource) <==> s == FilterAddonLabels(resource)
      {
        if ExactMatch(selector, resource) {
          SameSizeSubmap(s, FilterAddonLabels(resource));
        }
      }
    } else {
      var k :| k in s && selector[k] == "";
      var unused := FreshAddonKey(s.Keys);
      var resource := (s - {k})[unused := "x"];
      var r := FilterAddonLabels(resource);
      assert r == resource;
      assert r.Keys == s.Keys - {k} + {unused};
      assert ExactMatch(selector, resource) by {
        assert |s.Keys - {k} + {unused}| == |s.Keys|;
        assert |r| == |r.Keys| && |s| == |s.Keys|;
      }
      assert s != r;
    }
  }
}
