/** Aggregation of the AddonValues an Addon selects
    (internal/controller/values/aggregator.go, AggregateValues and aggregateForSelector) and the event
    mapper that must cover it (internal/controller/addon/controller.go, FindAddonsForAddonValue). */
module Aggregation {
  import opened Wrappers
  import opened Documents
  import opened Labels
  import opened Sorting

  datatype ValuesSelector = ValuesSelector(name: string, priority: int, matchLabels: LabelMap)

  /** rendered is the outcome of rendering the template text and parsing the result as YAML. */
  datatype AddonValue = AddonValue(name: string, labels: LabelMap, rendered: Result<Doc>)

  function ByPriority(): (ValuesSelector, ValuesSelector) -> bool {
    (a: ValuesSelector, b: ValuesSelector) => a.priority <= b.priority
  }

  function ByName(): (AddonValue, AddonValue) -> bool {
    (a: AddonValue, b: AddonValue) => NameLeq(a.name, b.name)
  }

  lemma OrdersAreTotal()
    ensures TotalPreorder(ByPriority()) && TotalPreorder(ByName())
  {
    forall x: AddonValue, y: AddonValue
      ensures ByName()(x, y) || ByName()(y, x)
    {
      NameLeqTotal(x.name, y.name);
    }
    forall x: AddonValue, y: AddonValue, z: AddonValue | ByName()(x, y) && ByName()(y, z)
      ensures ByName()(x, z)
    {
      NameLeqTransitive(x.name, y.name, z.name);
    }
  }

  // ---- Specification ----

  /** The listed values whose addon labels equal the selector's, in listing order. */
  function Chosen(selector: ValuesSelector, listing: seq<AddonValue>): seq<AddonValue> {
    if listing == [] then []
    else
      var front, last := Chosen(selector, listing[..|listing| - 1]), listing[|listing| - 1];
      if FilterAddonLabels(selector.matchLabels) == FilterAddonLabels(last.labels) then front + [last] else front
  }

  /** Merge of the rendered documents in order; the first failure is the result. */
  function MergeRendered(values: seq<AddonValue>): Result<Doc> {
    if values == [] then Ok(map[])
    else
      match MergeRendered(values[..|values| - 1])
      case Err(e) => Err(e)
      case Ok(d) =>
        match values[|values| - 1].rendered
        case Err(e) => Err(e)
        case Ok(r) => Ok(DeepMerge(d, r))
  }

  function ForSelector(selector: ValuesSelector, listing: seq<AddonValue>): Result<Doc> {
    MergeRendered(Sort(ByName(), Chosen(selector, listing)))
  }

  /** Each selector lists anew: what the n-th list call sees, before any filter. */
  type Listings = nat -> seq<AddonValue>

  function ForSelectors(selectors: seq<ValuesSelector>, lists: Listings): Result<Doc> {
    if selectors == [] then Ok(map[])
    else
      match ForSelectors(selectors[..|selectors| - 1], lists)
      case Err(e) => Err(e)
      case Ok(d) =>
        match ForSelector(selectors[|selectors| - 1], lists(|selectors| - 1))
        case Err(e) => Err(e)
        case Ok(r) => Ok(DeepMerge(d, r))
  }

  function Aggregate(spec: seq<ValuesSelector>, phase: seq<ValuesSelector>, lists: Listings): Result<Doc> {
    ForSelectors(Sort(ByPriority(), spec + phase), lists)
  }

  // ---- The source's loops ----

  lemma MergeRenderedStep(values: seq<AddonValue>, i: nat)
    requires i < |values|
    ensures MergeRendered(values[..i + 1]) ==
            match MergeRendered(values[..i])
            case Err(e) => Err(e)
            case Ok(d) =>
              match values[i].rendered
              case Err(e) => Err(e)
              case Ok(r) => Ok(DeepMerge(d, r))
  {
    assert values[..i + 1][..i] == values[..i];
  }

  lemma {:induction false} MergeRenderedFails(values: seq<AddonValue>, i: nat)
    requires i <= |values| && MergeRendered(values[..i]).Err?
    ensures MergeRendered(values) == MergeRendered(values[..i])
    decreases |values| - i
  {
    if i < |values| {
      MergeRenderedStep(values, i);
      MergeRenderedFails(values, i + 1);
    } else {
      assert values[..i] == values;
    }
  }

  lemma {:induction false} ForSelectorsFails(selectors: seq<ValuesSelector>, lists: Listings, i: nat)
    requires i <= |selectors| && ForSelectors(selectors[..i], lists).Err?
    ensures ForSelectors(selectors, lists) == ForSelectors(selectors[..i], lists)
    decreases |selectors| - i
  {
    if i < |selectors| {
      assert selectors[..i + 1][..i] == selectors[..i];
      ForSelectorsFails(selectors, lists, i + 1);
    } else {
      assert selectors[..i] == selectors;
    }
  }

  /** What the API returns for a list restricted by label equality. */
  function ServerList(listing: seq<AddonValue>, wanted: LabelMap): seq<AddonValue> {
    if listing == [] then []
    else
      var front, last := ServerList(listing[..|listing| - 1], wanted), listing[|listing| - 1];
      if |wanted| > 0 && !ServerMatch(wanted, last.labels) then front else front + [last]
  }

  function ExactlyMatching(selector: ValuesSelector, items: seq<AddonValue>): seq<AddonValue> {
    if items == [] then []
    else
      var front, last := ExactlyMatching(selector, items[..|items| - 1]), items[|items| - 1];
      if ExactMatch(selector.matchLabels, last.labels) then front + [last] else front
  }

  /** Pre-filter plus exact match choose exactly the values with equal addon labels. */
  lemma {:induction false} TwoStagesChoose(selector: ValuesSelector, listing: seq<AddonValue>)
    ensures ExactlyMatching(selector, ServerList(listing, FilterAddonLabels(selector.matchLabels)))
            == Chosen(selector, listing)
  {
    if listing != [] {
      var wanted := FilterAddonLabels(selector.matchLabels);
      var front, last := listing[..|listing| - 1], listing[|listing| - 1];
      TwoStagesChoose(selector, front);
      SelectsIsEquality(selector.matchLabels, last.labels);
      var items := ServerList(front, wanted);
      assert (items + [last])[..|items|] == items;
    }
  }

  method AggregateForSelector(selector: ValuesSelector, listing: seq<AddonValue>) returns (result: Result<Doc>)
    ensures result == ForSelector(selector, listing)
  {
    var addonLabels := FilterAddonLabels(selector.matchLabels);
    var prefiltered := ServerList(listing, addonLabels);
    var matching: seq<AddonValue> := [];
    for i := 0 to |prefiltered|
      invariant matching == ExactlyMatching(selector, prefiltered[..i])
    {
      assert prefiltered[..i + 1][..i] == prefiltered[..i];
      if ExactMatch(selector.matchLabels, prefiltered[i].labels) {
        matching := matching + [prefiltered[i]];
      }
    }
    assert prefiltered[..|prefiltered|] == prefiltered;
    TwoStagesChoose(selector, listing);
    matching := Sort(ByName(), matching);

    var merged: Doc := map[];
    for i := 0 to |matching|
      invariant MergeRendered(matching[..i]) == Ok(merged)
    {
      MergeRenderedStep(matching, i);
      match matching[i].rendered {
        case Err(e) =>
          MergeRenderedFails(matching, i + 1);
          return Err(e);
        case Ok(values) =>
          merged := DeepMerge(merged, values);
      }
    }
    assert matching[..|matching|] == matching;
    return Ok(merged);
  }

  lemma ForSelectorsNext(selectors: seq<ValuesSelector>, lists: Listings, i: nat, merged: Doc)
    requires i < |selectors| && ForSelectors(selectors[..i], lists) == Ok(merged)
    ensures var values := ForSelector(selectors[i], lists(i));
            ForSelectors(selectors[..i + 1], lists)
            == if values.Ok? then Ok(DeepMerge(merged, values.value)) else values
  {
    assert selectors[..i + 1][..i] == selectors[..i];
  }

  method AggregateValues(spec: seq<ValuesSelector>, phase: seq<ValuesSelector>, lists: Listings)
    returns (result: Result<Doc>)
    ensures result == Aggregate(spec, phase, lists)
  {
    var selectors := Sort(ByPriority(), spec + phase);
    var merged: Doc := map[];
    for i := 0 to |selectors|
      invariant ForSelectors(selectors[..i], lists) == Ok(merged)
    {
      ForSelectorsNext(selectors, lists, i, merged);
      var values := AggregateForSelector(selectors[i], lists(i));
      match values {
        case Err(e) =>
          ForSelectorsFails(selectors, lists, i + 1);
          return Err(e);
        case Ok(d) =>
          merged := DeepMerge(merged, d);
      }
    }
    assert selectors[..|selectors|] == selectors;
    return Ok(merged);
  }

  // ---- Independence of the listing order ----

  ghost predicate UniqueNames(listing: seq<AddonValue>) {
    forall i, j | 0 <= i < j < |listing| :: listing[i].name != listing[j].name
  }

  lemma {:induction false} ChosenMultiset(selector: ValuesSelector, listing: seq<AddonValue>, v: AddonValue)
    ensures multiset(Chosen(selector, listing))[v] ==
            if FilterAddonLabels(selector.matchLabels) == FilterAddonLabels(v.labels) then multiset(listing)[v] else 0
  {
    if listing != [] {
      var front, last := listing[..|listing| - 1], listing[|listing| - 1];
      assert listing == front + [last];
      ChosenMultiset(selector, front, v);
    }
  }

  lemma ChosenIn(selector: ValuesSelector, listing: seq<AddonValue>, v: AddonValue)
    requires v in Chosen(selector, listing)
    ensures v in listing
  {
    ChosenMultiset(selector, listing, v);
    assert v in multiset(Chosen(selector, listing));
    assert v in multiset(listing);
  }

  lemma ForSelectorOrderIndependent(selector: ValuesSelector, xs: seq<AddonValue>, ys: seq<AddonValue>)
    requires multiset(xs) == multiset(ys) && UniqueNames(xs)
    ensures ForSelector(selector, xs) == ForSelector(selector, ys)
  {
    var c, d := Chosen(selector, xs), Chosen(selector, ys);
    forall v: AddonValue
      ensures multiset(c)[v] == multiset(d)[v]
    {
      ChosenMultiset(selector, xs, v);
      ChosenMultiset(selector, ys, v);
    }
    assert multiset(c) == multiset(d);
    OrdersAreTotal();
    SortSorts(ByName(), c);
    SortSorts(ByName(), d);
    var s, t := Sort(ByName(), c), Sort(ByName(), d);
    forall v, w | v in s && w in s && ByName()(v, w) && ByName()(w, v)
      ensures v == w
    {
      assert v in multiset(s) && w in multiset(s);
      ChosenIn(selector, xs, v);
      ChosenIn(selector, xs, w);
      NameLeqAntisymmetric(v.name, w.name);
    }
    SortedUnique(ByName(), s, t);
  }

  /** Each list call may return the same values in an order of its own. */
  ghost predicate SameUpToOrder(xs: Listings, ys: Listings) {
    forall n :: UniqueNames(xs(n)) && multiset(xs(n)) == multiset(ys(n))
  }

  lemma {:induction false} ForSelectorsOrderIndependent(selectors: seq<ValuesSelector>, xs: Listings, ys: Listings)
    requires SameUpToOrder(xs, ys)
    ensures ForSelectors(selectors, xs) == ForSelectors(selectors, ys)
  {
    if selectors != [] {
      var n := |selectors| - 1;
      ForSelectorsOrderIndependent(selectors[..n], xs, ys);
      ForSelectorOrderIndependent(selectors[n], xs(n), ys(n));
    }
  }

  /** The aggregate does not depend on the orders in which the API lists the AddonValues. */
  lemma AggregateOrderIndependent(spec: seq<ValuesSelector>, phase: seq<ValuesSelector>, xs: Listings, ys: Listings)
    requires SameUpToOrder(xs, ys)
    ensures Aggregate(spec, phase, xs) == Aggregate(spec, phase, ys)
  {
    ForSelectorsOrderIndependent(Sort(ByPriority(), spec + phase), xs, ys);
  }

  // ---- One flat merge in the order (priority, position, name) ----

  /** All documents a selector list reaches, selector by selector and by name within one. */
  function FlatValues(selectors: seq<ValuesSelector>, lists: Listings): seq<AddonValue> {
    if selectors == [] then []
    else
      FlatValues(selectors[..|selectors| - 1], lists)
      + Sort(ByName(), Chosen(selectors[|selectors| - 1], lists(|selectors| - 1)))
  }

  ghost predicate AllRendered(values: seq<AddonValue>) {
    forall i | 0 <= i < |values| :: values[i].rendered.Ok?
  }

  ghost function DocsOf(values: seq<AddonValue>): (docs: seq<Doc>)
    requires AllRendered(values)
    ensures |docs| == |values| && forall i | 0 <= i < |docs| :: docs[i] == values[i].rendered.value
  {
    seq(|values|, i requires 0 <= i < |values| => values[i].rendered.value)
  }

  lemma {:induction false} MergeRenderedIsMergeAll(values: seq<AddonValue>)
    requires AllRendered(values)
    ensures MergeRendered(values) == Ok(MergeAll(DocsOf(values)))
  {
    if values != [] {
      var front := values[..|values| - 1];
      MergeRenderedIsMergeAll(front);
      assert DocsOf(values)[..|values| - 1] == DocsOf(front);
    }
  }

  lemma {:induction false} GroupingIsFlat(selectors: seq<ValuesSelector>, lists: Listings)
    requires AllRendered(FlatValues(selectors, lists))
    requires AllCompatible(DocsOf(FlatValues(selectors, lists)))
    ensures ForSelectors(selectors, lists) == Ok(MergeAll(DocsOf(FlatValues(selectors, lists))))
  {
    if selectors != [] {
      var front, last := selectors[..|selectors| - 1], selectors[|selectors| - 1];
      var before, group := FlatValues(front, lists), Sort(ByName(), Chosen(last, lists(|front|)));
      DocsOfConcat(before, group);
      CompatiblePrefix(DocsOf(before), DocsOf(group));
      GroupingIsFlat(front, lists);
      MergeRenderedIsMergeAll(group);
      MergeAllConcat(DocsOf(before), DocsOf(group));
    }
  }

  lemma DocsOfConcat(xs: seq<AddonValue>, ys: seq<AddonValue>)
    requires AllRendered(xs + ys)
    ensures AllRendered(xs) && AllRendered(ys)
    ensures DocsOf(xs + ys) == DocsOf(xs) + DocsOf(ys)
  {
    assert forall i | 0 <= i < |xs| :: xs[i] == (xs + ys)[i];
    assert forall i | 0 <= i < |ys| :: ys[i] == (xs + ys)[|xs| + i];
  }

  lemma CompatiblePrefix(xs: seq<Doc>, ys: seq<Doc>)
    requires AllCompatible(xs + ys)
    ensures AllCompatible(xs)
  {
    forall i, j | 0 <= i < |xs| && 0 <= j < |xs|
      ensures Compatible(xs[i], xs[j])
    {
      assert xs[i] == (xs + ys)[i] && xs[j] == (xs + ys)[j];
    }
  }

  /** On shape-compatible documents every node of the aggregate is that of the last document that
      defines it, in the order (priority, spec before phase and position, name). */
  lemma AggregateLastWriterWins(
    spec: seq<ValuesSelector>, phase: seq<ValuesSelector>, lists: Listings, p: Path)
    requires p != []
    requires AllRendered(FlatValues(Sort(ByPriority(), spec + phase), lists))
    requires AllCompatible(DocsOf(FlatValues(Sort(ByPriority(), spec + phase), lists)))
    ensures Aggregate(spec, phase, lists).Ok?
    ensures
      var docs := DocsOf(FlatValues(Sort(ByPriority(), spec + phase), lists));
      var last := LastDefining(docs, p);
      At(Aggregate(spec, phase, lists).value, p) == if last < 0 then Absent else At(docs[last], p)
  {
    GroupingIsFlat(Sort(ByPriority(), spec + phase), lists);
    LastWriterWins(DocsOf(FlatValues(Sort(ByPriority(), spec + phase), lists)), p);
  }

  /** Value k is the first that does not render. */
  ghost predicate FirstFailure(values: seq<AddonValue>, k: nat) {
    k < |values| && values[k].rendered.Err? && forall i | 0 <= i < k :: values[i].rendered.Ok?
  }

  /** It fails iff some value does not render, with the error of the first such value. */
  ghost predicate FailsWith(values: seq<AddonValue>, result: Result<Doc>) {
    && (result.Ok? <==> AllRendered(values))
    && forall k: nat | FirstFailure(values, k) :: result == Err(values[k].rendered.error)
  }

  lemma {:induction false} MergeRenderedFailsIff(values: seq<AddonValue>)
    ensures FailsWith(values, MergeRendered(values))
  {
    if values != [] {
      var front, last := values[..|values| - 1], values[|values| - 1];
      MergeRenderedFailsIff(front);
      assert values == front + [last];
      FailureOfConcat(front, [last]);
    }
  }

  lemma FailureOfConcat(xs: seq<AddonValue>, ys: seq<AddonValue>)
    ensures AllRendered(xs + ys) <==> AllRendered(xs) && AllRendered(ys)
    ensures forall k: nat | FirstFailure(xs + ys, k) ::
              if AllRendered(xs) then k >= |xs| && FirstFailure(ys, k - |xs|) else FirstFailure(xs, k)
  {
    var all := xs + ys;
    assert forall i | 0 <= i < |xs| :: all[i] == xs[i];
    assert forall i | 0 <= i < |ys| :: all[|xs| + i] == ys[i];
    forall k: nat | FirstFailure(all, k)
      ensures if AllRendered(xs) then k >= |xs| && FirstFailure(ys, k - |xs|) else FirstFailure(xs, k)
    {
      if k >= |xs| {
        assert forall i | 0 <= i < |xs| :: all[i].rendered.Ok?;
      }
    }
  }

  lemma {:induction false} ForSelectorsFailsIff(selectors: seq<ValuesSelector>, lists: Listings)
    ensures FailsWith(FlatValues(selectors, lists), ForSelectors(selectors, lists))
  {
    if selectors != [] {
      var n := |selectors| - 1;
      var group := Sort(ByName(), Chosen(selectors[n], lists(n)));
      ForSelectorsFailsIff(selectors[..n], lists);
      MergeRenderedFailsIff(group);
      FailureOfConcat(FlatValues(selectors[..n], lists), group);
    }
  }

  /** The aggregation fails iff some chosen value does not render, with the error of the first one in the order
      (priority, spec before phase and position, name). */
  lemma AggregateFailsIff(spec: seq<ValuesSelector>, phase: seq<ValuesSelector>, lists: Listings)
    ensures FailsWith(FlatValues(Sort(ByPriority(), spec + phase), lists), Aggregate(spec, phase, lists))
  {
    ForSelectorsFailsIff(Sort(ByPriority(), spec + phase), lists);
  }

  /** The selectors of one priority, in their order. */
  function OfPriority(s: seq<ValuesSelector>, priority: int): seq<ValuesSelector> {
    if s == [] then []
    else
      var front, last := OfPriority(s[..|s| - 1], priority), s[|s| - 1];
      if last.priority == priority then front + [last] else front
  }

  lemma {:induction false} OfPriorityConcat(xs: seq<ValuesSelector>, ys: seq<ValuesSelector>, priority: int)
    ensures OfPriority(xs + ys, priority) == OfPriority(xs, priority) + OfPriority(ys, priority)
    decreases |ys|
  {
    if ys == [] {
      assert xs + ys == xs;
    } else {
      assert (xs + ys)[..|xs + ys| - 1] == xs + ys[..|ys| - 1];
      OfPriorityConcat(xs, ys[..|ys| - 1], priority);
    }
  }

  lemma {:induction false} TiesAreOfPriority(s: seq<ValuesSelector>, t: ValuesSelector)
    ensures Ties(ByPriority(), s, t) == OfPriority(s, t.priority)
  {
    if s != [] {
      TiesAreOfPriority(s[..|s| - 1], t);
    }
  }

  /** The order the aggregate uses: a permutation of all selectors, by ascending priority, and those of one
      priority in the order spec then phase. */
  lemma SelectorOrder(spec: seq<ValuesSelector>, phase: seq<ValuesSelector>, priority: int)
    ensures var sorted := Sort(ByPriority(), spec + phase);
            && multiset(sorted) == multiset(spec + phase)
            && (forall i, j | 0 <= i < j < |sorted| :: sorted[i].priority <= sorted[j].priority)
            && OfPriority(sorted, priority) == OfPriority(spec, priority) + OfPriority(phase, priority)
  {
    var sorted, t := Sort(ByPriority(), spec + phase), ValuesSelector("", priority, map[]);
    OrdersAreTotal();
    SortSorts(ByPriority(), spec + phase);
    forall i, j | 0 <= i < j < |sorted|
      ensures sorted[i].priority <= sorted[j].priority
    {
      assert ByPriority()(sorted[i], sorted[j]);
    }
    SortStable(ByPriority(), spec + phase, t);
    TiesAreOfPriority(sorted, t);
    TiesAreOfPriority(spec + phase, t);
    OfPriorityConcat(spec, phase, priority);
  }

  // ---- Who wins a path ----

  /** Value v, listed for selector i, has something at the path. */
  predicate Offers(selectors: seq<ValuesSelector>, lists: Listings, p: Path, i: nat, v: AddonValue) {
    && i < |selectors| && v in Chosen(selectors[i], lists(i))
    && v.rendered.Ok? && At(v.rendered.value, p) != Absent
  }

  lemma {:induction false} ChosenIsFlat(selectors: seq<ValuesSelector>, lists: Listings, i: nat, v: AddonValue)
    requires i < |selectors| && v in Chosen(selectors[i], lists(i))
    ensures v in FlatValues(selectors, lists)
  {
    var n := |selectors| - 1;
    if i < n {
      ChosenIsFlat(selectors[..n], lists, i, v);
    } else {
      SortKeepsMembers(Chosen(selectors[n], lists(n)), v);
    }
  }

  lemma SortKeepsMembers(values: seq<AddonValue>, v: AddonValue)
    ensures v in Sort(ByName(), values) <==> v in values
  {
    OrdersAreTotal();
    SortSorts(ByName(), values);
    assert v in values <==> v in multiset(values);
    assert v in Sort(ByName(), values) <==> v in multiset(Sort(ByName(), values));
  }

  lemma LastDefiningConcat(xs: seq<Doc>, ys: seq<Doc>, p: Path)
    ensures LastDefining(xs + ys, p)
            == if LastDefining(ys, p) >= 0 then |xs| + LastDefining(ys, p) else LastDefining(xs, p)
  {
    var all, m, x, y := xs + ys, LastDefining(xs + ys, p), LastDefining(xs, p), LastDefining(ys, p);
    assert forall j | 0 <= j < |ys| :: all[|xs| + j] == ys[j];
    assert forall j | 0 <= j < |xs| :: all[j] == xs[j];
    if y >= 0 {
      assert At(all[|xs| + y], p) != Absent;
      assert m >= |xs| ==> At(ys[m - |xs|], p) != Absent;
    } else {
      assert forall j | |xs| <= j < |all| :: all[j] == ys[j - |xs|];
      assert x >= 0 ==> At(all[x], p) != Absent;
    }
  }

  lemma NamesInOrder(values: seq<AddonValue>, i: nat, j: nat)
    requires i <= j < |Sort(ByName(), values)|
    ensures NameLeq(Sort(ByName(), values)[i].name, Sort(ByName(), values)[j].name)
  {
    var group := Sort(ByName(), values);
    OrdersAreTotal();
    SortSorts(ByName(), values);
    NameLeqTotal(group[i].name, group[i].name);
    if i < j {
      assert ByName()(group[i], group[j]);
    }
  }

  lemma LastDefiningAfter(docs: seq<Doc>, p: Path, k: nat)
    requires k < |docs| && At(docs[k], p) != Absent
    ensures LastDefining(docs, p) >= k
  {
  }

  /** The last document by name within one selector. */
  lemma LastOfGroup(values: seq<AddonValue>, p: Path, w: AddonValue)
    requires AllRendered(Sort(ByName(), values)) && w in values && w.rendered.Ok? && At(w.rendered.value, p) != Absent
    ensures var group := Sort(ByName(), values);
            var m := LastDefining(DocsOf(group), p);
            m >= 0 && NameLeq(w.name, group[m].name)
  {
    var group := Sort(ByName(), values);
    SortKeepsMembers(values, w);
    var k :| 0 <= k < |group| && group[k] == w;
    LastDefiningAfter(DocsOf(group), p, k);
    NamesInOrder(values, k, LastDefining(DocsOf(group), p));
  }

  /** Value v of selector j is the last to offer the path: by position, and by name within the selector. */
  ghost predicate Wins(selectors: seq<ValuesSelector>, lists: Listings, p: Path, j: nat, v: AddonValue) {
    && Offers(selectors, lists, p, j, v)
    && forall i: nat, w | Offers(selectors, lists, p, i, w) :: i < j || (i == j && NameLeq(w.name, v.name))
  }

  lemma LastGroupWins(selectors: seq<ValuesSelector>, lists: Listings, p: Path, values: seq<AddonValue>)
    requires selectors != [] && values == Chosen(selectors[|selectors| - 1], lists(|selectors| - 1))
    requires AllRendered(Sort(ByName(), values)) && LastDefining(DocsOf(Sort(ByName(), values)), p) >= 0
    ensures Wins(selectors, lists, p, |selectors| - 1,
                 Sort(ByName(), values)[LastDefining(DocsOf(Sort(ByName(), values)), p)])
  {
    var v := Sort(ByName(), values)[LastDefining(DocsOf(Sort(ByName(), values)), p)];
    SortKeepsMembers(values, v);
    forall i: nat, w | Offers(selectors, lists, p, i, w)
      ensures i < |selectors| - 1 || (i == |selectors| - 1 && NameLeq(w.name, v.name))
    {
      if i == |selectors| - 1 {
        LastOfGroup(values, p, w);
      }
    }
  }

  lemma FrontWins(selectors: seq<ValuesSelector>, lists: Listings, p: Path, n: nat, j: nat, v: AddonValue)
    requires |selectors| == n + 1 && Wins(selectors[..n], lists, p, j, v)
    requires forall w :: !Offers(selectors, lists, p, n, w)
    ensures Wins(selectors, lists, p, j, v)
  {
    forall i: nat, w | Offers(selectors, lists, p, i, w)
      ensures i < j || (i == j && NameLeq(w.name, v.name))
    {
      assert i < n;
      assert Offers(selectors[..n], lists, p, i, w);
    }
  }

  lemma GroupOffersNothing(
    selectors: seq<ValuesSelector>, lists: Listings, p: Path, n: nat, values: seq<AddonValue>)
    requires |selectors| == n + 1 && values == Chosen(selectors[n], lists(n))
    requires AllRendered(Sort(ByName(), values)) && LastDefining(DocsOf(Sort(ByName(), values)), p) < 0
    ensures forall w :: !Offers(selectors, lists, p, n, w)
  {
    forall w
      ensures !Offers(selectors, lists, p, n, w)
    {
      if Offers(selectors, lists, p, n, w) {
        LastOfGroup(values, p, w);
      }
    }
  }

  lemma FlatSplit(selectors: seq<ValuesSelector>, lists: Listings, p: Path, n: nat, group: seq<AddonValue>)
    requires |selectors| == n + 1 && group == Sort(ByName(), Chosen(selectors[n], lists(n)))
    requires AllRendered(FlatValues(selectors, lists))
    ensures var flat, before := FlatValues(selectors, lists), FlatValues(selectors[..n], lists);
            && AllRendered(before) && AllRendered(group) && flat == before + group
            && LastDefining(DocsOf(flat), p)
               == if LastDefining(DocsOf(group), p) >= 0 then |before| + LastDefining(DocsOf(group), p)
                  else LastDefining(DocsOf(before), p)
  {
    var before := FlatValues(selectors[..n], lists);
    DocsOfConcat(before, group);
    LastDefiningConcat(DocsOf(before), DocsOf(group), p);
  }

  /** The last of the flat documents that has the path is the winner's. */
  lemma {:induction false} LastOffer(selectors: seq<ValuesSelector>, lists: Listings, p: Path, m: int)
    returns (j: nat)
    requires AllRendered(FlatValues(selectors, lists))
    requires m == LastDefining(DocsOf(FlatValues(selectors, lists)), p) && m >= 0
    ensures Wins(selectors, lists, p, j, FlatValues(selectors, lists)[m])
    decreases |selectors|
  {
    var n := |selectors| - 1;
    var values := Chosen(selectors[n], lists(n));
    var group := Sort(ByName(), values);
    FlatSplit(selectors, lists, p, n, group);
    if LastDefining(DocsOf(group), p) >= 0 {
      j := n;
      LastGroupWins(selectors, lists, p, values);
    } else {
      j := LastOffer(selectors[..n], lists, p, m);
      GroupOffersNothing(selectors, lists, p, n, values);
      FrontWins(selectors, lists, p, n, j, FlatValues(selectors[..n], lists)[m]);
    }
  }

  /** On shape-compatible documents every path any chosen value has is won by one of the highest priority that
      has it: among several of that priority by the last in the order spec then phase, and among the values
      of one selector by the greatest name. */
  lemma HighestPriorityWins(
    spec: seq<ValuesSelector>, phase: seq<ValuesSelector>, lists: Listings, p: Path, i: nat, w: AddonValue)
    returns (j: nat, v: AddonValue)
    requires p != [] && Offers(Sort(ByPriority(), spec + phase), lists, p, i, w)
    requires AllRendered(FlatValues(Sort(ByPriority(), spec + phase), lists))
    requires AllCompatible(DocsOf(FlatValues(Sort(ByPriority(), spec + phase), lists)))
    ensures var sorted := Sort(ByPriority(), spec + phase);
            && Aggregate(spec, phase, lists).Ok?
            && Wins(sorted, lists, p, j, v)
            && At(Aggregate(spec, phase, lists).value, p) == At(v.rendered.value, p)
            && forall k: nat, u | Offers(sorted, lists, p, k, u) :: sorted[k].priority <= sorted[j].priority
  {
    var sorted := Sort(ByPriority(), spec + phase);
    var flat := FlatValues(sorted, lists);
    AggregateLastWriterWins(spec, phase, lists, p);
    ChosenIsFlat(sorted, lists, i, w);
    var k :| 0 <= k < |flat| && flat[k] == w;
    assert At(DocsOf(flat)[k], p) != Absent;
    var m := LastDefining(DocsOf(flat), p);
    v := flat[m];
    j := LastOffer(sorted, lists, p, m);
    SelectorOrder(spec, phase, 0);
  }

  // ---- The event mapper ----

  /** Some selector of the Addon exact-matches the labels. */
  predicate MatchedByAny(selectors: seq<ValuesSelector>, labels: LabelMap) {
    exists i | 0 <= i < |selectors| :: ExactMatch(selectors[i].matchLabels, labels)
  }

  /** addonMatchesValue: the loop returns at the first selector that matches. */
  method AddonMatchesValue(spec: seq<ValuesSelector>, phase: seq<ValuesSelector>, labels: LabelMap)
    returns (matches: bool)
    ensures matches <==> MatchedByAny(spec + phase, labels)
  {
    var all := spec + phase;
    for i := 0 to |all|
      invariant forall j | 0 <= j < i :: !ExactMatch(all[j].matchLabels, labels)
    {
      if ExactMatch(all[i].matchLabels, labels) {
        return true;
      }
    }
    return false;
  }

  /** The cluster's AddonValues with at most one of them between two fixed groups. */
  function World(before: seq<AddonValue>, one: Option<AddonValue>, after: seq<AddonValue>): seq<AddonValue> {
    before + (if one.Some? then [one.value] else []) + after
  }

  lemma {:induction false} ChosenConcat(selector: ValuesSelector, xs: seq<AddonValue>, ys: seq<AddonValue>)
    ensures Chosen(selector, xs + ys) == Chosen(selector, xs) + Chosen(selector, ys)
    decreases |ys|
  {
    if ys == [] {
      assert xs + ys == xs;
    } else {
      assert (xs + ys)[..|xs + ys| - 1] == xs + ys[..|ys| - 1];
      ChosenConcat(selector, xs, ys[..|ys| - 1]);
    }
  }

  lemma ChosenSkips(selector: ValuesSelector, before: seq<AddonValue>, v: AddonValue)
    requires FilterAddonLabels(selector.matchLabels) != FilterAddonLabels(v.labels)
    ensures Chosen(selector, before + [v]) == Chosen(selector, before)
  {
    assert (before + [v])[..|before|] == before;
  }

  lemma ChosenIgnores(
    selector: ValuesSelector, before: seq<AddonValue>, one: Option<AddonValue>, after: seq<AddonValue>)
    requires one.Some? ==> FilterAddonLabels(selector.matchLabels) != FilterAddonLabels(one.value.labels)
    ensures Chosen(selector, World(before, one, after)) == Chosen(selector, before + after)
  {
    ChosenConcat(selector, before, after);
    match one {
      case Some(v) =>
        ChosenConcat(selector, before + [v], after);
        ChosenSkips(selector, before, v);
      case None =>
        assert before + [] == before;
    }
  }

  /** Every list call sees the one value, wherever it puts it among the others. */
  function Worlds(before: Listings, one: Option<AddonValue>, after: Listings): Listings {
    (n: nat) => World(before(n), one, after(n))
  }

  lemma {:induction false} ForSelectorsIgnore(
    selectors: seq<ValuesSelector>, before: Listings, one: Option<AddonValue>, after: Listings)
    requires one.Some? ==> !MatchedByAny(selectors, one.value.labels)
    ensures ForSelectors(selectors, Worlds(before, one, after)) == ForSelectors(selectors, Worlds(before, None, after))
  {
    if selectors != [] {
      var front := selectors[..|selectors| - 1];
      assert forall i | 0 <= i < |front| :: front[i] == selectors[i];
      ForSelectorsIgnore(front, before, one, after);
      if one.Some? {
        NoExactMatchDiffers(selectors[|selectors| - 1].matchLabels, one.value.labels);
      }
      var n := |selectors| - 1;
      ChosenIgnores(selectors[n], before(n), one, after(n));
      ChosenIgnores(selectors[n], before(n), None, after(n));
    }
  }

  lemma MatchedByAnySort(selectors: seq<ValuesSelector>, labels: LabelMap)
    ensures MatchedByAny(Sort(ByPriority(), selectors), labels) ==> MatchedByAny(selectors, labels)
  {
    OrdersAreTotal();
    SortSorts(ByPriority(), selectors);
    var sorted := Sort(ByPriority(), selectors);
    if MatchedByAny(sorted, labels) {
      var i :| 0 <= i < |sorted| && ExactMatch(sorted[i].matchLabels, labels);
      assert sorted[i] in multiset(sorted);
      assert sorted[i] in multiset(selectors);
    }
  }

  /** Every create, update or delete of one AddonValue that changes the aggregate of an Addon is
      mapped to that Addon, through the old or the new object. */
  lemma MapperCoversAggregate(
    spec: seq<ValuesSelector>, phase: seq<ValuesSelector>,
    before: Listings, was: Option<AddonValue>, now: Option<AddonValue>, after: Listings)
    requires Aggregate(spec, phase, Worlds(before, was, after)) != Aggregate(spec, phase, Worlds(before, now, after))
    ensures (was.Some? && MatchedByAny(spec + phase, was.value.labels))
            || (now.Some? && MatchedByAny(spec + phase, now.value.labels))
  {
    var sorted := Sort(ByPriority(), spec + phase);
    if was.Some? { MatchedByAnySort(spec + phase, was.value.labels); }
    if now.Some? { MatchedByAnySort(spec + phase, now.value.labels); }
    if !(was.Some? && MatchedByAny(sorted, was.value.labels))
       && !(now.Some? && MatchedByAny(sorted, now.value.labels)) {
      ForSelectorsIgnore(sorted, before, was, after);
      ForSelectorsIgnore(sorted, before, now, after);
    }
  }
}
