/** The patch steps of AddonModel are merge patches of the encoded objects: what the AddonPhase controller
    sends, computed from its cached Addon, does to the stored one what the protocol says
    (internal/controller/addonphase/controller.go, patchAddonStatus and clearAddonStatus). */
module PatchRefinement {
  import opened Wrappers
  import opened Documents
  import opened MergePatch
  import M = AddonModel

  /** The JSON form of an Addon: how everything but the selectors is written is not part of this model. */
  datatype Codec = Codec(
    statusKey: string, selectorsKey: string,
    outer: M.Addon -> Doc, status: M.AddonStatus -> Doc, items: M.Selectors -> seq<Value>)

  ghost predicate Sound(c: Codec) {
    && (forall a, b :: c.items(a) == c.items(b) ==> a == b)
    && (forall st :: c.selectorsKey !in c.status(st))
  }

  function WithSelectors(a: M.Addon, selectors: M.Selectors): M.Addon {
    a.(status := a.status.(phaseSelectors := selectors))
  }

  /** An empty selector list is left out (omitempty). */
  function EncodeSelectors(c: Codec, selectors: M.Selectors): Option<Value> {
    if selectors == [] then None else Some(List(c.items(selectors)))
  }

  function EncodeStatus(c: Codec, st: M.AddonStatus): Doc {
    SetMember(c.status(st.(phaseSelectors := [])), c.selectorsKey, EncodeSelectors(c, st.phaseSelectors))
  }

  function Encode(c: Codec, a: M.Addon): (d: Doc)
    ensures c.statusKey in d && d[c.statusKey] == Obj(EncodeStatus(c, a.status))
  {
    c.outer(a.(status := M.NEW_ADDON_STATUS))[c.statusKey := Obj(EncodeStatus(c, a.status))]
  }

  lemma SetTwice(d: Doc, k: string, v: Option<Value>, w: Option<Value>)
    ensures SetMember(SetMember(d, k, v), k, w) == SetMember(d, k, w)
  {
  }

  lemma EncodeSet(c: Codec, a: M.Addon, selectors: M.Selectors)
    requires Sound(c)
    ensures Encode(c, WithSelectors(a, selectors))
            == SetNested(Encode(c, a), c.statusKey, c.selectorsKey, EncodeSelectors(c, selectors))
    ensures Member(Encode(c, a)[c.statusKey].fields, c.selectorsKey) == EncodeSelectors(c, a.status.phaseSelectors)
  {
    var rest := c.status(a.status.(phaseSelectors := []));
    SetTwice(rest, c.selectorsKey, EncodeSelectors(c, a.status.phaseSelectors), EncodeSelectors(c, selectors));
    assert WithSelectors(a, selectors).status.(phaseSelectors := []) == a.status.(phaseSelectors := []);
    assert WithSelectors(a, selectors).(status := M.NEW_ADDON_STATUS) == a.(status := M.NEW_ADDON_STATUS);
  }

  /** Computing the patch from the cached Addon and applying it to the stored one yields the encoding of
      the protocol's patched Addon. */
  lemma PatchRefines(c: Codec, cached: M.Addon, live: M.Addon, selectors: M.Selectors)
    requires Sound(c)
    ensures ApplyPatch(Encode(c, live), Diff(Encode(c, cached), Encode(c, WithSelectors(cached, selectors))))
            == Encode(c, M.Patched(live, cached.status.phaseSelectors, selectors))
  {
    EncodeSet(c, cached, selectors);
    EncodeSet(c, live, selectors);
    NestedPatch(Encode(c, cached), Encode(c, live), c.statusKey, c.selectorsKey, EncodeSelectors(c, selectors));
  }
}
