/** JSON merge patches (section 2 of RFC 7396), with which the AddonPhase controller writes its one
    field of the Addon's status (internal/controller/addonphase/controller.go, patchAddonStatus). */
module MergePatch {
  import opened Wrappers
  import opened Documents

  /** The object a member is patched on: a member that is absent or no object counts as empty. */
  function Below(target: Doc, k: string): Doc {
    if k in target && target[k].Obj? then target[k].fields else map[]
  }

  /** Null members of the patch delete, objects patch recursively, anything else replaces. */
  function ApplyPatch(target: Doc, patch: Doc): (r: Doc)
    decreases Obj(patch)
  {
    map k | k in target.Keys + patch.Keys && !(k in patch && patch[k].Null?) ::
      if k !in patch then target[k]
      else if patch[k].Obj? then Obj(ApplyPatch(Below(target, k), patch[k].fields))
      else patch[k]
  }

  predicate BothObjects(from: Doc, to: Doc, k: string) {
    k in from && k in to && from[k].Obj? && to[k].Obj?
  }

  /** The patch that leads from one document to another; members in common are left out. */
  function Diff(from: Doc, to: Doc): (r: Doc)
    ensures r.Keys <= from.Keys + to.Keys
    ensures forall k | k in from && k in to && from[k] == to[k] :: k !in r
    decreases Obj(to)
  {
    map k | k in from.Keys + to.Keys && !(k in from && k in to && from[k] == to[k]) ::
      if k !in to then Null
      else if BothObjects(from, to, k) then Obj(Diff(from[k].fields, to[k].fields))
      else to[k]
  }

  predicate NullFree(d: Doc)
    decreases Obj(d)
  {
    forall k | k in d :: !d[k].Null? && (d[k].Obj? ==> NullFree(d[k].fields))
  }

  /** A null can be kept by a merge patch, never written. */
  predicate NullsShared(from: Doc, to: Doc)
    decreases Obj(to)
  {
    forall k | k in to ::
      && (to[k].Null? ==> k in from && from[k].Null?)
      && (to[k].Obj? ==> if BothObjects(from, to, k) then NullsShared(from[k].fields, to[k].fields)
                         else NullFree(to[k].fields))
  }

  lemma {:induction false} PatchNothing(d: Doc)
    ensures ApplyPatch(map[], d) == d <==> NullFree(d)
    decreases Obj(d)
  {
    forall k | k in d && d[k].Obj?
      ensures ApplyPatch(map[], d[k].fields) == d[k].fields <==> NullFree(d[k].fields)
    {
      PatchNothing(d[k].fields);
    }
    var r := ApplyPatch(map[], d);
    if r == d {
      forall k | k in d
        ensures !d[k].Null? && (d[k].Obj? ==> NullFree(d[k].fields))
      {
        assert k in r && r[k] == d[k];
      }
    }
  }

  lemma {:induction false} SameNeedsNothing(d: Doc)
    ensures NullsShared(d, d)
    decreases Obj(d)
  {
    forall k | k in d && d[k].Obj?
      ensures NullsShared(d[k].fields, d[k].fields)
    {
      SameNeedsNothing(d[k].fields);
    }
  }

  lemma {:induction false} MemberRoundTrip(from: Doc, to: Doc, k: string)
    requires k in from.Keys + to.Keys
    requires BothObjects(from, to, k) ==>
               (ApplyPatch(from[k].fields, Diff(from[k].fields, to[k].fields)) == to[k].fields <==>
                NullsShared(from[k].fields, to[k].fields))
    ensures var r := ApplyPatch(from, Diff(from, to));
            (k in r <==> k in to) && (k in to ==> r[k] == to[k]) <==>
            (k in to ==>
               && (to[k].Null? ==> k in from && from[k].Null?)
               && (to[k].Obj? ==> if BothObjects(from, to, k) then NullsShared(from[k].fields, to[k].fields)
                                  else NullFree(to[k].fields)))
  {
    if k in to && to[k].Obj? {
      PatchNothing(to[k].fields);
      if BothObjects(from, to, k) && from[k] == to[k] {
        SameNeedsNothing(to[k].fields);
      }
    }
  }

  /** Applying the patch from one document to another yields the other exactly when every null in it
      was already there. */
  lemma {:induction false} PatchRoundTrip(from: Doc, to: Doc)
    ensures ApplyPatch(from, Diff(from, to)) == to <==> NullsShared(from, to)
    decreases Obj(to)
  {
    var r := ApplyPatch(from, Diff(from, to));
    forall k | k in from.Keys + to.Keys
      ensures (k in r <==> k in to) && (k in to ==> r[k] == to[k]) <==>
              (k in to ==>
                 && (to[k].Null? ==> k in from && from[k].Null?)
                 && (to[k].Obj? ==> if BothObjects(from, to, k) then NullsShared(from[k].fields, to[k].fields)
                                    else NullFree(to[k].fields)))
    {
      if BothObjects(from, to, k) {
        PatchRoundTrip(from[k].fields, to[k].fields);
      }
      MemberRoundTrip(from, to, k);
    }
    assert r.Keys <= from.Keys + to.Keys;
    if NullsShared(from, to) {
      assert r.Keys == to.Keys;
    }
  }

  // ---- Patching one nested member: status.phaseValuesSelector ----

  function Member(d: Doc, k: string): Option<Value> {
    if k in d then Some(d[k]) else None
  }

  /** Set the member, or remove it when there is no value (omitempty). */
  function SetMember(d: Doc, k: string, v: Option<Value>): Doc {
    if v.Some? then d[k := v.value] else d - {k}
  }

  /** The same one level down, in an outer member made if need be. */
  function SetNested(d: Doc, outer: string, inner: string, v: Option<Value>): Doc {
    d[outer := Obj(SetMember(Below(d, outer), inner, v))]
  }

  lemma ApplyOne(target: Doc, k: string, p: Value)
    ensures ApplyPatch(target, map[k := p])
            == if p.Null? then target - {k}
               else target[k := if p.Obj? then Obj(ApplyPatch(Below(target, k), p.fields)) else p]
  {
  }

  lemma DiffOne(from: Doc, k: string, v: Option<Value>)
    requires Member(from, k) != v
    ensures Diff(from, SetMember(from, k, v))
            == map[k := if v.None? then Null
                        else if k in from && from[k].Obj? && v.value.Obj? then Obj(Diff(from[k].fields, v.value.fields))
                        else v.value]
  {
    assert Member(SetMember(from, k, v), k) == v;
  }

  /** A patch computed from any cached copy, which always has the outer member, and applied to any live
      object, which need not, is without effect if the copy already had the value, and otherwise sets that
      member and nothing else. */
  lemma NestedPatch(cached: Doc, live: Doc, outer: string, inner: string, v: Option<Value>)
    requires outer in cached && cached[outer].Obj?
    requires v.Some? ==> v.value.List?
    ensures ApplyPatch(live, Diff(cached, SetNested(cached, outer, inner, v)))
            == if Member(cached[outer].fields, inner) == v then live else SetNested(live, outer, inner, v)
  {
    var was := cached[outer].fields;
    if Member(was, inner) == v {
      assert SetMember(was, inner, v) == was;
      assert Diff(cached, cached) == map[];
      assert SetNested(cached, outer, inner, v) == cached;
    } else {
      var member := if v.Some? then v.value else Null;
      assert Member(SetMember(was, inner, v), inner) == v;
      DiffOne(was, inner, v);
      DiffOne(cached, outer, Some(Obj(SetMember(was, inner, v))));
      ApplyOne(Below(live, outer), inner, member);
      ApplyOne(live, outer, Obj(map[inner := member]));
    }
  }
}
