/**
 * GetLinks as the REST store runs it: a first loop fills two dictionaries keyed by
 * base name ignoring case, a second loop completes every link type object in place,
 * setting its flags, creating its ends and patching the ids of the system link types.
 * Each method is proved to produce exactly what LinkTypeReconciliation specifies.
 */
module RestLinkTypes {
  import opened Wrappers
  import opened DotNetStrings
  import opened LinkTypeNames
  import opened LinkTypeReconciliation

  /** One end of a link type. */
  class WorkItemLinkTypeEnd {
    var ReferenceName: string
    var IsForwardLink: bool
    var Id: int
    var LinkType: WorkItemLinkType?

    /** The end made from a relation type: its reference name, not a forward link, no id, no owner yet. */
    constructor (item: RelationType)
      ensures ReferenceName == item.referenceName && !IsForwardLink && Id == UnsetId && LinkType == null
    {
      ReferenceName := item.referenceName;
      IsForwardLink := false;
      Id := UnsetId;
      LinkType := null;
    }

    /** The end's value. */
    function Model(): LinkTypeEnd
      reads this
    {
      LinkTypeEnd(ReferenceName, IsForwardLink, Id)
    }
  }

  /** A link type, created with its name and completed in place by the second loop. */
  class WorkItemLinkType {
    const ReferenceName: string
    var IsDirectional: bool
    var IsActive: bool
    var ForwardEnd: WorkItemLinkTypeEnd?
    var ReverseEnd: WorkItemLinkTypeEnd?

    constructor (referenceName: string)
      ensures ReferenceName == referenceName
      ensures !IsDirectional && !IsActive && ForwardEnd == null && ReverseEnd == null
    {
      ReferenceName := referenceName;
      IsDirectional, IsActive := false, false;
      ForwardEnd, ReverseEnd := null, null;
    }

    method SetForwardEnd(e: WorkItemLinkTypeEnd)
      modifies this
      ensures ForwardEnd == e && ReverseEnd == old(ReverseEnd)
      ensures IsDirectional == old(IsDirectional) && IsActive == old(IsActive)
    {
      ForwardEnd := e;
    }

    method SetReverseEnd(e: WorkItemLinkTypeEnd)
      modifies this
      ensures ReverseEnd == e && ForwardEnd == old(ForwardEnd)
      ensures IsDirectional == old(IsDirectional) && IsActive == old(IsActive)
    {
      ReverseEnd := e;
    }

    /**
     * A completed link type: both ends present and owned by it, the forward end a
     * forward link, and the reverse end the very same object exactly when the type
     * is not directional.
     */
    ghost predicate Valid()
      reads this, ForwardEnd, ReverseEnd
    {
      && ForwardEnd != null && ReverseEnd != null
      && ForwardEnd.LinkType == this && ReverseEnd.LinkType == this
      && ForwardEnd.IsForwardLink
      && (ReverseEnd == ForwardEnd <==> !IsDirectional)
    }

    /** The link type's value. */
    function Model(): LinkType
      requires ForwardEnd != null && ReverseEnd != null
      reads this, ForwardEnd, ReverseEnd
    {
      LinkType(ReferenceName, IsDirectional, IsActive, ForwardEnd.Model(), ReverseEnd.Model())
    }
  }

  /** Store the negated legacy ids on the ends of a system link type; any other type is left as it is. */
  method AssignWellKnownIds(t: WorkItemLinkType, ids: CoreLinkTypes)
    requires t.Valid()
    modifies t.ForwardEnd, t.ReverseEnd
    ensures t.Valid() && t.Model() == PatchIds(old(t.Model()), ids)
  {
    if ContainsIgnoreCase(CoreLinkTypeReferenceNames, t.ReferenceName) {
      var forwardId, reverseId := 0, 0;
      if EqualsIgnoreCase(Hierarchy, t.ReferenceName) {
        forwardId, reverseId := ids.child, ids.parent;
      } else if EqualsIgnoreCase(Related, t.ReferenceName) {
        forwardId, reverseId := ids.related, ids.related;
      } else if EqualsIgnoreCase(Dependency, t.ReferenceName) {
        forwardId, reverseId := ids.successor, ids.predecessor;
      }
      t.ForwardEnd.Id := -forwardId;
      t.ReverseEnd.Id := -reverseId;
    }
  }

  /** One pass of the second loop: complete `t` from the relation types of its group, or raise. */
  method CompleteLinkType(t: WorkItemLinkType, ends: seq<RelationType>, ids: CoreLinkTypes) returns (r: Outcome<LinkError>)
    modifies t
    ensures var spec := ReconcileGroup(Group(t.ReferenceName, ends), ids);
            && (r.Fail? <==> spec.Failure?)
            && (r.Fail? ==> r.error == spec.error)
            && (r.Pass? ==> t.Valid() && t.Model() == spec.value)
    ensures r.Pass? ==> fresh(t.ForwardEnd) && fresh(t.ReverseEnd)
  {
    t.IsDirectional := AllDirectional(ends);
    t.IsActive := AllEnabled(ends);

    var forwardRecord: RelationType;
    if |ends| == 1 && !t.IsDirectional {
      forwardRecord := ends[0];
    } else {
      match SingleEndingWith(ends, ForwardSuffix)
      case Failure(e) => return Fail(e);
      case Success(None) => return Fail(ForwardEndMissing);
      case Success(Some(f)) => forwardRecord := f;
    }
    if !EndsWith(forwardRecord.referenceName, ForwardSuffix) {
      forwardRecord := forwardRecord.(referenceName := forwardRecord.referenceName + "-" + ForwardSuffix);
    }

    var forwardEnd := new WorkItemLinkTypeEnd(forwardRecord);
    forwardEnd.IsForwardLink := true;
    forwardEnd.LinkType := t;
    t.SetForwardEnd(forwardEnd);

    if t.IsDirectional {
      match SingleEndingWith(ends, ReverseSuffix)
      case Failure(e) => return Fail(e);
      case Success(None) => return Fail(ReverseEndMissing);
      case Success(Some(rv)) =>
        var reverseEnd := new WorkItemLinkTypeEnd(rv);
        reverseEnd.LinkType := t;
        t.SetReverseEnd(reverseEnd);
    } else {
      t.SetReverseEnd(forwardEnd);
    }

    AssignWellKnownIds(t, ids);
    r := Pass;
  }

  /**
   * The first loop: file every work-item link under its base name, ignoring case. `d`
   * collects the relation types of each group, `d2` one new link type object per group,
   * named with the first spelling seen; `keys` is the order in which d2 enumerates.
   */
  method GroupByBaseName(types: seq<RelationType>)
    returns (keys: seq<string>, d: map<string, seq<RelationType>>, d2: map<string, WorkItemLinkType>)
    ensures keys == Build(types).keys && d == Build(types).ends && d2.Keys == d.Keys
    ensures forall k | k in d2 ::
              fresh(d2[k]) && k in Build(types).names && d2[k].ReferenceName == Build(types).names[k]
    ensures forall k, k' | k in d2 && k' in d2 && k != k' :: d2[k] != d2[k']
  {
    d, d2, keys := map[], map[], [];
    var n := 0;
    while n < |types|
      invariant 0 <= n <= |types|
      invariant keys == Build(types[..n]).keys && d == Build(types[..n]).ends
      invariant d2.Keys == d.Keys
      invariant forall k | k in d2 ::
                  fresh(d2[k]) && k in Build(types[..n]).names && d2[k].ReferenceName == Build(types[..n]).names[k]
      invariant forall k, k' | k in d2 && k' in d2 && k != k' :: d2[k] != d2[k']
    {
      var t := types[n];
      assert types[..n + 1][..n] == types[..n];
      assert types[..n + 1][n] == t;
      if IsWorkItemLink(t) {
        var linkRef := MatchedLinkTypeReferenceName(t.referenceName);
        if IsNullOrWhiteSpace(linkRef) {
          linkRef := t.referenceName;
        }
        var key := Fold(linkRef);
        assert linkRef == LinkTypeReferenceName(t.referenceName);
        if key !in d {
          d := d[key := []];
        }
        assert [] + [t] == [t];
        d := d[key := d[key] + [t]];
        if key !in d2 {
          var lt := new WorkItemLinkType(linkRef);
          d2 := d2[key := lt];
          keys := keys + [key];
        }
      }
      n := n + 1;
    }
    assert types[..n] == types;
  }

  /** `t` is a completed link type whose value is `spec`. */
  ghost predicate Completes(t: WorkItemLinkType, spec: LinkType)
    reads t, t.ForwardEnd, t.ReverseEnd
  {
    t.Valid() && t.Model() == spec
  }

  /**
   * The second loop: complete the link type of every group in enumeration order, or
   * stop at the first group that raises. `rs` is what `ReconcileGroup` says of each group.
   */
  method CompleteAll(keys: seq<string>, d: map<string, seq<RelationType>>, d2: map<string, WorkItemLinkType>,
                     ids: CoreLinkTypes, ghost rs: seq<Result<LinkType, LinkError>>)
    returns (r: Result<seq<WorkItemLinkType>, LinkError>)
    requires |rs| == |keys|
    requires forall q | 0 <= q < |keys| ::
               && keys[q] in d && keys[q] in d2
               && rs[q] == ReconcileGroup(Group(d2[keys[q]].ReferenceName, d[keys[q]]), ids)
    requires forall q, q' | 0 <= q < q' < |keys| :: d2[keys[q]] != d2[keys[q']]
    modifies d2.Values
    ensures r.Failure? <==> Collect(rs).Failure?
    ensures r.Failure? ==> r.error == Collect(rs).error
    ensures r.Success? ==> r.value == seq(|keys|, q requires 0 <= q < |keys| => d2[keys[q]])
    ensures r.Success? ==> forall q | 0 <= q < |keys| :: Completes(d2[keys[q]], Collect(rs).value[q])
  {
    var j := 0;
    while j < |keys|
      invariant 0 <= j <= |keys|
      invariant forall q | 0 <= q < j :: rs[q].Success? && Completes(d2[keys[q]], rs[q].value)
    {
      var lt := d2[keys[j]];
      var outcome := CompleteLinkType(lt, d[keys[j]], ids);
      if outcome.Fail? {
        return Failure(outcome.error);
      }
      j := j + 1;
    }
    r := Success(seq(|keys|, q requires 0 <= q < |keys| => d2[keys[q]]));
  }

  /**
   * What the second loop must produce, read off the dictionaries the first loop filled:
   * the result of each key's group, in enumeration order, which together make up the
   * whole reconciliation.
   */
  lemma DictionaryResults(types: seq<RelationType>, ids: CoreLinkTypes, keys: seq<string>,
                          d: map<string, seq<RelationType>>, d2: map<string, WorkItemLinkType>)
    returns (rs: seq<Result<LinkType, LinkError>>)
    requires keys == Build(types).keys && d == Build(types).ends && d2.Keys == d.Keys
    requires forall k | k in d2 :: k in Build(types).names && d2[k].ReferenceName == Build(types).names[k]
    requires forall k, k' | k in d2 && k' in d2 && k != k' :: d2[k] != d2[k']
    ensures |rs| == |keys|
    ensures forall q | 0 <= q < |keys| ::
              && keys[q] in d && keys[q] in d2
              && rs[q] == ReconcileGroup(Group(d2[keys[q]].ReferenceName, d[keys[q]]), ids)
    ensures forall q, q' | 0 <= q < q' < |keys| :: d2[keys[q]] != d2[keys[q']]
    ensures Reconcile(types, ids) == Collect(rs)
  {
    BuildWellFormed(types);
    var gs := Groups(Build(types));
    rs := GroupResults(gs, ids);
    assert |rs| == |gs| && forall q | 0 <= q < |gs| :: rs[q] == ReconcileGroup(gs[q], ids);
    assert forall q | 0 <= q < |keys| :: keys[q] in d2 && gs[q] == Group(d2[keys[q]].ReferenceName, d[keys[q]]);
  }

  /**
   * GetLinks over the fetched relation types: the new link type objects, in the
   * dictionary's insertion order, each completed as `ReconcileGroup` says; or the
   * exception of the first group that raises.
   */
  method GetLinks(types: seq<RelationType>, ids: CoreLinkTypes) returns (r: Result<seq<WorkItemLinkType>, LinkError>)
    ensures r.Failure? <==> Reconcile(types, ids).Failure?
    ensures r.Failure? ==> r.error == Reconcile(types, ids).error
    ensures r.Success? ==> |r.value| == |Reconcile(types, ids).value|
    ensures r.Success? ==> forall i | 0 <= i < |r.value| ::
              fresh(r.value[i]) && r.value[i].Valid() && r.value[i].Model() == Reconcile(types, ids).value[i]
    ensures r.Success? ==> forall i, j | 0 <= i < j < |r.value| :: r.value[i] != r.value[j]
  {
    var keys, d, d2 := GroupByBaseName(types);
    ghost var rs := DictionaryResults(types, ids, keys, d, d2);
    r := CompleteAll(keys, d, d2, ids, rs);
  }
}
