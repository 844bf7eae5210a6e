/** Properties of the link-type reconciliation, proved about `LinkTypeReconciliation`. */
module LinkTypeProperties {
  import opened Wrappers
  import opened DotNetStrings
  import opened LinkTypeNames
  import opened LinkTypeReconciliation

  // ---------------------------------------------------------------------------
  // Grouping

  /** A key has a group exactly when some work-item link maps to it, and the group holds all of them, in order. */
  lemma {:induction false} BuildRecords(types: seq<RelationType>, k: string)
    ensures k in Build(types).ends <==> RecordsWithKey(types, k) != []
    ensures k in Build(types).ends ==> Build(types).ends[k] == RecordsWithKey(types, k)
  {
    if types != [] {
      BuildRecords(types[..|types| - 1], k);
    }
  }

  /** A group is named with the base name of the first work-item link that has its key. */
  lemma {:induction false} BuildFirstName(types: seq<RelationType>, p: nat)
    requires p < |types| && IsWorkItemLink(types[p])
    requires forall q | 0 <= q < p :: !(IsWorkItemLink(types[q]) && GroupKey(types[q]) == GroupKey(types[p]))
    ensures GroupKey(types[p]) in Build(types).names
    ensures Build(types).names[GroupKey(types[p])] == LinkTypeReferenceName(types[p].referenceName)
  {
    var init := types[..|types| - 1];
    var k := GroupKey(types[p]);
    if p == |types| - 1 {
      forall t | t in init
        ensures !(IsWorkItemLink(t) && GroupKey(t) == k)
      {
        var q :| 0 <= q < |init| && init[q] == t;
        assert types[q] == t;
      }
      BuildRecords(init, k);
    } else {
      assert init[p] == types[p];
      assert forall q | 0 <= q < p :: init[q] == types[q];
      BuildFirstName(init, p);
      BuildWellFormed(init);
    }
  }

  /** Only the work-item links feed the first loop. */
  lemma {:induction false} BuildIgnoresOtherUsages(types: seq<RelationType>)
    ensures Build(types) == Build(WorkItemLinks(types))
  {
    if types != [] {
      var init := types[..|types| - 1];
      var t := types[|types| - 1];
      BuildIgnoresOtherUsages(init);
      var w := WorkItemLinks(init);
      if IsWorkItemLink(t) {
        assert WorkItemLinks(types) == w + [t];
        assert (w + [t])[..|w|] == w;
      } else {
        assert WorkItemLinks(types) == w;
      }
    }
  }

  /** Records whose usage is not "workItemLink" produce no link type and no end. */
  lemma ReconcileIgnoresOtherUsages(types: seq<RelationType>, ids: CoreLinkTypes)
    ensures Reconcile(types, ids) == Reconcile(WorkItemLinks(types), ids)
  {
    BuildIgnoresOtherUsages(types);
  }

  /** Without work-item links, in particular for empty input, the collection is empty. */
  lemma ReconcileWithoutLinks(types: seq<RelationType>, ids: CoreLinkTypes)
    requires forall t | t in types :: !IsWorkItemLink(t)
    ensures Reconcile(types, ids) == Success([])
  {
    BuildIgnoresOtherUsages(types);
  }

  /**
   * Entry i of the collection is what the second loop makes of the group of all
   * work-item links whose base name equals the entry's name ignoring case.
   */
  lemma ReconcileEntry(types: seq<RelationType>, ids: CoreLinkTypes, i: nat)
    requires Reconcile(types, ids).Success? && i < |Reconcile(types, ids).value|
    ensures var lt := Reconcile(types, ids).value[i];
            ReconcileGroup(Group(lt.referenceName, RecordsWithKey(types, Fold(lt.referenceName))), ids) == Success(lt)
  {
    BuildWellFormed(types);
    var g := Build(types);
    var gs := Groups(g);
    assert ReconcileGroup(gs[i], ids).Success?;
    BuildRecords(types, g.keys[i]);
  }

  /** Entry i of the collection carries the name stored under the i-th key of the first loop. */
  lemma ReconcileKeys(types: seq<RelationType>, ids: CoreLinkTypes)
    requires Reconcile(types, ids).Success?
    ensures |Reconcile(types, ids).value| == |Build(types).keys|
    ensures forall i | 0 <= i < |Build(types).keys| ::
              Fold(Reconcile(types, ids).value[i].referenceName) == Build(types).keys[i]
  {
    BuildWellFormed(types);
    var g := Build(types);
    var gs := Groups(g);
    assert forall i | 0 <= i < |gs| :: gs[i].name == g.names[g.keys[i]];
  }

  /** No two entries of the collection have names that are equal ignoring case. */
  lemma ReconcileNamesDistinct(types: seq<RelationType>, ids: CoreLinkTypes)
    requires Reconcile(types, ids).Success?
    ensures var lts := Reconcile(types, ids).value;
            forall i, j | 0 <= i < j < |lts| :: !EqualsIgnoreCase(lts[i].referenceName, lts[j].referenceName)
  {
    BuildWellFormed(types);
    ReconcileKeys(types, ids);
  }

  /** Every work-item link's base name has an entry in the collection. */
  lemma ReconcileCoversEveryLink(types: seq<RelationType>, ids: CoreLinkTypes)
    requires Reconcile(types, ids).Success?
    ensures var lts := Reconcile(types, ids).value;
            forall t | t in types && IsWorkItemLink(t) ::
              exists i | 0 <= i < |lts| :: EqualsIgnoreCase(lts[i].referenceName, LinkTypeReferenceName(t.referenceName))
  {
    BuildWellFormed(types);
    var g := Build(types);
    var lts := Reconcile(types, ids).value;
    ReconcileKeys(types, ids);
    forall t | t in types && IsWorkItemLink(t)
      ensures exists i | 0 <= i < |lts| :: EqualsIgnoreCase(lts[i].referenceName, LinkTypeReferenceName(t.referenceName))
    {
      var k := GroupKey(t);
      BuildRecords(types, k);
      assert t in RecordsWithKey(types, k);
      var i :| 0 <= i < |g.keys| && g.keys[i] == k;
      assert EqualsIgnoreCase(lts[i].referenceName, LinkTypeReferenceName(t.referenceName));
    }
  }

  /** Every entry of the collection comes from at least one work-item link. */
  lemma ReconcileEntriesFromLinks(types: seq<RelationType>, ids: CoreLinkTypes)
    requires Reconcile(types, ids).Success?
    ensures var lts := Reconcile(types, ids).value;
            forall i | 0 <= i < |lts| ::
              exists t | t in types && IsWorkItemLink(t) :: EqualsIgnoreCase(lts[i].referenceName, LinkTypeReferenceName(t.referenceName))
  {
    BuildWellFormed(types);
    var g := Build(types);
    var lts := Reconcile(types, ids).value;
    ReconcileKeys(types, ids);
    forall i | 0 <= i < |lts|
      ensures exists t | t in types && IsWorkItemLink(t) :: EqualsIgnoreCase(lts[i].referenceName, LinkTypeReferenceName(t.referenceName))
    {
      var k := g.keys[i];
      BuildRecords(types, k);
      var t := RecordsWithKey(types, k)[0];
      assert t in RecordsWithKey(types, k);
    }
  }

  /** An entry is named with the base name of the first work-item link of its group. */
  lemma ReconcileNamesFirstSpelling(types: seq<RelationType>, ids: CoreLinkTypes, p: nat)
    requires Reconcile(types, ids).Success?
    requires p < |types| && IsWorkItemLink(types[p])
    requires forall q | 0 <= q < p :: !(IsWorkItemLink(types[q]) && GroupKey(types[q]) == GroupKey(types[p]))
    ensures exists i | 0 <= i < |Reconcile(types, ids).value| ::
              Reconcile(types, ids).value[i].referenceName == LinkTypeReferenceName(types[p].referenceName)
  {
    BuildWellFormed(types);
    var g := Build(types);
    var gs := Groups(g);
    var lts := Reconcile(types, ids).value;
    BuildFirstName(types, p);
    var i :| 0 <= i < |g.keys| && g.keys[i] == GroupKey(types[p]);
    assert lts[i] == ReconcileGroup(gs[i], ids).value;
  }

  /**
   * IsDirectional holds iff every work-item link of the entry's group is directional,
   * and IsActive iff every one is enabled: a single false flag forces false.
   */
  lemma ReconcileFlags(types: seq<RelationType>, ids: CoreLinkTypes, i: nat)
    requires Reconcile(types, ids).Success? && i < |Reconcile(types, ids).value|
    ensures var lt := Reconcile(types, ids).value[i];
            lt.isDirectional <==>
              forall t | t in types && IsWorkItemLink(t) && EqualsIgnoreCase(LinkTypeReferenceName(t.referenceName), lt.referenceName) ::
                t.directional
    ensures var lt := Reconcile(types, ids).value[i];
            lt.isActive <==>
              forall t | t in types && IsWorkItemLink(t) && EqualsIgnoreCase(LinkTypeReferenceName(t.referenceName), lt.referenceName) ::
                t.enabled
  {
    ReconcileEntry(types, ids, i);
  }

  // ---------------------------------------------------------------------------
  // Ends of one link type

  /** When the reconciliation of a group fails, and with which exception. */
  lemma GroupFailure(g: Group, ids: CoreLinkTypes)
    ensures var single := |g.ends| == 1 && !AllDirectional(g.ends);
            var forwards := |EndingWith(g.ends, ForwardSuffix)|;
            var reverses := |EndingWith(g.ends, ReverseSuffix)|;
            && (ReconcileGroup(g, ids).Failure? <==>
                  (!single && forwards != 1) || (AllDirectional(g.ends) && reverses != 1))
            && (!single && forwards > 1 ==> ReconcileGroup(g, ids) == Failure(AmbiguousEnd(ForwardSuffix)))
            && (!single && forwards == 0 ==> ReconcileGroup(g, ids) == Failure(ForwardEndMissing))
            && ((single || forwards == 1) && AllDirectional(g.ends) && reverses > 1 ==>
                  ReconcileGroup(g, ids) == Failure(AmbiguousEnd(ReverseSuffix)))
            && ((single || forwards == 1) && AllDirectional(g.ends) && reverses == 0 ==>
                  ReconcileGroup(g, ids) == Failure(ReverseEndMissing))
  {
  }

  /**
   * A directional type's forward end is the single record ending in "Forward" and its
   * reverse end, a distinct end that is not a forward link, the single record ending in "Reverse".
   */
  lemma DirectionalEnds(g: Group, ids: CoreLinkTypes)
    requires ReconcileGroup(g, ids).Success? && ReconcileGroup(g, ids).value.isDirectional
    ensures var lt := ReconcileGroup(g, ids).value;
            && |EndingWith(g.ends, ForwardSuffix)| == 1
            && lt.forwardEnd.referenceName == EndingWith(g.ends, ForwardSuffix)[0].referenceName
            && |EndingWith(g.ends, ReverseSuffix)| == 1
            && lt.reverseEnd.referenceName == EndingWith(g.ends, ReverseSuffix)[0].referenceName
            && lt.forwardEnd.isForwardLink && !lt.reverseEnd.isForwardLink
  {
    var f := EndingWith(g.ends, ForwardSuffix)[0];
    assert f in EndingWith(g.ends, ForwardSuffix);
  }

  /**
   * Except for a lone non-directional record, every group takes as its forward end the
   * single record ending in "Forward", whether the type is directional or not.
   */
  lemma ForwardEndOfGroup(g: Group, ids: CoreLinkTypes)
    requires !(|g.ends| == 1 && !AllDirectional(g.ends))
    requires ReconcileGroup(g, ids).Success?
    ensures |EndingWith(g.ends, ForwardSuffix)| == 1
    ensures ReconcileGroup(g, ids).value.forwardEnd.referenceName == EndingWith(g.ends, ForwardSuffix)[0].referenceName
  {
    var f := EndingWith(g.ends, ForwardSuffix)[0];
    assert f in EndingWith(g.ends, ForwardSuffix);
  }

  /**
   * A non-directional type has one end serving as both. Made from a lone record, that
   * end keeps the record's name when it ends in "Forward" and gets "-Forward" appended otherwise.
   */
  lemma NonDirectionalEnds(g: Group, ids: CoreLinkTypes)
    requires |g.ends| == 1 && !g.ends[0].directional
    ensures ReconcileGroup(g, ids).Success?
    ensures var lt := ReconcileGroup(g, ids).value;
            var name := g.ends[0].referenceName;
            && !lt.isDirectional
            && lt.reverseEnd == lt.forwardEnd
            && lt.forwardEnd.isForwardLink
            && (EndsWith(name, ForwardSuffix) ==> lt.forwardEnd.referenceName == name)
            && (!EndsWith(name, ForwardSuffix) ==> lt.forwardEnd.referenceName == name + "-Forward")
  {
    assert g.ends[0] in g.ends;
  }

  // ---------------------------------------------------------------------------
  // Well-known ids

  /** The three system names differ even ignoring case (they differ at position 17). */
  lemma CoreNamesDistinct()
    ensures !EqualsIgnoreCase(Hierarchy, Related)
    ensures !EqualsIgnoreCase(Hierarchy, Dependency)
    ensures !EqualsIgnoreCase(Related, Dependency)
  {
    assert Fold(Hierarchy)[17] == 'H';
    assert Fold(Related)[17] == 'R';
    assert Fold(Dependency)[17] == 'D';
  }

  /** Hierarchy: forward end -Child, reverse end -Parent (one shared end keeps the last, -Parent). */
  lemma HierarchyIds(g: Group, ids: CoreLinkTypes)
    requires EqualsIgnoreCase(g.name, Hierarchy) && ReconcileGroup(g, ids).Success?
    ensures var lt := ReconcileGroup(g, ids).value;
            && (lt.isDirectional ==> lt.forwardEnd.id == -ids.child && lt.reverseEnd.id == -ids.parent)
            && (!lt.isDirectional ==> lt.forwardEnd.id == -ids.parent && lt.reverseEnd.id == -ids.parent)
  {
    assert EqualsIgnoreCase(CoreLinkTypeReferenceNames[0], g.name);
  }

  /** Related: -Related on both ends. */
  lemma RelatedIds(g: Group, ids: CoreLinkTypes)
    requires EqualsIgnoreCase(g.name, Related) && ReconcileGroup(g, ids).Success?
    ensures var lt := ReconcileGroup(g, ids).value;
            lt.forwardEnd.id == -ids.related && lt.reverseEnd.id == -ids.related
  {
    CoreNamesDistinct();
    assert EqualsIgnoreCase(CoreLinkTypeReferenceNames[1], g.name);
  }

  /** Dependency: forward end -Successor, reverse end -Predecessor (one shared end keeps -Predecessor). */
  lemma DependencyIds(g: Group, ids: CoreLinkTypes)
    requires EqualsIgnoreCase(g.name, Dependency) && ReconcileGroup(g, ids).Success?
    ensures var lt := ReconcileGroup(g, ids).value;
            && (lt.isDirectional ==> lt.forwardEnd.id == -ids.successor && lt.reverseEnd.id == -ids.predecessor)
            && (!lt.isDirectional ==> lt.forwardEnd.id == -ids.predecessor && lt.reverseEnd.id == -ids.predecessor)
  {
    CoreNamesDistinct();
    assert EqualsIgnoreCase(CoreLinkTypeReferenceNames[2], g.name);
  }

  /** Any other link type keeps the unset id on both ends. */
  lemma CustomTypeIdsUnset(g: Group, ids: CoreLinkTypes)
    requires !ContainsIgnoreCase(CoreLinkTypeReferenceNames, g.name) && ReconcileGroup(g, ids).Success?
    ensures var lt := ReconcileGroup(g, ids).value;
            lt.forwardEnd.id == UnsetId && lt.reverseEnd.id == UnsetId
  {
  }
}
