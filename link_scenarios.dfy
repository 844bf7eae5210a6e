/** Worked examples of the reconciliation, proved on small inputs: a directional pair of records and a lone symmetric record. */
module LinkTypeScenarios {
  import opened Wrappers
  import opened DotNetStrings
  import opened LinkTypeNames
  import opened LinkTypeReconciliation
  import opened LinkTypeProperties

  /** A directional, enabled pair of work-item-link records named `base`-Forward and `base`-Reverse. */
  function PairRecords(base: string): seq<RelationType>
  {
    [RelationType(base + "-" + ForwardSuffix, WorkItemLinkUsage, true, true),
     RelationType(base + "-" + ReverseSuffix, WorkItemLinkUsage, true, true)]
  }

  /** Both records of a pair land in one group, named `base`. */
  lemma PairGrouping(base: string)
    requires !IsNullOrWhiteSpace(base)
    ensures var k := Fold(base);
            Build(PairRecords(base)) == Grouping([k], map[k := base], map[k := PairRecords(base)])
  {
    var rs := PairRecords(base);
    var k := Fold(base);
    BaseNameOfJoined(base, ForwardSuffix);
    BaseNameOfJoined(base, ReverseSuffix);
    assert rs[..1] == [rs[0]];
    assert [rs[0]][..0] == [];
    assert Build([rs[0]]) == Grouping([k], map[k := base], map[k := [rs[0]]]);
    assert [rs[0]] + [rs[1]] == rs;
  }

  /** The group of a pair becomes a directional, active type whose ends are the two records. */
  lemma PairGroup(base: string, ids: CoreLinkTypes)
    ensures var rs := PairRecords(base);
            ReconcileGroup(Group(base, rs), ids) == Success(PatchIds(LinkType(base, true, true,
              LinkTypeEnd(rs[0].referenceName, true, UnsetId),
              LinkTypeEnd(rs[1].referenceName, false, UnsetId)), ids))
  {
    var rs := PairRecords(base);
    EndsWithAppended(base + "-", ForwardSuffix);
    EndsWithAppended(base + "-", ReverseSuffix);
    assert ForwardSuffix[0] != ReverseSuffix[0];
    assert !EndsWith(rs[1].referenceName, ForwardSuffix);
    assert !EndsWith(rs[0].referenceName, ReverseSuffix);
    assert rs[1..][1..] == [] && rs[1..][0] == rs[1];
    assert EndingWith(rs[1..], ForwardSuffix) == [] + EndingWith(rs[1..][1..], ForwardSuffix);
    assert EndingWith(rs, ForwardSuffix) == [rs[0]] + EndingWith(rs[1..], ForwardSuffix);
    assert EndingWith(rs[1..], ReverseSuffix) == [rs[1]] + EndingWith(rs[1..][1..], ReverseSuffix);
    assert EndingWith(rs, ReverseSuffix) == [] + EndingWith(rs[1..], ReverseSuffix);
  }

  /** Input whose first loop yields a single group reconciles to what that group makes. */
  lemma SingleGroupReconciles(types: seq<RelationType>, g: Group, ids: CoreLinkTypes)
    requires WellFormed(Build(types)) && Groups(Build(types)) == [g]
    requires ReconcileGroup(g, ids).Success?
    ensures Reconcile(types, ids) == Success([ReconcileGroup(g, ids).value])
  {
    var rs := GroupResults([g], ids);
    assert rs == [ReconcileGroup(g, ids)];
    var r := Collect(rs);
    assert r.Success? && |r.value| == 1;
    assert r.value[0] == rs[0].value;
    assert r.value == [ReconcileGroup(g, ids).value];
    assert Reconcile(types, ids) == r;
  }

  /** A pair whose base name is not blank reconciles to exactly one link type, the one its group makes. */
  lemma PairReconciles(base: string, ids: CoreLinkTypes)
    requires !IsNullOrWhiteSpace(base)
    ensures var rs := PairRecords(base);
            && ReconcileGroup(Group(base, rs), ids).Success?
            && Reconcile(rs, ids) == Success([ReconcileGroup(Group(base, rs), ids).value])
  {
    var rs := PairRecords(base);
    PairGrouping(base);
    PairGroup(base, ids);
    BuildWellFormed(rs);
    var k := Fold(base);
    assert Groups(Grouping([k], map[k := base], map[k := rs])) == [Group(base, rs)];
    SingleGroupReconciles(rs, Group(base, rs), ids);
  }

  /** Dependency is a system link type that takes the successor and predecessor ids. */
  lemma DependencyIsWellKnown(ids: CoreLinkTypes)
    ensures WellKnownIds(Dependency, ids) == Some((ids.successor, ids.predecessor))
  {
    CoreNamesDistinct();
    assert EqualsIgnoreCase(CoreLinkTypeReferenceNames[2], Dependency);
  }

  /** Related is a system link type that takes the related id on both ends. */
  lemma RelatedIsWellKnown(ids: CoreLinkTypes)
    ensures WellKnownIds(Related, ids) == Some((ids.related, ids.related))
  {
    CoreNamesDistinct();
    assert EqualsIgnoreCase(CoreLinkTypeReferenceNames[1], Related);
  }

  /**
   * The two Dependency records give one directional, active Dependency link type whose
   * forward end carries -Successor and whose reverse end -Predecessor.
   */
  lemma DependencyPair(ids: CoreLinkTypes)
    ensures Reconcile(PairRecords(Dependency), ids) == Success([LinkType(Dependency, true, true,
              LinkTypeEnd(Dependency + "-" + ForwardSuffix, true, -ids.successor),
              LinkTypeEnd(Dependency + "-" + ReverseSuffix, false, -ids.predecessor))])
  {
    DependencyNotBlank();
    PairReconciles(Dependency, ids);
    PairGroup(Dependency, ids);
    PatchedDependency(ids);
  }

  /** The Dependency name is not blank, so its records split at the hyphen. */
  lemma DependencyNotBlank()
    ensures !IsNullOrWhiteSpace(Dependency)
  {
    assert !IsWhiteSpace(Dependency[0]);
  }

  /** Patching the ids of a directional Dependency type stores -Successor forward and -Predecessor in reverse. */
  lemma PatchedDependency(ids: CoreLinkTypes)
    ensures var rs := PairRecords(Dependency);
            PatchIds(LinkType(Dependency, true, true,
              LinkTypeEnd(rs[0].referenceName, true, UnsetId),
              LinkTypeEnd(rs[1].referenceName, false, UnsetId)), ids)
            == LinkType(Dependency, true, true,
              LinkTypeEnd(Dependency + "-" + ForwardSuffix, true, -ids.successor),
              LinkTypeEnd(Dependency + "-" + ReverseSuffix, false, -ids.predecessor))
  {
    DependencyIsWellKnown(ids);
  }

  /** The group of a lone Related record that is not directional. */
  lemma LoneRelatedGrouping()
    ensures var record := RelationType(Related, WorkItemLinkUsage, false, true);
            WellFormed(Build([record])) && Groups(Build([record])) == [Group(Related, [record])]
  {
    var record := RelationType(Related, WorkItemLinkUsage, false, true);
    assert forall i | 0 <= i < |Related| :: Related[i] != '-';
    BaseNameIsPrefix(Related);
    assert [record][..0] == [];
    BuildWellFormed([record]);
  }

  /** A lone, non-directional, enabled record whose name lacks the suffix becomes one shared end renamed with "-Forward". */
  lemma LoneGroup(name: string, ids: CoreLinkTypes)
    requires !EndsWith(name, ForwardSuffix)
    ensures var e := LinkTypeEnd(name + "-" + ForwardSuffix, true, UnsetId);
            ReconcileGroup(Group(name, [RelationType(name, WorkItemLinkUsage, false, true)]), ids) ==
              Success(PatchIds(LinkType(name, false, true, e, e), ids))
  {
  }

  /** The Related name does not end with "Forward". */
  lemma RelatedLacksSuffix()
    ensures !EndsWith(Related, ForwardSuffix)
  {
    assert Related[17] == 'R';
  }

  /** Patching the ids of a non-directional Related type stores -Related on its shared end. */
  lemma PatchedRelated(ids: CoreLinkTypes)
    ensures var e := LinkTypeEnd(Related + "-" + ForwardSuffix, true, UnsetId);
            var e' := LinkTypeEnd(Related + "-" + ForwardSuffix, true, -ids.related);
            PatchIds(LinkType(Related, false, true, e, e), ids) == LinkType(Related, false, true, e', e')
  {
    RelatedIsWellKnown(ids);
  }

  /**
   * A lone Related record that is not directional gives a non-directional Related link
   * type with a single end, renamed with "-Forward", carrying -Related.
   */
  lemma LoneRelated(ids: CoreLinkTypes)
    ensures var e := LinkTypeEnd(Related + "-" + ForwardSuffix, true, -ids.related);
            Reconcile([RelationType(Related, WorkItemLinkUsage, false, true)], ids) ==
              Success([LinkType(Related, false, true, e, e)])
  {
    var record := RelationType(Related, WorkItemLinkUsage, false, true);
    LoneRelatedGrouping();
    RelatedLacksSuffix();
    LoneGroup(Related, ids);
    PatchedRelated(ids);
    SingleGroupReconciles([record], Group(Related, [record]), ids);
  }
}
