/**
 * What the REST store's link-type reconciliation computes, stated on values.
 * The first loop of GetLinks groups the work-item-link relation types by their
 * case-folded base name (Build); the second turns every group into a link type
 * with its two ends (ReconcileGroup), stopping at the first group that raises.
 */
module LinkTypeReconciliation {
  import opened Wrappers
  import opened DotNetStrings
  import opened LinkTypeNames

  /** A relation type as the service returns it, with the three attributes the reconciliation reads. */
  datatype RelationType = RelationType(referenceName: string, usage: string, directional: bool, enabled: bool)

  /** The `usage` attribute of the relation types that are work-item links. */
  const WorkItemLinkUsage: string := "workItemLink"

  predicate IsWorkItemLink(t: RelationType)
  {
    t.usage == WorkItemLinkUsage
  }

  /** The legacy numeric ids of the system link ends (CoreLinkTypes); their values are left open. */
  datatype CoreLinkTypes = CoreLinkTypes(child: int, parent: int, related: int, successor: int, predecessor: int)

  /** The reference names of the system link types (CoreLinkTypeReferenceNames). */
  const Hierarchy: string := "System.LinkTypes.Hierarchy"
  const Related: string := "System.LinkTypes.Related"
  const Dependency: string := "System.LinkTypes.Dependency"
  const CoreLinkTypeReferenceNames: seq<string> := [Hierarchy, Related, Dependency]

  const ForwardSuffix: string := "Forward"
  const ReverseSuffix: string := "Reverse"

  /** The id of an end whose id is never assigned. */
  const UnsetId: int := 0

  /** The exceptions that abort the reconciliation. */
  datatype LinkError =
    | AmbiguousEnd(suffix: string)  // SingleOrDefault found more than one record with the suffix
    | ForwardEndMissing             // no forward record: the null forward end is dereferenced
    | ReverseEndMissing             // directional type without a reverse record: null reaches the end constructor

  datatype LinkTypeEnd = LinkTypeEnd(referenceName: string, isForwardLink: bool, id: int)

  datatype LinkType = LinkType(
    referenceName: string,
    isDirectional: bool,
    isActive: bool,
    forwardEnd: LinkTypeEnd,
    reverseEnd: LinkTypeEnd)

  // ---------------------------------------------------------------------------
  // First loop: grouping by base name

  /** The dictionary key of a relation type: its base name, compared ignoring case. */
  function GroupKey(t: RelationType): string
  {
    Fold(LinkTypeReferenceName(t.referenceName))
  }

  /**
   * The two dictionaries of the first loop under their common key: `names` holds each
   * link type's name (d2), `ends` the relation types of each group (d), and `keys` is
   * the order in which the keys were first added, the order the dictionaries enumerate.
   */
  datatype Grouping = Grouping(keys: seq<string>, names: map<string, string>, ends: map<string, seq<RelationType>>)

  ghost predicate WellFormed(g: Grouping)
  {
    && (forall i, j | 0 <= i < j < |g.keys| :: g.keys[i] != g.keys[j])
    && (forall k :: k in g.ends <==> k in g.keys)
    && g.names.Keys == g.ends.Keys
    && (forall k | k in g.ends :: g.ends[k] != [] && Fold(g.names[k]) == k)
  }

  /** One pass of the first loop: record `t` under its base name, creating the group if it is new. */
  function AddRecord(g: Grouping, t: RelationType): Grouping
  {
    var linkRef := LinkTypeReferenceName(t.referenceName);
    var k := Fold(linkRef);
    if k in g.ends then g.(ends := g.ends[k := g.ends[k] + [t]])
    else Grouping(g.keys + [k], g.names[k := linkRef], g.ends[k := [t]])
  }

  /** The dictionaries after the first loop has run over `types`, skipping the non-link ones. */
  function Build(types: seq<RelationType>): Grouping
  {
    if types == [] then Grouping([], map[], map[])
    else
      var g := Build(types[..|types| - 1]);
      var t := types[|types| - 1];
      if IsWorkItemLink(t) then AddRecord(g, t) else g
  }

  /** The keys are distinct and index both dictionaries; every group is non-empty and folds its own name to its key. */
  lemma {:induction false} BuildWellFormed(types: seq<RelationType>)
    ensures WellFormed(Build(types))
  {
    if types != [] {
      BuildWellFormed(types[..|types| - 1]);
    }
  }

  /** The work-item-link records of `types` that fall under key `k`, in input order. */
  function RecordsWithKey(types: seq<RelationType>, k: string): (r: seq<RelationType>)
    ensures forall t :: t in r <==> t in types && IsWorkItemLink(t) && GroupKey(t) == k
    ensures r == [] <==> forall t | t in types :: !(IsWorkItemLink(t) && GroupKey(t) == k)
  {
    if types == [] then []
    else
      var rest := RecordsWithKey(types[..|types| - 1], k);
      var t := types[|types| - 1];
      assert types == types[..|types| - 1] + [t];
      if IsWorkItemLink(t) && GroupKey(t) == k then rest + [t] else rest
  }

  /** The work-item-link records of `types` (the Where clause of the first loop). */
  function WorkItemLinks(types: seq<RelationType>): (r: seq<RelationType>)
    ensures forall t :: t in r <==> t in types && IsWorkItemLink(t)
    ensures r == [] <==> forall t | t in types :: !IsWorkItemLink(t)
  {
    if types == [] then []
    else
      var t := types[|types| - 1];
      assert types == types[..|types| - 1] + [t];
      WorkItemLinks(types[..|types| - 1]) + if IsWorkItemLink(t) then [t] else []
  }

  // ---------------------------------------------------------------------------
  // Second loop: one link type per group

  /** A group: the link type's name and its relation types. */
  datatype Group = Group(name: string, ends: seq<RelationType>)

  /** The groups in the order the second loop visits them. */
  function Groups(g: Grouping): seq<Group>
    requires WellFormed(g)
  {
    seq(|g.keys|, i requires 0 <= i < |g.keys| => Group(g.names[g.keys[i]], g.ends[g.keys[i]]))
  }

  /** The records whose reference name ends with `suffix`, in order. */
  function EndingWith(ends: seq<RelationType>, suffix: string): (r: seq<RelationType>)
    ensures forall t :: t in r <==> t in ends && EndsWith(t.referenceName, suffix)
  {
    if ends == [] then []
    else (if EndsWith(ends[0].referenceName, suffix) then [ends[0]] else []) + EndingWith(ends[1..], suffix)
  }

  /** SingleOrDefault over the records ending with `suffix`: the one match, None for none, an exception for several. */
  function SingleEndingWith(ends: seq<RelationType>, suffix: string): Result<Option<RelationType>, LinkError>
  {
    var matches := EndingWith(ends, suffix);
    if |matches| == 0 then Success(None)
    else if |matches| == 1 then Success(Some(matches[0]))
    else Failure(AmbiguousEnd(suffix))
  }

  predicate AllDirectional(ends: seq<RelationType>)
  {
    forall i | 0 <= i < |ends| :: ends[i].directional
  }

  predicate AllEnabled(ends: seq<RelationType>)
  {
    forall i | 0 <= i < |ends| :: ends[i].enabled
  }

  /** The record chosen as forward end: the lone record of a non-directional group, else the one ending in "Forward". */
  function ForwardRecord(ends: seq<RelationType>, isDirectional: bool): Result<RelationType, LinkError>
  {
    if |ends| == 1 && !isDirectional then Success(ends[0])
    else
      match SingleEndingWith(ends, ForwardSuffix)
      case Failure(e) => Failure(e)
      case Success(None) => Failure(ForwardEndMissing)
      case Success(Some(f)) => Success(f)
  }

  /** The name the forward record carries once "-Forward" has been appended where the suffix was missing. */
  function ForwardName(f: RelationType): string
  {
    if EndsWith(f.referenceName, ForwardSuffix) then f.referenceName else f.referenceName + "-" + ForwardSuffix
  }

  /** The ids chosen for a system link type, as (forward, reverse); None for any other name. */
  function WellKnownIds(name: string, ids: CoreLinkTypes): Option<(int, int)>
  {
    if !ContainsIgnoreCase(CoreLinkTypeReferenceNames, name) then None
    else if EqualsIgnoreCase(Hierarchy, name) then Some((ids.child, ids.parent))
    else if EqualsIgnoreCase(Related, name) then Some((ids.related, ids.related))
    else if EqualsIgnoreCase(Dependency, name) then Some((ids.successor, ids.predecessor))
    else Some((0, 0))
  }

  /**
   * Store the negated ids on the ends, forward first. The ends of a non-directional
   * type are one object, so there the reverse id overwrites the forward one.
   */
  function WithIds(t: LinkType, forwardId: int, reverseId: int): LinkType
  {
    if t.isDirectional then
      t.(forwardEnd := t.forwardEnd.(id := -forwardId), reverseEnd := t.reverseEnd.(id := -reverseId))
    else
      var e := t.forwardEnd.(id := -reverseId);
      t.(forwardEnd := e, reverseEnd := e)
  }

  /** The link type once the ids of a system link type have been stored on its ends. */
  function PatchIds(t: LinkType, ids: CoreLinkTypes): LinkType
  {
    match WellKnownIds(t.referenceName, ids)
    case None => t
    case Some((forwardId, reverseId)) => WithIds(t, forwardId, reverseId)
  }

  /** The link type the second loop makes of one group, or the exception it raises. */
  function ReconcileGroup(g: Group, ids: CoreLinkTypes): (r: Result<LinkType, LinkError>)
    ensures r.Success? ==> r.value.referenceName == g.name
    ensures r.Success? ==> (r.value.isDirectional <==> forall t | t in g.ends :: t.directional)
    ensures r.Success? ==> (r.value.isActive <==> forall t | t in g.ends :: t.enabled)
    ensures r.Success? ==> r.value.forwardEnd.isForwardLink && EndsWith(r.value.forwardEnd.referenceName, ForwardSuffix)
    ensures r.Success? && !r.value.isDirectional ==> r.value.reverseEnd == r.value.forwardEnd
  {
    var isDirectional := AllDirectional(g.ends);
    var isActive := AllEnabled(g.ends);
    match ForwardRecord(g.ends, isDirectional)
    case Failure(e) => Failure(e)
    case Success(f) =>
      EndsWithAppended(f.referenceName + "-", ForwardSuffix);
      var forwardEnd := LinkTypeEnd(ForwardName(f), true, UnsetId);
      var reverse: Result<LinkTypeEnd, LinkError> :=
        if !isDirectional then Success(forwardEnd)
        else
          match SingleEndingWith(g.ends, ReverseSuffix)
          case Failure(e) => Failure(e)
          case Success(None) => Failure(ReverseEndMissing)
          case Success(Some(rv)) => Success(LinkTypeEnd(rv.referenceName, false, UnsetId));
      match reverse
      case Failure(e) => Failure(e)
      case Success(reverseEnd) =>
        Success(PatchIds(LinkType(g.name, isDirectional, isActive, forwardEnd, reverseEnd), ids))
  }

  /** Collect per-group results in order: all the values, or the error of the first failure. */
  function Collect(rs: seq<Result<LinkType, LinkError>>): (r: Result<seq<LinkType>, LinkError>)
    ensures r.Success? <==> forall i | 0 <= i < |rs| :: rs[i].Success?
    ensures r.Success? ==> |r.value| == |rs|
    ensures r.Success? ==> forall i | 0 <= i < |rs| :: r.value[i] == rs[i].value
    ensures forall i | 0 <= i < |rs| && rs[i].Failure? ::
              (forall j | 0 <= j < i :: rs[j].Success?) ==> r == Failure(rs[i].error)
  {
    if rs == [] then Success([])
    else
      match Collect(rs[..|rs| - 1])
      case Failure(e) => Failure(e)
      case Success(vs) =>
        match rs[|rs| - 1]
        case Failure(e) => Failure(e)
        case Success(t) => Success(vs + [t])
  }

  /** The outcome of each group, in enumeration order. */
  function GroupResults(gs: seq<Group>, ids: CoreLinkTypes): seq<Result<LinkType, LinkError>>
  {
    seq(|gs|, i requires 0 <= i < |gs| => ReconcileGroup(gs[i], ids))
  }

  /** The second loop over all groups: every link type, or the exception of the first group that raises. */
  function ReconcileAll(gs: seq<Group>, ids: CoreLinkTypes): (r: Result<seq<LinkType>, LinkError>)
    ensures r.Success? <==> forall i | 0 <= i < |gs| :: ReconcileGroup(gs[i], ids).Success?
    ensures r.Success? ==> |r.value| == |gs|
    ensures r.Success? ==> forall i | 0 <= i < |gs| :: r.value[i] == ReconcileGroup(gs[i], ids).value
    ensures forall i | 0 <= i < |gs| && ReconcileGroup(gs[i], ids).Failure? ::
              (forall j | 0 <= j < i :: ReconcileGroup(gs[j], ids).Success?) ==>
                r == Failure(ReconcileGroup(gs[i], ids).error)
  {
    var rs := GroupResults(gs, ids);
    assert |rs| == |gs| && forall i | 0 <= i < |gs| :: rs[i] == ReconcileGroup(gs[i], ids);
    Collect(rs)
  }

  /** GetLinks on the fetched relation types: the link type collection, or the exception raised. */
  function Reconcile(types: seq<RelationType>, ids: CoreLinkTypes): Result<seq<LinkType>, LinkError>
  {
    BuildWellFormed(types);
    ReconcileAll(Groups(Build(types)), ids)
  }
}
