/**
 * The cohort-driven user-partition scheme: which group of a user partition
 * a user sees, by masquerade or by cohort, and which of a course's
 * partitions is the cohort-driven one.
 */
module PartitionScheme {
  import opened Wrappers

  datatype Group = Group(id: int, name: string)

  /** The scheme a partition uses to place users in its groups. */
  datatype Scheme = CohortPartitionScheme | OtherScheme(name: string)

  datatype UserPartition = UserPartition(id: int, name: string, scheme: Scheme, groups: seq<Group>)

  /** The (group id, partition id) a staff user is masquerading as; either may be absent. */
  datatype MasqueradeInfo = MasqueradeInfo(groupId: Option<int>, partitionId: Option<int>)

  /**
   * A user's cohort in the course, with the (group id, partition id) its
   * cohort-to-partition mapping gives; both are absent for an unmapped cohort.
   */
  datatype Cohort = Cohort(id: int, groupId: Option<int>, partitionId: Option<int>)

  /** The two warnings resolution logs for stale configuration. */
  datatype Warning =
    | PartitionMismatch(requestedPartitionId: int, foundPartitionId: int, foundGroupId: Option<int>, cohortId: int)
    | GroupNotFound(requestedPartitionId: int, requestedGroupId: Option<int>, cohortId: int)

  /**
   * The outcome of resolving a user's group: the group (none when the user
   * has no valid group), whether the user's cohort was looked up (a lookup
   * that may assign a cohort), and the warnings logged on the way.
   */
  datatype Resolution = Resolution(group: Option<Group>, cohortLookedUp: bool, warnings: seq<Warning>)

  /** The first group of `groups` with the given id, if any. */
  function FindGroup(groups: seq<Group>, id: int): (r: Option<Group>)
    ensures r.Some? ==> r.value in groups && r.value.id == id
    ensures r.None? <==> forall i :: 0 <= i < |groups| ==> groups[i].id != id
    decreases |groups|
  {
    if groups == [] then None
    else if groups[0].id == id then Some(groups[0])
    else FindGroup(groups[1..], id)
  }

  /** `user_partition.get_group(group_id)`; none stands for NoSuchUserPartitionGroupError. */
  function GetGroup(p: UserPartition, groupId: Option<int>): (r: Option<Group>)
    ensures r.Some? ==> r.value in p.groups && groupId == Some(r.value.id)
    ensures r.None? <==> groupId.None? || forall i :: 0 <= i < |p.groups| ==> p.groups[i].id != groupId.value
  {
    if groupId.None? then None else FindGroup(p.groups, groupId.value)
  }

  /** The masquerade names a group of this very partition that still exists. */
  predicate MasqueradeApplies(m: MasqueradeInfo, p: UserPartition)
  {
    m.groupId.Some? && m.partitionId == Some(p.id) && GetGroup(p, m.groupId).Some?
  }

  /**
   * `CohortPartitionScheme.get_group_for_user` for the masquerade state `m`
   * and the cohort lookup would give, `cohort`. First match wins: a live
   * masquerade, then the cohort's mapping, validated against `p`.
   */
  function GetGroupForUser(m: MasqueradeInfo, cohort: Option<Cohort>, p: UserPartition): (r: Resolution)
    // a returned group always belongs to the queried partition
    ensures r.group.Some? ==> r.group.value in p.groups
    ensures |r.warnings| <= 1
    // a live masquerade wins, without looking at the cohort
    ensures MasqueradeApplies(m, p) ==> r == Resolution(GetGroup(p, m.groupId), false, [])
    // otherwise the cohort decides
    ensures !MasqueradeApplies(m, p) ==> r.cohortLookedUp
    ensures !MasqueradeApplies(m, p) && cohort.None? ==> r.group.None? && r.warnings == []
    ensures !MasqueradeApplies(m, p) && cohort.Some? && cohort.value.partitionId.None? ==>
              r.group.None? && r.warnings == []
    ensures !MasqueradeApplies(m, p) && cohort.Some? && cohort.value.partitionId.Some?
              && cohort.value.partitionId.value != p.id ==>
              r.group.None?
              && r.warnings == [PartitionMismatch(p.id, cohort.value.partitionId.value, cohort.value.groupId, cohort.value.id)]
    ensures !MasqueradeApplies(m, p) && cohort.Some? && cohort.value.partitionId == Some(p.id) ==>
              r.group == GetGroup(p, cohort.value.groupId)
              && r.warnings == (if r.group.None? then [GroupNotFound(p.id, cohort.value.groupId, cohort.value.id)] else [])
    // a group is found only by a live masquerade or a cohort mapped into this partition
    ensures r.group.Some? <==>
              MasqueradeApplies(m, p)
              || (cohort.Some? && cohort.value.partitionId == Some(p.id) && GetGroup(p, cohort.value.groupId).Some?)
  {
    var masqueraded := if m.groupId.Some? && m.partitionId == Some(p.id) then GetGroup(p, m.groupId) else None;
    if masqueraded.Some? then Resolution(masqueraded, false, [])
    else if cohort.None? then Resolution(None, true, [])
    else
      var c := cohort.value;
      if c.partitionId.None? then Resolution(None, true, [])
      else if c.partitionId.value != p.id then
        Resolution(None, true, [PartitionMismatch(p.id, c.partitionId.value, c.groupId, c.id)])
      else
        var found := GetGroup(p, c.groupId);
        if found.Some? then Resolution(found, true, [])
        else Resolution(None, true, [GroupNotFound(p.id, c.groupId, c.id)])
  }

  /** Whatever the cohort state, a live masquerade gives the same answer. */
  lemma MasqueradeIgnoresCohort(m: MasqueradeInfo, c1: Option<Cohort>, c2: Option<Cohort>, p: UserPartition)
    requires MasqueradeApplies(m, p)
    ensures GetGroupForUser(m, c1, p) == GetGroupForUser(m, c2, p)
  {
  }

  /** A masquerade whose group has left the partition is ignored: resolution goes on as without one. */
  lemma StaleMasqueradeFallsThrough(m: MasqueradeInfo, cohort: Option<Cohort>, p: UserPartition)
    requires m.groupId.Some? && m.partitionId == Some(p.id) && GetGroup(p, m.groupId).None?
    ensures GetGroupForUser(m, cohort, p) == GetGroupForUser(MasqueradeInfo(None, None), cohort, p)
  {
  }

  /**
   * `get_cohorted_user_partition` over the course's declared partitions:
   * the first one, in declared order, that uses the cohort scheme.
   */
  method GetCohortedUserPartition(userPartitions: seq<UserPartition>) returns (r: Option<UserPartition>)
    ensures r.None? <==> forall i :: 0 <= i < |userPartitions| ==> userPartitions[i].scheme != CohortPartitionScheme
    ensures r.Some? ==>
      exists k :: 0 <= k < |userPartitions| && userPartitions[k] == r.value
        && r.value.scheme == CohortPartitionScheme
        && forall j :: 0 <= j < k ==> userPartitions[j].scheme != CohortPartitionScheme
  {
    var i := 0;
    while i < |userPartitions|
      invariant 0 <= i <= |userPartitions|
      invariant forall j :: 0 <= j < i ==> userPartitions[j].scheme != CohortPartitionScheme
    {
      if userPartitions[i].scheme == CohortPartitionScheme {
        return Some(userPartitions[i]);
      }
      i := i + 1;
    }
    return None;
  }
}
