/** Upstreams, groups and the checks that make a chain's configuration valid. */
module Topology {
  import opened Wrappers

  datatype UpstreamConfig = UpstreamConfig(
    id: string,
    groupID: string,
    httpURL: string,
    wsURL: string,
    nodeType: string,
    useWSForBlockHeight: Option<bool>,
    enabled: map<string, bool>,
    disabled: map<string, bool>)

  datatype GroupConfig = GroupConfig(id: string, priority: int)

  /** The zero value of the Go struct. */
  const NO_UPSTREAM := UpstreamConfig("", "", "", "", "", None, map[], map[])

  ghost predicate DistinctGroups(groups: seq<GroupConfig>) {
    forall i, j | 0 <= i < j < |groups| ::
      groups[i].id != groups[j].id && groups[i].priority != groups[j].priority
  }

  ghost predicate DistinctUpstreams(upstreams: seq<UpstreamConfig>) {
    forall i, j | 0 <= i < j < |upstreams| :: upstreams[i].id != upstreams[j].id
  }

  /** When groups are declared, every upstream must belong to one of them. */
  ghost predicate BelongsToGroup(u: UpstreamConfig, groups: seq<GroupConfig>) {
    groups != [] ==> u.groupID != "" && exists i :: 0 <= i < |groups| && groups[i].id == u.groupID
  }

  ghost predicate ValidUpstream(u: UpstreamConfig, groups: seq<GroupConfig>) {
    && u.httpURL != ""
    && u.nodeType != ""
    && (u.useWSForBlockHeight == Some(true) ==> u.wsURL != "")
    && BelongsToGroup(u, groups)
  }

  ghost predicate ValidTopology(upstreams: seq<UpstreamConfig>, groups: seq<GroupConfig>) {
    && DistinctGroups(groups)
    && DistinctUpstreams(upstreams)
    && forall i | 0 <= i < |upstreams| :: ValidUpstream(upstreams[i], groups)
  }

  method IsGroupsValid(groups: seq<GroupConfig>) returns (ok: bool)
    ensures ok <==> DistinctGroups(groups)
  {
    var uniqueIDs: map<string, bool> := map[];
    for n := 0 to |groups|
      invariant forall id :: id in uniqueIDs <==> exists i :: 0 <= i < n && groups[i].id == id
      invariant forall i, j | 0 <= i < j < n :: groups[i].id != groups[j].id
    {
      if groups[n].id in uniqueIDs {
        return false;
      }
      uniqueIDs := uniqueIDs[groups[n].id := true];
    }
    var uniquePriorities: map<int, bool> := map[];
    for n := 0 to |groups|
      invariant forall p :: p in uniquePriorities <==> exists i :: 0 <= i < n && groups[i].priority == p
      invariant forall i, j | 0 <= i < j < n :: groups[i].priority != groups[j].priority
    {
      if groups[n].priority in uniquePriorities {
        return false;
      }
      uniquePriorities := uniquePriorities[groups[n].priority := true];
    }
    return true;
  }

  method IsUpstreamsValid(upstreams: seq<UpstreamConfig>) returns (ok: bool)
    ensures ok <==> DistinctUpstreams(upstreams)
  {
    var uniqueIDs: map<string, bool> := map[];
    for n := 0 to |upstreams|
      invariant forall id :: id in uniqueIDs <==> exists i :: 0 <= i < n && upstreams[i].id == id
      invariant forall i, j | 0 <= i < j < n :: upstreams[i].id != upstreams[j].id
    {
      if upstreams[n].id in uniqueIDs {
        return false;
      }
      uniqueIDs := uniqueIDs[upstreams[n].id := true];
    }
    return true;
  }

  method IsUpstreamValid(u: UpstreamConfig, groups: seq<GroupConfig>) returns (isValid: bool)
    ensures isValid <==> ValidUpstream(u, groups)
    ensures isValid <==>
      && u.httpURL != "" && u.nodeType != ""
      && !(u.useWSForBlockHeight == Some(true) && u.wsURL == "")
      && (groups == [] || (u.groupID != "" && exists i :: 0 <= i < |groups| && groups[i].id == u.groupID))
  {
    isValid := true;
    if u.httpURL == "" {
      isValid := false;
    }
    if u.nodeType == "" {
      isValid := false;
    }
    if u.useWSForBlockHeight != None && u.useWSForBlockHeight.value && u.wsURL == "" {
      isValid := false;
    }
    if |groups| > 0 {
      if u.groupID == "" {
        isValid := false;
      } else {
        var groupIsValid := false;
        for n := 0 to |groups|
          invariant groupIsValid <==> exists i :: 0 <= i < n && groups[i].id == u.groupID
        {
          if groups[n].id == u.groupID {
            groupIsValid := true;
          }
        }
        if !groupIsValid {
          isValid := false;
        }
      }
    }
  }

  /** The part of a chain's validation that routing depends on. */
  method IsTopologyValid(upstreams: seq<UpstreamConfig>, groups: seq<GroupConfig>) returns (ok: bool)
    ensures ok <==> ValidTopology(upstreams, groups)
  {
    ok := IsGroupsValid(groups);
    if ok {
      ok := IsUpstreamsValid(upstreams);
    }
    for n := 0 to |upstreams|
      invariant ok <==>
        DistinctGroups(groups) && DistinctUpstreams(upstreams)
        && forall i | 0 <= i < n :: ValidUpstream(upstreams[i], groups)
    {
      if ok {
        ok := IsUpstreamValid(upstreams[n], groups);
      }
    }
  }
}
