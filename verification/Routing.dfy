/** The routing table (src/pipeline/routing.rs): built once from the sinks' routes, then only looked up. */
module Routing {

  import opened Audio

  datatype SinkRoute = Broadcast | Single(source: SourceId) | Merged(sources: set<SourceId>)
  {
    /** The per-sink rule the table stands for (`wants_source`). */
    predicate WantsSource(s: SourceId)
    {
      match this
      case Broadcast => true
      case Single(id) => id == s
      case Merged(ids) => s in ids
    }

    /** The sources the route mentions by name. */
    function Named(): set<SourceId>
    {
      match this
      case Broadcast => {}
      case Single(id) => {id}
      case Merged(ids) => ids
    }
  }

  datatype RoutingTable = RoutingTable(
    direct: map<SourceId, seq<nat>>,
    broadcast: seq<nat>,
    mergeGroups: seq<seq<nat>>
  ) {
    function DirectSinks(s: SourceId): seq<nat>
    {
      if s in direct then direct[s] else []
    }

    predicate HasMergeRoutes()
    {
      mergeGroups != []
    }
  }

  datatype TableResult = Success(table: RoutingTable) | UnknownSource(source: SourceId)

  /** The sinks with precisely this route, in order. */
  function Indices(routes: seq<SinkRoute>, r: SinkRoute): seq<nat>
  {
    if routes == [] then []
    else
      var n := |routes| - 1;
      Indices(routes[..n], r) + if routes[n] == r then [n] else []
  }

  ghost predicate IsGroups(routes: seq<SinkRoute>, groups: seq<seq<nat>>, keys: seq<set<SourceId>>)
  {
    && |keys| == |groups|
    && (forall g, h :: 0 <= g < h < |keys| ==> keys[g] != keys[h])
    && (forall g :: 0 <= g < |groups| ==> groups[g] != [] && groups[g] == Indices(routes, Merged(keys[g])))
    && (forall i :: 0 <= i < |routes| ==> routes[i].Merged? ==> routes[i].sources in keys)
  }

  /** The table of these routes, its merge groups in some order. */
  ghost predicate IsTable(routes: seq<SinkRoute>, t: RoutingTable)
  {
    && t.broadcast == Indices(routes, Broadcast)
    && (forall s :: t.DirectSinks(s) == Indices(routes, Single(s)))
    && (exists keys :: IsGroups(routes, t.mergeGroups, keys))
  }

  ghost predicate AllKnown(routes: seq<SinkRoute>, sources: set<SourceId>)
  {
    forall i :: 0 <= i < |routes| ==> routes[i].Named() <= sources
  }

  /** `s` is unknown, and named by the first route that names an unknown source. */
  ghost predicate FirstUnknown(routes: seq<SinkRoute>, sources: set<SourceId>, s: SourceId)
  {
    s !in sources && exists i :: 0 <= i < |routes| && AllKnown(routes[..i], sources) && s in routes[i].Named()
  }

  // ---------- the code ----------

  /** Fails exactly when some route names an unknown source, and then names one of the first such route. */
  method NewTable(routes: seq<SinkRoute>, sourceIds: seq<SourceId>) returns (r: TableResult)
    ensures r.Success? <==> AllKnown(routes, SetOf(sourceIds))
    ensures r.Success? ==> IsTable(routes, r.table)
    ensures r.UnknownSource? ==> FirstUnknown(routes, SetOf(sourceIds), r.source)
  {
    hide *;
    var sources := SetOf(sourceIds);
    var direct: map<SourceId, seq<nat>> := map[];
    var broadcast: seq<nat> := [];
    var mergeMap: map<set<SourceId>, seq<nat>> := map[];
    NothingListed(sources);
    for i := 0 to |routes|
      invariant AllKnown(routes[..i], sources)
      invariant Listed(routes[..i], broadcast, direct, mergeMap)
    {
      var route := routes[i];
      assert routes[..i] + [route] == routes[..i + 1];
      match route
      case Broadcast =>
        ListBroadcast(routes[..i], broadcast, direct, mergeMap, sources);
        broadcast := broadcast + [i];
      case Single(s) =>
        if s !in sources {
          IsUnknown(routes, sources, i, s);
          return UnknownSource(s);
        }
        ListSingle(routes[..i], broadcast, direct, mergeMap, sources, s);
        direct := direct[s := (if s in direct then direct[s] else []) + [i]];
      case Merged(ids) =>
        var left := ids;
        while left != {}
          invariant left <= ids && ids - left <= sources
          decreases |left|
        {
          var s :| s in left;
          if s !in sources {
            IsUnknown(routes, sources, i, s);
            return UnknownSource(s);
          }
          left := left - {s};
        }
        ListMerged(routes[..i], broadcast, direct, mergeMap, sources, ids);
        mergeMap := mergeMap[ids := (if ids in mergeMap then mergeMap[ids] else []) + [i]];
    }
    assert routes[..|routes|] == routes;
    var groups := IntoValues(routes, broadcast, direct, mergeMap);
    r := Success(RoutingTable(direct, broadcast, groups));
  }

  /** The three collections hold the routes seen so far. */
  ghost predicate Listed(routes: seq<SinkRoute>, broadcast: seq<nat>, direct: map<SourceId, seq<nat>>,
                         merges: map<set<SourceId>, seq<nat>>)
  {
    && broadcast == Indices(routes, Broadcast)
    && (forall s :: (if s in direct then direct[s] else []) == Indices(routes, Single(s)))
    && (forall k :: (if k in merges then merges[k] else []) == Indices(routes, Merged(k)))
    && (forall k :: k in merges ==> merges[k] != [])
  }

  lemma NothingListed(sources: set<SourceId>)
    ensures AllKnown([], sources) && Listed([], [], map[], map[])
  {
  }

  lemma IsUnknown(routes: seq<SinkRoute>, sources: set<SourceId>, i: nat, s: SourceId)
    requires i < |routes| && s !in sources && AllKnown(routes[..i], sources)
    requires routes[i] == Single(s) || (routes[i].Merged? && s in routes[i].sources)
    ensures FirstUnknown(routes, sources, s) && !AllKnown(routes, sources)
  {
    assert s in routes[i].Named();
  }

  lemma ListBroadcast(routes: seq<SinkRoute>, broadcast: seq<nat>, direct: map<SourceId, seq<nat>>,
                      merges: map<set<SourceId>, seq<nat>>, sources: set<SourceId>)
    requires Listed(routes, broadcast, direct, merges) && AllKnown(routes, sources)
    ensures Listed(routes + [Broadcast], broadcast + [|routes|], direct, merges)
    ensures AllKnown(routes + [Broadcast], sources)
  {
    IndicesAppendAll(routes, Broadcast);
    hide Indices;
  }

  lemma ListSingle(routes: seq<SinkRoute>, broadcast: seq<nat>, direct: map<SourceId, seq<nat>>,
                   merges: map<set<SourceId>, seq<nat>>, sources: set<SourceId>, s: SourceId)
    requires Listed(routes, broadcast, direct, merges) && AllKnown(routes, sources) && s in sources
    ensures Listed(routes + [Single(s)], broadcast, direct[s := (if s in direct then direct[s] else []) +
        [|routes|]], merges)
    ensures AllKnown(routes + [Single(s)], sources)
  {
    IndicesAppendAll(routes, Single(s));
    hide Indices;
  }

  lemma ListMerged(routes: seq<SinkRoute>, broadcast: seq<nat>, direct: map<SourceId, seq<nat>>,
                   merges: map<set<SourceId>, seq<nat>>, sources: set<SourceId>, k: set<SourceId>)
    requires Listed(routes, broadcast, direct, merges) && AllKnown(routes, sources) && k <= sources
    ensures Listed(routes + [Merged(k)], broadcast, direct, merges[k := (if k in merges then merges[k] else []) +
        [|routes|]])
    ensures AllKnown(routes + [Merged(k)], sources)
  {
    IndicesAppendAll(routes, Merged(k));
    hide Indices;
  }

  /** `HashMap::into_values`: the groups in any order. */
  method IntoValues(routes: seq<SinkRoute>, ghost broadcast: seq<nat>, ghost direct: map<SourceId, seq<nat>>,
                    merges: map<set<SourceId>, seq<nat>>) returns (groups: seq<seq<nat>>)
    requires Listed(routes, broadcast, direct, merges)
    ensures IsTable(routes, RoutingTable(direct, broadcast, groups))
  {
    hide *;
    groups := [];
    ghost var keys: seq<set<SourceId>> := [];
    var left := merges.Keys;
    while left != {}
      invariant |keys| == |groups| && left <= merges.Keys
      invariant forall g :: 0 <= g < |keys| ==> keys[g] in merges && keys[g] !in left && groups[g] == merges[keys[g]]
      invariant forall g, h :: 0 <= g < h < |keys| ==> keys[g] != keys[h]
      invariant forall k :: k in merges ==> k in left || k in keys
      decreases |left|
    {
      var k :| k in left;
      groups := groups + [merges[k]];
      keys := keys + [k];
      left := left - {k};
    }
    GroupsOfAll(routes, broadcast, direct, merges, groups, keys);
  }

  lemma GroupsOfAll(routes: seq<SinkRoute>, broadcast: seq<nat>, direct: map<SourceId, seq<nat>>,
                    merges: map<set<SourceId>, seq<nat>>, groups: seq<seq<nat>>, keys: seq<set<SourceId>>)
    requires Listed(routes, broadcast, direct, merges) && |keys| == |groups|
    requires forall g :: 0 <= g < |keys| ==> keys[g] in merges && groups[g] == merges[keys[g]]
    requires forall g, h :: 0 <= g < h < |keys| ==> keys[g] != keys[h]
    requires forall k :: k in merges ==> k in keys
    ensures IsTable(routes, RoutingTable(direct, broadcast, groups))
  {
    hide Indices;
    forall i | 0 <= i < |routes| && routes[i].Merged?
      ensures routes[i].sources in keys
    {
      IndicesSpec(routes, Merged(routes[i].sources));
      assert i in Indices(routes, Merged(routes[i].sources));
    }
    assert IsGroups(routes, groups, keys);
  }

  lemma IndicesAppendAll(routes: seq<SinkRoute>, route: SinkRoute)
    ensures forall r :: Indices(routes + [route], r) == Indices(routes, r) + if route == r then [|routes|] else []
  {
    assert (routes + [route])[..|routes|] == routes;
  }

  // ---------- what the table says ----------

  /** A list of sinks holds precisely the sinks with that route, each once. */
  lemma {:induction false} IndicesSpec(routes: seq<SinkRoute>, r: SinkRoute)
    ensures forall i {:trigger i in Indices(routes, r)} ::
              i in Indices(routes, r) <==> 0 <= i < |routes| && routes[i] == r
    ensures forall a, b :: 0 <= a < b < |Indices(routes, r)| ==> Indices(routes, r)[a] < Indices(routes, r)[b]
  {
    if routes != [] {
      var init := Indices(routes[..|routes| - 1], r);
      IndicesSpec(routes[..|routes| - 1], r);
      assert forall a :: 0 <= a < |init| ==> init[a] in init;
    }
  }

  function Flatten(groups: seq<seq<nat>>): seq<nat>
  {
    if groups == [] then [] else Flatten(groups[..|groups| - 1]) + groups[|groups| - 1]
  }

  ghost predicate Once(list: seq<nat>)
  {
    forall a, b :: 0 <= a < b < |list| ==> list[a] != list[b]
  }

  /** A chunk from `s` goes directly, and once, to precisely the unmerged sinks that want `s`. */
  lemma DirectTargets(routes: seq<SinkRoute>, t: RoutingTable, s: SourceId)
    requires IsTable(routes, t)
    ensures Once(t.broadcast + t.DirectSinks(s))
    ensures forall i {:trigger i in t.broadcast + t.DirectSinks(s)} :: i in t.broadcast + t.DirectSinks(s) <==>
              0 <= i < |routes| && !routes[i].Merged? && routes[i].WantsSource(s)
  {
    hide Indices;
    IndicesSpec(routes, Broadcast);
    IndicesSpec(routes, Single(s));
    var a, b := Indices(routes, Broadcast), Indices(routes, Single(s));
    assert forall i :: 0 <= i < |a| ==> a[i] in a;
    assert forall i :: 0 <= i < |b| ==> b[i] in b;
  }

  lemma {:induction false} FlattenGroups(routes: seq<SinkRoute>, groups: seq<seq<nat>>, keys: seq<set<SourceId>>)
    requires |keys| == |groups| && forall g, h :: 0 <= g < h < |keys| ==> keys[g] != keys[h]
    requires forall g :: 0 <= g < |groups| ==> groups[g] == Indices(routes, Merged(keys[g]))
    ensures Once(Flatten(groups))
    ensures forall i {:trigger i in Flatten(groups)} :: i in Flatten(groups) <==>
              0 <= i < |routes| && routes[i].Merged? && routes[i].sources in keys
  {
    hide Indices;
    if groups != [] {
      var n := |groups| - 1;
      FlattenGroups(routes, groups[..n], keys[..n]);
      IndicesSpec(routes, Merged(keys[n]));
      assert keys == keys[..n] + [keys[n]];
      JoinedOnce(Flatten(groups[..n]), groups[n]);
    }
  }

  lemma JoinedOnce(a: seq<nat>, b: seq<nat>)
    requires Once(a) && (forall x, y :: 0 <= x < y < |b| ==> b[x] < b[y]) && forall i :: i in a ==> i !in b
    ensures Once(a + b)
  {
    assert forall i :: 0 <= i < |a| ==> a[i] in a;
    assert forall i :: 0 <= i < |b| ==> b[i] in b;
  }

  /** A merged chunk goes once to every merged sink, through whichever group it is in. */
  lemma MergedTargets(routes: seq<SinkRoute>, t: RoutingTable)
    requires IsTable(routes, t)
    ensures Once(Flatten(t.mergeGroups))
    ensures forall i {:trigger i in Flatten(t.mergeGroups)} ::
              i in Flatten(t.mergeGroups) <==> 0 <= i < |routes| && routes[i].Merged?
  {
    hide Indices, Flatten;
    var keys :| IsGroups(routes, t.mergeGroups, keys);
    FlattenGroups(routes, t.mergeGroups, keys);
  }

  /** The merge groups are the classes of equal source sets. */
  lemma GroupsAreClasses(routes: seq<SinkRoute>, t: RoutingTable, i: nat, j: nat)
    requires IsTable(routes, t) && i < |routes| && j < |routes| && routes[i].Merged? && routes[j].Merged?
    ensures (exists g :: 0 <= g < |t.mergeGroups| && i in t.mergeGroups[g] && j in t.mergeGroups[g]) <==>
            routes[i].sources == routes[j].sources
  {
    hide Indices;
    var keys :| IsGroups(routes, t.mergeGroups, keys);
    forall g | 0 <= g < |keys|
      ensures forall x: nat :: x in t.mergeGroups[g] <==> x < |routes| && routes[x] == Merged(keys[g])
    {
      IndicesSpec(routes, Merged(keys[g]));
    }
    var g :| 0 <= g < |keys| && keys[g] == routes[i].sources;
  }

  lemma TableHasMergeRoutesIff(routes: seq<SinkRoute>, t: RoutingTable)
    requires IsTable(routes, t)
    ensures t.HasMergeRoutes() <==> exists i :: 0 <= i < |routes| && routes[i].Merged?
  {
    hide Indices;
    var keys :| IsGroups(routes, t.mergeGroups, keys);
    if t.HasMergeRoutes() {
      IndicesSpec(routes, Merged(keys[0]));
      assert t.mergeGroups[0][0] in t.mergeGroups[0];
    }
  }
}
