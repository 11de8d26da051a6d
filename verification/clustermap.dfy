/** The cluster registry: a snapshot mapping cluster IDs to their identity
    records, rebuilt from `kubecost_cluster_info` query rows plus the local
    cluster's own identity, and the read-only queries answered from it.
    The snapshot is plain state; each refresh is a pure transition. */
module ClusterMap {
  import opened Wrappers
  import Text

  /** One cluster's identity. `id` identifies it; `name` may be empty. */
  datatype ClusterInfo = ClusterInfo(
    id: string,
    name: string,
    profile: string,
    provider: string,
    provisioner: string)

  /** The string labels of one query result row. */
  type Row = map<string, string>

  /** The registry: the current snapshot and whether the stop signal is still
      open (the Go field `stop` is non-nil). */
  datatype Registry = Registry(clusters: map<string, ClusterInfo>, stopOpen: bool)

  /** The registry as `NewClusterMap` creates it, before its first refresh. */
  const Initial := Registry(map[], true)

  const ClusterInfoMetric := "kubecost_cluster_info"

  /** Every entry is stored under its own ID. */
  ghost predicate KeyedById(m: map<string, ClusterInfo>) {
    forall k :: k in m ==> m[k].id == k
  }

  /** `ClusterInfo.Clone`: nil stays nil, anything else is copied field by field. */
  function Clone(ci: Option<ClusterInfo>): (r: Option<ClusterInfo>)
    ensures r.None? <==> ci.None?
    ensures ci.Some? ==>
      && r.value.id == ci.value.id
      && r.value.name == ci.value.name
      && r.value.profile == ci.value.profile
      && r.value.provider == ci.value.provider
      && r.value.provisioner == ci.value.provisioner
  {
    match ci
    case None => None
    case Some(c) => Some(ClusterInfo(c.id, c.name, c.profile, c.provider, c.provisioner))
  }

  /** `clusterInfoQuery`: the metric name followed by the backend's offset. */
  function ClusterInfoQuery(offset: string): (q: string)
    ensures Text.HasPrefix(q, ClusterInfoMetric)
    ensures q[|ClusterInfoMetric|..] == offset
  {
    ClusterInfoMetric + offset
  }

  // ---------------------------------------------------------------------
  // Parsing query rows
  // ---------------------------------------------------------------------

  /** The row carries both required labels and its `id` is `k`. */
  predicate Defines(row: Row, k: string) {
    "id" in row && "name" in row && row["id"] == k
  }

  /** The record built from a row with both required labels. */
  function RowInfo(row: Row): ClusterInfo
    requires "id" in row && "name" in row
  {
    ClusterInfo(row["id"], row["name"], Text.Lookup(row, "clusterprofile"),
                Text.Lookup(row, "provider"), Text.Lookup(row, "provisioner"))
  }

  /** Row `j` defines `k` and no later row does. */
  ghost predicate LastDefinitionAt(rows: seq<Row>, k: string, j: int) {
    && 0 <= j < |rows|
    && Defines(rows[j], k)
    && forall j' :: j < j' < |rows| ==> !Defines(rows[j'], k)
  }

  /** The row loop of `loadClusters`: rows lacking `id` or `name` are skipped
      and a later row with the same ID replaces an earlier one. */
  function ParseRows(rows: seq<Row>): (m: map<string, ClusterInfo>)
    ensures KeyedById(m)
    ensures |m| <= |rows|
    decreases |rows|
  {
    if |rows| == 0 then map[]
    else
      var row := rows[|rows| - 1];
      var m := ParseRows(rows[..|rows| - 1]);
      if "id" in row && "name" in row then m[row["id"] := RowInfo(row)] else m
  }

  /** A parsed map has an entry for `k` exactly when some row defines `k`,
      and that entry is built from the last such row. */
  lemma {:induction false} ParseRowsEntry(rows: seq<Row>, k: string)
    ensures k in ParseRows(rows) <==> exists i :: 0 <= i < |rows| && Defines(rows[i], k)
    ensures k in ParseRows(rows) ==>
      exists j :: LastDefinitionAt(rows, k, j) && ParseRows(rows)[k] == RowInfo(rows[j])
    decreases |rows|
  {
    if |rows| > 0 {
      var n := |rows| - 1;
      var init := rows[..n];
      var m := ParseRows(init);
      ParseRowsEntry(init, k);
      assert forall i :: 0 <= i < n ==> init[i] == rows[i];
      if Defines(rows[n], k) {
        assert LastDefinitionAt(rows, k, n);
      } else {
        assert k in ParseRows(rows) <==> k in m;
        if k in m {
          assert ParseRows(rows)[k] == m[k];
          var j :| LastDefinitionAt(init, k, j) && m[k] == RowInfo(init[j]);
          assert LastDefinitionAt(rows, k, j);
        }
      }
    }
  }

  /** The keys of a parsed map are exactly the IDs of the rows that carry
      both required labels. */
  lemma ParseRowsKeys(rows: seq<Row>)
    ensures forall k :: k in ParseRows(rows) <==> exists i :: 0 <= i < |rows| && Defines(rows[i], k)
  {
    forall k {
      ParseRowsEntry(rows, k);
    }
  }

  /** A row missing its `id` is skipped and a valid row is kept, with the
      optional labels defaulting to "". */
  lemma ParseRowsSkipsIncompleteRow()
    ensures ParseRows([map["name" := "orphan"], map["id" := "c1", "name" := "one"]])
         == map["c1" := ClusterInfo("c1", "one", "", "", "")]
  {
    var rows := [map["name" := "orphan"], map["id" := "c1", "name" := "one"]];
    assert rows[..1] == [map["name" := "orphan"]];
    assert rows[..1][..0] == [];
  }

  /** Every parsed entry is built from the last row defining its ID. */
  lemma ParseRowsRecords(rows: seq<Row>)
    ensures forall k :: k in ParseRows(rows) ==>
      exists j :: LastDefinitionAt(rows, k, j) && ParseRows(rows)[k] == RowInfo(rows[j])
  {
    forall k | k in ParseRows(rows) {
      ParseRowsEntry(rows, k);
    }
  }

  // ---------------------------------------------------------------------
  // Local identity
  // ---------------------------------------------------------------------

  const MissingIdError := "Local Cluster Info Missing ID"
  const MissingNameError := "Local Cluster Info Missing Name"

  /** `getLocalClusterInfo`: `id` and `name` are required (ID checked first);
      `clusterProfile`, `provider` and `provisioner` default to "". */
  function LocalClusterInfo(info: map<string, string>): (r: Result<ClusterInfo, string>)
    ensures "id" !in info ==> r == Failure(MissingIdError)
    ensures "id" in info && "name" !in info ==> r == Failure(MissingNameError)
    ensures r.Success? <==> "id" in info && "name" in info
    ensures r.Success? ==>
      && r.value.id == info["id"]
      && r.value.name == info["name"]
      && r.value.profile == (if "clusterProfile" in info then info["clusterProfile"] else "")
      && r.value.provider == (if "provider" in info then info["provider"] else "")
      && r.value.provisioner == (if "provisioner" in info then info["provisioner"] else "")
  {
    if "id" !in info then Failure(MissingIdError)
    else if "name" !in info then Failure(MissingNameError)
    else Success(ClusterInfo(info["id"], info["name"], Text.Lookup(info, "clusterProfile"),
                             Text.Lookup(info, "provider"), Text.Lookup(info, "provisioner")))
  }

  /** The local fill-in of `loadClusters`: only when the local cluster ID is
      not a key is the local lookup consulted; a successful lookup stores its
      record under the looked-up ID, which need not be the local ID. */
  function WithLocalCluster(clusters: map<string, ClusterInfo>, localID: string,
                            localInfo: map<string, string>): (m: map<string, ClusterInfo>)
    ensures localID in clusters ==> m == clusters
    ensures LocalClusterInfo(localInfo).Failure? ==> m == clusters
    ensures localID !in clusters && LocalClusterInfo(localInfo).Success? ==>
      var info := LocalClusterInfo(localInfo).value;
      && m.Keys == clusters.Keys + {info.id}
      && m[info.id] == info
      && forall k :: k in clusters && k != info.id ==> m[k] == clusters[k]
  {
    if localID in clusters then clusters
    else
      match LocalClusterInfo(localInfo)
      case Failure(_) => clusters
      case Success(info) => clusters[info.id := info]
  }

  /** The local fill-in happens: no row defines the local ID and the local
      lookup succeeds. */
  ghost predicate FillsIn(rows: seq<Row>, localID: string, localInfo: map<string, string>) {
    && (forall i :: 0 <= i < |rows| ==> !Defines(rows[i], localID))
    && LocalClusterInfo(localInfo).Success?
  }

  /** `loadClusters` after the query: `None` when the query failed for good,
      otherwise the parsed rows with the local cluster filled in. */
  function LoadClusters(queried: Option<seq<Row>>, localID: string,
                        localInfo: map<string, string>): (r: Option<map<string, ClusterInfo>>)
    ensures r.None? <==> queried.None?
    ensures r.Some? ==> KeyedById(r.value)
    ensures r.Some? ==>
      forall i :: 0 <= i < |queried.value| && "id" in queried.value[i] && "name" in queried.value[i] ==>
        queried.value[i]["id"] in r.value
    ensures r.Some? ==> forall k :: k in r.value ==>
      || (exists i :: 0 <= i < |queried.value| && Defines(queried.value[i], k))
      || (LocalClusterInfo(localInfo).Success? && k == LocalClusterInfo(localInfo).value.id)
    ensures r.Some? && FillsIn(queried.value, localID, localInfo) ==>
      var info := LocalClusterInfo(localInfo).value;
      info.id in r.value && r.value[info.id] == info
    ensures r.Some? ==> forall k :: k in r.value ==>
      (FillsIn(queried.value, localID, localInfo) && k == LocalClusterInfo(localInfo).value.id)
      || exists j :: LastDefinitionAt(queried.value, k, j) && r.value[k] == RowInfo(queried.value[j])
    ensures r.Some? && LocalClusterInfo(localInfo).Success? && LocalClusterInfo(localInfo).value.id == localID
            ==> localID in r.value
  {
    match queried
    case None => None
    case Some(rows) =>
      var parsed := ParseRows(rows);
      ParseRowsKeys(rows);
      ParseRowsRecords(rows);
      assert forall i :: 0 <= i < |rows| && "id" in rows[i] && "name" in rows[i] ==> Defines(rows[i], rows[i]["id"]);
      assert localID !in parsed <==> forall i :: 0 <= i < |rows| ==> !Defines(rows[i], localID);
      Some(WithLocalCluster(parsed, localID, localInfo))
  }

  /** `refreshClusters`: a failed load keeps the previous snapshot; a
      successful one replaces it whole. */
  function RefreshClusters(s: Registry, queried: Option<seq<Row>>, localID: string,
                           localInfo: map<string, string>): (s': Registry)
    ensures queried.None? ==> s' == s
    ensures queried.Some? ==> s'.clusters == LoadClusters(queried, localID, localInfo).value
    ensures s'.stopOpen == s.stopOpen
  {
    match LoadClusters(queried, localID, localInfo)
    case None => s
    case Some(updated) => s.(clusters := updated)
  }

  /** Every refresh keeps every snapshot entry under its own ID. */
  lemma RefreshKeepsKeyedById(s: Registry, queried: Option<seq<Row>>, localID: string,
                              localInfo: map<string, string>)
    requires KeyedById(s.clusters)
    ensures KeyedById(RefreshClusters(s, queried, localID, localInfo).clusters)
  {
  }

  /** The registry after a sequence of refreshes, each given by its query
      outcome, the local cluster ID and the local identity map. */
  function Refreshes(s: Registry, loads: seq<(Option<seq<Row>>, string, map<string, string>)>): Registry
    decreases |loads|
  {
    if |loads| == 0 then s
    else Refreshes(RefreshClusters(s, loads[0].0, loads[0].1, loads[0].2), loads[1..])
  }

  /** From a new registry, any run of refreshes keeps every entry under its
      own ID and the stop signal open. */
  lemma {:induction false} RefreshesFromInitial(loads: seq<(Option<seq<Row>>, string, map<string, string>)>)
    ensures KeyedById(Refreshes(Initial, loads).clusters)
    ensures Refreshes(Initial, loads).stopOpen
  {
    RefreshesKeep(Initial, loads);
  }

  lemma {:induction false} RefreshesKeep(s: Registry, loads: seq<(Option<seq<Row>>, string, map<string, string>)>)
    requires KeyedById(s.clusters)
    ensures KeyedById(Refreshes(s, loads).clusters)
    ensures Refreshes(s, loads).stopOpen == s.stopOpen
    decreases |loads|
  {
    if |loads| > 0 {
      var s1 := RefreshClusters(s, loads[0].0, loads[0].1, loads[0].2);
      RefreshKeepsKeyedById(s, loads[0].0, loads[0].1, loads[0].2);
      RefreshesKeep(s1, loads[1..]);
    }
  }

  // ---------------------------------------------------------------------
  // Read queries
  // ---------------------------------------------------------------------

  /** `GetClusterIDs`: every snapshot key exactly once, in map iteration order. */
  method GetClusterIDs(s: Registry) returns (ids: seq<string>)
    ensures |ids| == |s.clusters|
    ensures forall i :: 0 <= i < |ids| ==> ids[i] in s.clusters
    ensures forall k :: k in s.clusters ==> k in ids
    ensures forall i, j :: 0 <= i < j < |ids| ==> ids[i] != ids[j]
  {
    ids := [];
    var remaining := s.clusters.Keys;
    while remaining != {}
      invariant remaining <= s.clusters.Keys
      invariant forall i :: 0 <= i < |ids| ==> ids[i] in s.clusters && ids[i] !in remaining
      invariant forall k :: k in s.clusters ==> k in ids || k in remaining
      invariant forall i, j :: 0 <= i < j < |ids| ==> ids[i] != ids[j]
      invariant |ids| + |remaining| == |s.clusters.Keys|
      decreases |remaining|
    {
      var id :| id in remaining;
      ids := ids + [id];
      remaining := remaining - {id};
    }
    assert |s.clusters.Keys| == |s.clusters|;
  }

  /** `AsMap`: a fresh map holding a clone of every snapshot record. */
  function AsMap(s: Registry): (m: map<string, ClusterInfo>)
    ensures m.Keys == s.clusters.Keys
    ensures forall k :: k in m ==> m[k] == s.clusters[k]
  {
    map k | k in s.clusters :: Clone(Some(s.clusters[k])).value
  }

  /** `InfoFor`: a clone of the record, or nil for an unknown ID. */
  function InfoFor(s: Registry, clusterID: string): (r: Option<ClusterInfo>)
    ensures r.Some? <==> clusterID in s.clusters
    ensures r.Some? ==> r.value == s.clusters[clusterID]
  {
    if clusterID in s.clusters then Clone(Some(s.clusters[clusterID])) else None
  }

  /** `NameFor`: the cluster's name, or "" for an unknown ID. */
  function NameFor(s: Registry, clusterID: string): (name: string)
    ensures clusterID !in s.clusters ==> name == ""
    ensures clusterID in s.clusters ==> name == s.clusters[clusterID].name
  {
    if clusterID in s.clusters then s.clusters[clusterID].name else ""
  }

  /** `NameIDFor`: `<name>/<id>` for a known, named cluster, else the bare ID. */
  function NameIDFor(s: Registry, clusterID: string): (nameID: string)
    ensures NameFor(s, clusterID) == "" ==> nameID == clusterID
    ensures NameFor(s, clusterID) != "" ==> nameID == NameFor(s, clusterID) + "/" + clusterID
  {
    if clusterID in s.clusters then
      if s.clusters[clusterID].name == "" then clusterID
      else s.clusters[clusterID].name + "/" + clusterID
    else clusterID
  }

  /** `SplitNameID`, returning `(id, name)`: without a `/` the whole text is
      the ID; otherwise the name is what precedes the first `/` and the ID is
      the segment between the first and the second `/` (`strings.Split`'s
      second piece), so anything after a second `/` is dropped. */
  function SplitNameID(nameID: string): (r: (string, string))
    ensures '/' !in nameID ==> r == (nameID, "")
    ensures '/' in nameID ==>
      var i := Text.IndexOf(nameID, '/');
      && r.1 == nameID[..i]
      && '/' !in r.0
      && Text.HasPrefix(nameID[i + 1..], r.0)
      && (|r.0| == |nameID| - i - 1 || nameID[i + 1 + |r.0|] == '/')
  {
    Text.ContainsChar(nameID, '/');
    if !Text.Contains(nameID, "/") then (nameID, "")
    else
      var split := Text.Split(nameID, '/');
      SplitTwoPieces(nameID, '/');
      (split[1], split[0])
  }

  /** The first two pieces of `Split` in terms of the first two separators. */
  lemma SplitTwoPieces(s: string, sep: char)
    requires sep in s
    ensures
      var i := Text.IndexOf(s, sep);
      var parts := Text.Split(s, sep);
      && parts[0] == s[..i]
      && Text.HasPrefix(s[i + 1..], parts[1])
      && (|parts[1]| == |s| - i - 1 || s[i + 1 + |parts[1]|] == sep)
  {
    var i := Text.IndexOf(s, sep);
    var rest := s[i + 1..];
    var parts := Text.Split(s, sep);
    assert parts == [s[..i]] + Text.Split(rest, sep);
    var tail := Text.Split(rest, sep);
    assert parts[1] == tail[0];
    if |tail| == 1 {
      assert tail[0] == rest;
    } else {
      assert rest == tail[0] + [sep] + Text.Join(tail[1..], sep);
      assert rest[..|tail[0]|] == tail[0];
      assert rest[|tail[0]|] == sep;
    }
  }

  /** Encoding with `NameIDFor` and decoding with `SplitNameID` give back the
      ID and its name, provided neither contains a `/`. */
  lemma {:induction false} SplitNameIDRoundTrip(s: Registry, clusterID: string)
    requires '/' !in clusterID
    requires '/' !in NameFor(s, clusterID)
    ensures SplitNameID(NameIDFor(s, clusterID)) == (clusterID, NameFor(s, clusterID))
  {
    var name := NameFor(s, clusterID);
    Text.ContainsChar(clusterID, '/');
    if name != "" {
      var nameID := NameIDFor(s, clusterID);
      assert nameID == Text.Join([name, clusterID], '/');
      Text.SplitJoin([name, clusterID], '/');
      Text.ContainsChar(nameID, '/');
      assert nameID[|name|] == '/';
    }
  }

  /** A name holding a `/` breaks the round trip: cluster `c` named `a/b`
      is encoded `a/b/c` and decoded as ID `b` with name `a`. */
  lemma NameWithSlashBreaksRoundTrip()
    ensures
      var s := Registry(map["c" := ClusterInfo("c", "a/b", "", "", "")], true);
      && NameIDFor(s, "c") == "a/b/c"
      && SplitNameID(NameIDFor(s, "c")) == ("b", "a")
  {
    var s := Registry(map["c" := ClusterInfo("c", "a/b", "", "", "")], true);
    var nameID := NameIDFor(s, "c");
    assert nameID == "a/b/c";
    assert nameID == Text.Join(["a", "b", "c"], '/');
    Text.SplitJoin(["a", "b", "c"], '/');
    Text.ContainsChar(nameID, '/');
    assert nameID[1] == '/';
  }

  // ---------------------------------------------------------------------
  // Stopping the refresh
  // ---------------------------------------------------------------------

  /** `StopRefresh`: closes the stop signal if it is still open and forgets
      it. The flag in the result says whether this call closed it. */
  function StopRefresh(s: Registry): (r: (Registry, bool))
    ensures r.1 <==> s.stopOpen
    ensures !r.0.stopOpen
    ensures r.0.clusters == s.clusters
  {
    if s.stopOpen then (s.(stopOpen := false), true) else (s, false)
  }

  /** The registry after `n` calls of `StopRefresh` and how many of them
      closed the stop signal. */
  function StopRepeatedly(s: Registry, n: nat): (Registry, nat)
    decreases n
  {
    if n == 0 then (s, 0)
    else
      var (s1, closed) := StopRefresh(s);
      var (s2, count) := StopRepeatedly(s1, n - 1);
      (s2, count + if closed then 1 else 0)
  }

  /** However often `StopRefresh` is called, the signal is closed at most
      once: exactly once when it was open and there was at least one call. */
  lemma {:induction false} StopClosesAtMostOnce(s: Registry, n: nat)
    ensures StopRepeatedly(s, n).1 <= 1
    ensures StopRepeatedly(s, n).1 == 1 <==> s.stopOpen && n > 0
    ensures StopRepeatedly(s, n).0.clusters == s.clusters
    decreases n
  {
    if n > 0 {
      var s1 := StopRefresh(s).0;
      StopClosesAtMostOnce(s1, n - 1);
    }
  }
}
