/** How the custom provider's reported identity would behave if it served
    as the registry's local cluster information. The registry only sees a
    `LocalClusterInfoProvider` whose `GetClusterInfo` returns a string map;
    these lemmas assume that map is exactly the one the custom provider's
    `ClusterInfo` returns, passed on unchanged. */
module LocalIdentity {
  import opened Wrappers
  import ClusterMap
  import CustomProvider

  /** The custom provider's identity map passes the local lookup exactly
      when a cluster name is configured; the record then carries the
      process's cluster ID, provider `custom` and empty profile and
      provisioner (its map has no `clusterProfile` or `provisioner` key). */
  lemma CustomProviderLocalIdentity(c: CustomProvider.CustomPricing, clusterID: string)
    ensures
      var info := CustomProvider.ClusterInfo(Success(c), clusterID).value;
      var local := ClusterMap.LocalClusterInfo(info);
      && (local.Success? <==> c.clusterName != "")
      && (local.Failure? ==> local.error == ClusterMap.MissingNameError)
      && (local.Success? ==> local.value == ClusterMap.ClusterInfo(clusterID, c.clusterName, "", "custom", ""))
  {
    var info := CustomProvider.ClusterInfo(Success(c), clusterID).value;
    assert "clusterProfile" !in info && "provisioner" !in info;
  }

  /** Consequently a cluster without a configured name is missing from its
      own registry after a refresh, unless some query row reports it. */
  lemma UnnamedCustomClusterNotFilledIn(s: ClusterMap.Registry, rows: seq<ClusterMap.Row>,
                                        c: CustomProvider.CustomPricing, clusterID: string)
    requires c.clusterName == ""
    requires forall i :: 0 <= i < |rows| ==> !ClusterMap.Defines(rows[i], clusterID)
    ensures
      var info := CustomProvider.ClusterInfo(Success(c), clusterID).value;
      clusterID !in ClusterMap.RefreshClusters(s, Some(rows), clusterID, info).clusters
  {
    var info := CustomProvider.ClusterInfo(Success(c), clusterID).value;
    CustomProviderLocalIdentity(c, clusterID);
    ClusterMap.ParseRowsEntry(rows, clusterID);
  }

  /** A named one is always present afterwards, whatever the rows say. */
  lemma NamedCustomClusterPresent(s: ClusterMap.Registry, rows: seq<ClusterMap.Row>,
                                  c: CustomProvider.CustomPricing, clusterID: string)
    requires c.clusterName != ""
    ensures
      var info := CustomProvider.ClusterInfo(Success(c), clusterID).value;
      clusterID in ClusterMap.RefreshClusters(s, Some(rows), clusterID, info).clusters
  {
    CustomProviderLocalIdentity(c, clusterID);
  }
}
