# Cluster registry, custom pricing and resource-name helpers of the Kubernetes cost model

This Dafny project models three sequential cores of a Kubernetes cost-observability service:

- **Cluster registry** (`ClusterMap`, `clustermap.dfy`). It holds a snapshot that maps cluster IDs to `ClusterInfo` records.
  - The snapshot is rebuilt from `kubecost_cluster_info` query rows, and the local cluster's own identity is filled in when the rows lack it.
  - The read queries are `GetClusterIDs`, `AsMap`, `InfoFor`, `NameFor`, `NameIDFor` and `SplitNameID`.
  - `StopRefresh` is a close-once stop flag.
  - The registry is an immutable `Registry` value, and a refresh is a pure transition on it.
- **Custom pricing provider** (`CustomProvider`, `customprovider.dfy`). It covers:
  - the rate table keyed by feature tag (`default`, `default,spot`, `default,gpu`);
  - the node pricing key (`Features`, `GPUType`, `ID`) and price resolution;
  - the all-or-nothing configuration update that triggers a rebuild;
  - the volume price, the network and tiered load-balancer formulas, the compounding discount, and the provider's reported cluster identity.
- **Kubernetes metrics helpers** (`KubeMetrics`, `kubemetrics.dfy`). These are the storage class of a volume claim, the resource-name predicates (native, extended, huge-page, attachable-volume), the resource→unit decision table, and the job-condition reason test.

Supporting modules:

- `Wrappers` has `Option` and `Result`.
- `Text` models the Go `strings` functions the code relies on: `HasPrefix`, `Contains`, `Split` (with `Join` as its inverse) and `Title`.
- `LocalIdentity` connects the custom provider's reported identity to the registry's local fill-in. It assumes the registry's `LocalClusterInfoProvider.GetClusterInfo` returns the map `CustomProvider.ClusterInfo` builds, unchanged; the code that would wire the two together is not part of this model.

Foreign code enters as parameters:

- `strconv.ParseFloat` is a `string -> Option<real>`.
- `SetCustomPricingField` is a setter returning a `Result`.
- `prom.SanitizeLabelName` and `validation.IsQualifiedName` are total functions.
- The outcome of the Prometheus query is an `Option<seq<Row>>`.
- `env.GetClusterID()` is a string argument.
- The configuration read by `GetCustomPricingData` is a `Result<CustomPricing, string>`.

Behaviour of the code that the model keeps exactly:

- `SplitNameID` takes as ID the segment between the first and second `/` (`strings.Split(...)[1]`). So `n/a/b` decodes to ID `a`, and anything after a second `/` is dropped.
- `DownloadPricingData` overwrites only the three feature tags. Other entries of an existing table survive the rebuild.
- In `NodePricing`, a spot node with a GPU resolves to `default,spot,gpu` whenever `default,spot` exists. No rebuild writes that tag, and the code then dereferences a nil entry. The model returns a failure for it. `CustomProvider.NodePricingAfterDownload` states exactly which nodes fail after a rebuild. `CustomProvider.RunFromInitialSpotGpuFails` shows that rebuilds and updates never let a spot node with a GPU be priced. `CustomProvider.SpotGpuFallsBackWithoutSpotEntry` shows a table shape where such a node is priced; that shape arises only when other code writes the exported `Pricing` field directly.
- Query rows carry the profile under `clusterprofile`, while the local identity map uses `clusterProfile`. Both spellings are kept.

## Model

| member | source | states |
|---|---|---|
| `ClusterMap.Clone` | pkg/costmodel/clusters/clustermap.go:33-45 | nil clones to nil; otherwise the copy agrees with the original on all five fields |
| `ClusterMap.ClusterInfoQuery` | pkg/costmodel/clusters/clustermap.go:121-123 | the query is `kubecost_cluster_info` followed by exactly the offset |
| `ClusterMap.ParseRows` | pkg/costmodel/clusters/clustermap.go:150-185 | every parsed record is stored under its own ID, and there are no more records than rows |
| `ClusterMap.ParseRowsEntry` | pkg/costmodel/clusters/clustermap.go:150-185 | an ID is a key iff some row has both `id` and `name` with that `id`; its record is built from the last such row, with missing optional labels as "" |
| `ClusterMap.ParseRowsKeys` | pkg/costmodel/clusters/clustermap.go:150-185 | the parsed keys are exactly the IDs of rows that carry both required labels |
| `ClusterMap.ParseRowsRecords` | pkg/costmodel/clusters/clustermap.go:150-185 | every parsed record equals the record built from the last row that defines its ID |
| `ClusterMap.ParseRowsSkipsIncompleteRow` | pkg/costmodel/clusters/clustermap.go:150-185 | a row without `id` is skipped and the valid row alone is kept, with optional fields "" |
| `ClusterMap.LocalClusterInfo` | pkg/costmodel/clusters/clustermap.go:202-240 | the lookup fails iff `id` or `name` is missing, and a missing ID is reported first; on success the fields come from `id`, `name`, `clusterProfile`, `provider`, `provisioner`, each defaulting to "" |
| `ClusterMap.WithLocalCluster` | pkg/costmodel/clusters/clustermap.go:188-196 | if the local ID is already a key, or the lookup fails, the map is unchanged; otherwise the looked-up ID (not necessarily the local ID) is added or overwritten and nothing else changes |
| `ClusterMap.LoadClusters` | pkg/costmodel/clusters/clustermap.go:142-198 | fails iff the query failed; the result is keyed by ID, holds every complete row's ID, holds nothing beyond row IDs and the looked-up local ID, and holds the local ID when the lookup yields it; when no row defines the local ID and the lookup succeeds, the looked-up record is stored under its ID; every other record is the one built from the last row defining its ID |
| `ClusterMap.RefreshClusters` | pkg/costmodel/clusters/clustermap.go:243-253 | a failed load leaves the registry identical; a successful one replaces the snapshot with the loaded map exactly; the stop flag is untouched |
| `ClusterMap.RefreshKeepsKeyedById` | pkg/costmodel/clusters/clustermap.go:243-253 | refreshing keeps every snapshot record stored under its own ID |
| `ClusterMap.RefreshesFromInitial` | pkg/costmodel/clusters/clustermap.go:88-97 | from a new registry, any sequence of refreshes keeps every record under its own ID and the stop signal open |
| `ClusterMap.RefreshesKeep` | pkg/costmodel/clusters/clustermap.go:243-253 | any sequence of refreshes preserves the keyed-by-ID invariant and leaves the stop flag as it was |
| `ClusterMap.GetClusterIDs` | pkg/costmodel/clusters/clustermap.go:256-266 | lists every snapshot key exactly once and nothing else |
| `ClusterMap.AsMap` | pkg/costmodel/clusters/clustermap.go:269-279 | has exactly the snapshot's keys, each with a field-equal record |
| `ClusterMap.InfoFor` | pkg/costmodel/clusters/clustermap.go:283-292 | nil iff the ID is unknown, else a field-equal copy of its record |
| `ClusterMap.NameFor` | pkg/costmodel/clusters/clustermap.go:295-304 | "" for an unknown ID, else the stored name |
| `ClusterMap.NameIDFor` | pkg/costmodel/clusters/clustermap.go:308-321 | the bare ID when `NameFor` is empty (unknown or unnamed cluster), else `name/id` |
| `ClusterMap.SplitNameID` | pkg/costmodel/clusters/clustermap.go:323-334 | without `/` the result is `(nameID, "")`; otherwise the name is the text before the first `/` and the ID is the `/`-free segment right after it, ending at the next `/` or the end |
| `ClusterMap.SplitNameIDRoundTrip` | pkg/costmodel/clusters/clustermap.go:308-334 | `SplitNameID(NameIDFor(c)) == (c, NameFor(c))` whenever neither `c` nor its name contains `/` |
| `ClusterMap.NameWithSlashBreaksRoundTrip` | pkg/costmodel/clusters/clustermap.go:308-334 | cluster `c` named `a/b` encodes to `a/b/c` and decodes to ID `b`, name `a`, so the round trip needs its precondition |
| `ClusterMap.StopRefresh` | pkg/costmodel/clusters/clustermap.go:337-342 | closes the signal iff it was open; afterwards it is closed; the snapshot is untouched |
| `ClusterMap.StopClosesAtMostOnce` | pkg/costmodel/clusters/clustermap.go:337-342 | over any number of calls the signal is closed at most once, and exactly once iff it was open and there was a call |
| `Text.Lookup` | pkg/cloud/customprovider.go:292 | a Go map read: the value under the key, or "" when the key is missing |
| `Text.HasPrefix` | pkg/metrics/kubemetrics.go:164-171 | `strings.HasPrefix` holds iff the string is the prefix followed by some rest |
| `Text.Contains` | pkg/metrics/kubemetrics.go:187-193 | `strings.Contains` holds for the empty substring and never for one longer than the string |
| `Text.ContainsIffOccurs` | pkg/metrics/kubemetrics.go:188-192 | `strings.Contains` holds iff the substring occurs at some position |
| `Text.Split` | pkg/costmodel/clusters/clustermap.go:330 | `strings.Split` on one character gives `/`-free pieces, at least two iff the separator occurs, and joining them gives back the input |
| `Text.SplitJoin` | pkg/costmodel/clusters/clustermap.go:330 | splitting undoes joining for separator-free pieces |
| `Text.Title` | pkg/cloud/customprovider.go:78 | each character is title-cased exactly when the original character before it (or the start) is a word separator; the length is kept |
| `Text.TitleIdempotent` | pkg/cloud/customprovider.go:78 | capitalising a key twice equals capitalising it once |
| `Text.TitleOfWord` | pkg/cloud/customprovider.go:78 | a key without separators has only its first letter capitalised (`spotLabel` → `SpotLabel`) |
| `CustomProvider.DownloadPricingData` | pkg/cloud/customprovider.go:152-182 | a nil table is always created; on a fetch error labels and entries are unchanged; on success the three tags hold {CPU,RAM,""}, {SpotCPU,SpotRAM,""}, {CPU,RAM,GPU}, other entries are untouched, and the four label fields equal the configuration's |
| `CustomProvider.DownloadKeepsFeatureKeys` | pkg/cloud/customprovider.go:168-180 | rebuilds never add a tag outside the three feature tags |
| `CustomProvider.GetKey` | pkg/cloud/customprovider.go:184-192 | the key carries the provider's cached label settings and the node's labels |
| `CustomProvider.Features` | pkg/cloud/customprovider.go:291-296 | `default,spot` iff the value under the spot label is non-empty and equals the spot value, else `default` |
| `CustomProvider.GPUType` | pkg/cloud/customprovider.go:280-285 | "" when the GPU label is absent, otherwise exactly the value under it |
| `CustomProvider.ID` | pkg/cloud/customprovider.go:287-289 | the key's ID is always empty |
| `CustomProvider.NodePricing` | pkg/cloud/customprovider.go:130-150 | GPU count "1" iff the GPU type is non-empty, else ""; a non-GPU node is priced from its feature tag's entry or, if that tag is absent, from `default`; a GPU node is priced from that base tag plus `,gpu` and succeeds iff that entry exists; a missing entry is a failure |
| `CustomProvider.NodePricingAfterDownload` | pkg/cloud/customprovider.go:134-149 | given a prior table without `default,spot,gpu` (which rebuilds and updates preserve), after a successful rebuild: plain → base rates; spot → spot rates; GPU → base rates plus GPU rate with count "1"; spot+GPU → failure |
| `CustomProvider.SpotGpuFallsBackWithoutSpotEntry` | pkg/cloud/customprovider.go:134-149 | in a table without `default,spot` but with `default,gpu`, a spot node with a GPU is priced from `default,gpu` with count "1" |
| `CustomProvider.NodeLabelsPricing` | pkg/cloud/customprovider.go:130-150 | the same outcome stated on node labels: pricing fails iff the spot label matches and the GPU label is non-empty |
| `CustomProvider.ApplyUpdates` | pkg/cloud/customprovider.go:76-91 | any non-string value, or any key whose capitalised form the setter always rejects, fails the update; when every value is a string and the setter accepts every capitalised key, it succeeds |
| `CustomProvider.ApplyUpdatesAppend` | pkg/cloud/customprovider.go:77-88 | applying `a + b` is applying `a` and then, unless that failed, `b` to its result |
| `CustomProvider.ApplySingleEntry` | pkg/cloud/customprovider.go:77-83 | a one-entry update with a string value is exactly the setter called with the `strings.Title`-capitalised key |
| `CustomProvider.UpdateConfig` | pkg/cloud/customprovider.go:67-99 | a decode or update failure returns an error and leaves the provider unchanged; success returns the updated configuration after rebuilding the table from it |
| `CustomProvider.UpdateThenNodePricing` | pkg/cloud/customprovider.go:93-98 | right after a successful update, a plain node is priced at the updated configuration's CPU and RAM rates |
| `CustomProvider.UpdateKeepsFeatureKeys` | pkg/cloud/customprovider.go:67-99 | updates keep the table within the three tags, so `default,spot,gpu` stays missing |
| `CustomProvider.RunFromInitialKeepsFeatureKeys` | pkg/cloud/customprovider.go:67-99 | from the zero-valued provider, no sequence of rebuilds and updates writes a tag outside the three feature tags, so `default,spot,gpu` is never present |
| `CustomProvider.RunFromInitialSpotGpuFails` | pkg/cloud/customprovider.go:130-150 | from the zero-valued provider, after any sequence of rebuilds and updates, pricing a spot node with a GPU fails |
| `CustomProvider.RunKeepsEmptyOrComplete` | pkg/cloud/customprovider.go:152-182 | any sequence of rebuilds and updates keeps the table either empty or holding all three feature tags |
| `CustomProvider.RunKeepsFeatureKeys` | pkg/cloud/customprovider.go:67-99 | any sequence of rebuilds and updates keeps the table within the three feature tags |
| `CustomProvider.PVPricing` | pkg/cloud/customprovider.go:205-213 | fails iff the configuration fails, with its error; otherwise the volume's cost is the configured storage rate |
| `CustomProvider.NetworkPricing` | pkg/cloud/customprovider.go:215-238 | succeeds iff the configuration loads and all three egress rates parse, returning the parsed values; a fetch error is returned as is |
| `CustomProvider.LoadBalancerCost` | pkg/cloud/customprovider.go:257-265 | the tiered cost equals `first*min(n,5) + additional*max(n-5,0) + ingress*g` |
| `CustomProvider.LoadBalancerCostMonotone` | pkg/cloud/customprovider.go:261-265 | with non-negative rates, more rules never cost less |
| `CustomProvider.LoadBalancerPricing` | pkg/cloud/customprovider.go:240-269 | succeeds iff the configuration loads and all three rates parse; the cost for the hard-coded 1 rule and 0 GB is the first-five rate |
| `CustomProvider.LoadBalancerExamples` | pkg/cloud/customprovider.go:257-265 | 1 rule at $0.025 costs $0.025; 7 rules cost `5*0.025 + 2*0.010` |
| `CustomProvider.CombinedDiscountForNode` | pkg/cloud/customprovider.go:308-310 | the combined discount is `d + n - d*n`, independent of instance type and preemptibility |
| `CustomProvider.CombinedDiscountBounds` | pkg/cloud/customprovider.go:308-310 | discounts in [0,1] combine to a value between the larger of them and 1 |
| `CustomProvider.CombinedDiscountExample` | pkg/cloud/customprovider.go:308-310 | 20% and 10% combine to 28% |
| `CustomProvider.ClusterInfo` | pkg/cloud/customprovider.go:101-113 | fails iff the configuration fails; otherwise provider `custom`, the given cluster ID, and `name` present iff the configured name is non-empty |
| `LocalIdentity.CustomProviderLocalIdentity` | pkg/cloud/customprovider.go:101-113 | if the local lookup were handed the provider's identity map, it would pass iff a cluster name is configured, giving `(id, name, "", "custom", "")` |
| `LocalIdentity.UnnamedCustomClusterNotFilledIn` | pkg/costmodel/clusters/clustermap.go:188-196 | with that map as the local identity, no configured name and no row for it, the local cluster is missing after a refresh |
| `LocalIdentity.NamedCustomClusterPresent` | pkg/costmodel/clusters/clustermap.go:188-196 | with that map as the local identity and a configured name, the local cluster is present after any successful refresh |
| `KubeMetrics.PersistentVolumeClaimClass` | pkg/metrics/kubemetrics.go:106-118 | the beta annotation wins if present (even empty), else the spec's class if non-nil, else `<none>` |
| `KubeMetrics.AnnotationOverridesSpec` | pkg/metrics/kubemetrics.go:108-110 | with the annotation present, the spec's class does not matter |
| `KubeMetrics.IsHugePageResourceName` | pkg/metrics/kubemetrics.go:164-166 | true iff the name is `hugepages-` followed by some rest |
| `KubeMetrics.IsAttachableVolumeResourceName` | pkg/metrics/kubemetrics.go:169-171 | true iff the name is `attachable-volumes-` followed by some rest |
| `KubeMetrics.IsPrefixedNativeResource` | pkg/metrics/kubemetrics.go:191-193 | true iff `kubernetes.io/` occurs at some position of the name |
| `KubeMetrics.IsNativeResource` | pkg/metrics/kubemetrics.go:187-189 | native iff the name has no `/` or contains `kubernetes.io/` |
| `KubeMetrics.IsExtendedResourceName` | pkg/metrics/kubemetrics.go:174-184 | extended names contain `/`, lack `kubernetes.io/` and the `requests.` prefix; otherwise-eligible names are extended iff `requests.<name>` is qualified |
| `KubeMetrics.NativeIsNotExtended` | pkg/metrics/kubemetrics.go:174-189 | native names are never extended |
| `KubeMetrics.ToResourceUnitValue` | pkg/metrics/kubemetrics.go:122-161 | `cpu` → core with milli-value/1000; storage, ephemeral-storage, memory → byte; pods → integer; a non-empty unit comes with the sanitised name and, except for `cpu`, with the quantity's `Value()`; an empty unit comes with resource "" and value 0 |
| `KubeMetrics.FixedNamesUnprefixed` | pkg/metrics/kubemetrics.go:125-143 | the five fixed names are native and carry neither special prefix |
| `KubeMetrics.UnitTable` | pkg/metrics/kubemetrics.go:122-161 | unit core iff `cpu`; byte iff a byte-sized name or a prefixed one; integer iff `pods` or extended and unprefixed; empty iff none of these |
| `KubeMetrics.PrefixBeforeExtended` | pkg/metrics/kubemetrics.go:143-155 | every huge-page or attachable-volume name is reported as the sanitised name, unit byte and the quantity's `Value()`, even if extended |
| `KubeMetrics.ExtendedResourceValue` | pkg/metrics/kubemetrics.go:150-154 | an extended name without a special prefix is reported as the sanitised name, unit integer and the quantity's `Value()` |
| `KubeMetrics.HugePageCanBeExtended` | pkg/metrics/kubemetrics.go:143-155 | `hugepages-x/y` is both a huge-page name and, with its quota name qualified, extended, so the precedence matters |
| `KubeMetrics.FailureReason` | pkg/metrics/kubemetrics.go:195-200 | false for a nil condition; otherwise true iff the reason matches |

## Left out

- The background refresh goroutine, its ticker and the stop channel's receiver (pkg/costmodel/clusters/clustermap.go:99-115) are concurrency. The stop signal is a boolean, and all `sync.RWMutex` locking is omitted: each operation is one atomic transition.
- The Prometheus/Thanos query, `prom.IsThanos`, `thanos.QueryOffset` and `retry.Retry` (6 attempts, 10 s apart) are I/O. The query's final outcome is an `Option<seq<Row>>`. The path where the result has an unexpected type but no error is not modelled, because the query client's result type is not part of this model.
- `env.GetClusterID` and `LocalClusterInfoProvider.GetClusterInfo` are process globals or foreign calls. Their results are arguments.
- `strconv.ParseFloat` and IEEE `float64` rounding are foreign. Rates are exact `real`s from an abstract partial parser, and the parse error text is approximate.
- `CustomProvider.LoadBalancerPricing`, `CustomProvider.NetworkPricing`: `strconv.ParseFloat` also accepts "Inf", "+Inf", "-Inf" and "NaN" without error, and a `real` cannot hold those results. With an ingress rate of "Inf", the code computes `first*1 + Inf*0`, which is NaN, and returns it without error; the model instead says the cost is the first-five rate. A "NaN" egress rate likewise comes back as NaN.
- `Config.Update`, `GetCustomPricingData`, `SetCustomPricingField` and `UpdateFromMap` are not part of this model. Their bodies are unavailable, so the setter and the fetched configuration are parameters. The model assumes the configuration re-read by the rebuild after an update is the one the update returned.
- `CustomProvider.UpdateConfig`: assumes `Config.Update` fails exactly when its callback fails and otherwise returns the configuration the callback produced. A failure of `Config.Update` itself, such as an error while saving, is not modelled, so the success condition rests on that assumption.
- `LocalIdentity`: the registry's `LocalClusterInfoProvider.GetClusterInfo` is assumed to return the custom provider's `ClusterInfo` map unchanged; no such adapter is part of this model.
- JSON decoding in `UpdateConfig` is represented by its outcome: either a decode error or the entries in the order Go's map iteration visits them.
- `Text.Title`: does not model `unicode.ToTitle` for non-ASCII letters, which it leaves unchanged. Word boundaries follow Go's `isSeparator` exactly.
- `InitKubeMetrics`, `DefaultKubeMetricsOpts` and collector registration are metrics plumbing.
- `resource.Quantity` arithmetic is foreign. A quantity is its `MilliValue()` and `Value()`.
- The stub provider methods are left out: `ClusterManagementPricing`, `GetLocalStorageQuery`, `GetManagementPlatform`, `GetAddresses`, `GetDisks`, `ExternalAllocations`, `QuerySQL`, `ServiceAccountStatus`, `PricingSourceStatus`, `ApplyReservedInstancePricing`, `AllNodePricing`, `GetConfig`, `UpdateConfigFromConfigMap` and `GetPVKey`. They return constants or forward to code outside this model.
- `boolFloat64` and `toStringPtr` are trivial conversions.
- `ClusterMap.GetClusterIDs`: an empty registry yields an empty sequence, whereas Go returns a nil slice. The two are indistinguishable to callers that range over it.
- `ClusterMap.AsMap`, `ClusterMap.InfoFor`: records are immutable values, so the "independent copy" promise holds by construction. Aliasing is not modelled.
