/** The custom (generic) pricing provider: a rate table keyed by feature tag,
    rebuilt from the custom pricing configuration; node price resolution by
    label-derived tags; the configuration update; the network, load-balancer
    and discount formulas; and the cluster identity it reports.

    Rates are text in the table and `real` once parsed; the parser
    (`strconv.ParseFloat`) and the field setter (`SetCustomPricingField`)
    are parameters. */
module CustomProvider {
  import opened Wrappers
  import Text

  /** One row of the rate table. */
  datatype NodePrice = NodePrice(cpu: string, ram: string, gpu: string)

  /** The fields of the custom pricing configuration this provider reads. */
  datatype CustomPricing = CustomPricing(
    cpu: string,
    ram: string,
    gpu: string,
    spotCPU: string,
    spotRAM: string,
    zoneNetworkEgress: string,
    regionNetworkEgress: string,
    internetNetworkEgress: string,
    storage: string,
    firstFiveForwardingRulesCost: string,
    additionalForwardingRuleCost: string,
    lbIngressDataCost: string,
    spotLabel: string,
    spotLabelValue: string,
    gpuLabel: string,
    gpuLabelValue: string,
    clusterName: string)

  /** Provider state: the rate table (`None` is Go's nil map) and the cached
      spot/GPU label names and values. */
  datatype Provider = Provider(
    pricing: Option<map<string, NodePrice>>,
    spotLabel: string,
    spotLabelValue: string,
    gpuLabel: string,
    gpuLabelValue: string)

  /** A node's pricing key: the provider's label settings at key creation
      plus the node's own labels. */
  datatype Key = Key(
    spotLabel: string,
    spotLabelValue: string,
    gpuLabel: string,
    gpuLabelValue: string,
    labels: map<string, string>)

  /** The priced node handed back by `NodePricing`. */
  datatype Node = Node(vcpuCost: string, ramCost: string, gpuCost: string, gpu: string)

  datatype Network = Network(zoneEgress: real, regionEgress: real, internetEgress: real)

  datatype LoadBalancer = LoadBalancer(cost: real)

  /** The priced persistent volume handed back by `PVPricing`. */
  datatype PV = PV(cost: string)

  const DefaultKey := "default"
  const SpotKey := "default,spot"
  const GpuKey := "default,gpu"
  const GpuSuffix := ",gpu"
  /** The tag a spot node with a GPU resolves to; no rebuild ever writes it. */
  const SpotGpuKey := "default,spot,gpu"
  const FeatureKeys := {DefaultKey, SpotKey, GpuKey}

  /** The zero-valued provider, before any download. */
  const Initial := Provider(None, "", "", "", "")

  /** The rate table as reads see it: a nil map reads as empty. */
  function Table(p: Provider): map<string, NodePrice> {
    p.pricing.GetOr(map[])
  }

  /** The table holds no tags beyond the three a rebuild writes. */
  ghost predicate TableWithinFeatureKeys(p: Provider) {
    Table(p).Keys <= FeatureKeys
  }

  // ---------------------------------------------------------------------
  // Rebuilding the rate table
  // ---------------------------------------------------------------------

  /** A rebuild's result: the new state and the error it returned, if any. */
  datatype Rebuild = Rebuild(provider: Provider, err: Option<string>)

  /** `DownloadPricingData`: creates the table if absent; on a configuration
      error stops there; otherwise caches the label settings and (over)writes
      exactly the three feature tags. */
  function DownloadPricingData(p: Provider, fetched: Result<CustomPricing, string>): (r: Rebuild)
    ensures r.err.Some? <==> fetched.Failure?
    ensures r.provider.pricing.Some?
    ensures fetched.Failure? ==> r.provider == p.(pricing := Some(Table(p)))
    ensures fetched.Success? ==>
      var c := fetched.value;
      var t := Table(r.provider);
      && t.Keys == Table(p).Keys + FeatureKeys
      && t[DefaultKey] == NodePrice(c.cpu, c.ram, "")
      && t[SpotKey] == NodePrice(c.spotCPU, c.spotRAM, "")
      && t[GpuKey] == NodePrice(c.cpu, c.ram, c.gpu)
      && (forall k :: k in Table(p) && k !in FeatureKeys ==> t[k] == Table(p)[k])
      && r.provider.spotLabel == c.spotLabel
      && r.provider.spotLabelValue == c.spotLabelValue
      && r.provider.gpuLabel == c.gpuLabel
      && r.provider.gpuLabelValue == c.gpuLabelValue
  {
    var table := Table(p);
    match fetched
    case Failure(e) => Rebuild(p.(pricing := Some(table)), Some(e))
    case Success(c) =>
      var table' := table[DefaultKey := NodePrice(c.cpu, c.ram, "")]
                         [SpotKey := NodePrice(c.spotCPU, c.spotRAM, "")]
                         [GpuKey := NodePrice(c.cpu, c.ram, c.gpu)];
      Rebuild(Provider(Some(table'), c.spotLabel, c.spotLabelValue, c.gpuLabel, c.gpuLabelValue), None)
  }

  /** Rebuilds never add a tag outside the three feature tags. */
  lemma DownloadKeepsFeatureKeys(p: Provider, fetched: Result<CustomPricing, string>)
    requires TableWithinFeatureKeys(p)
    ensures TableWithinFeatureKeys(DownloadPricingData(p, fetched).provider)
  {
  }

  // ---------------------------------------------------------------------
  // Keys and node prices
  // ---------------------------------------------------------------------

  /** `GetKey`: the provider's cached label settings with the node's labels. */
  function GetKey(p: Provider, labels: map<string, string>): (k: Key)
    ensures k.labels == labels
    ensures k.spotLabel == p.spotLabel && k.spotLabelValue == p.spotLabelValue
    ensures k.gpuLabel == p.gpuLabel && k.gpuLabelValue == p.gpuLabelValue
  {
    Key(p.spotLabel, p.spotLabelValue, p.gpuLabel, p.gpuLabelValue, labels)
  }

  /** `Features`: the spot tag when the node's value under the spot label is
      non-empty and equals the configured spot value, else the default tag. */
  function Features(key: Key): (tag: string)
    ensures tag == SpotKey <==>
      key.spotLabel in key.labels && key.labels[key.spotLabel] != ""
      && key.labels[key.spotLabel] == key.spotLabelValue
    ensures tag == SpotKey || tag == DefaultKey
  {
    var v := Text.Lookup(key.labels, key.spotLabel);
    if v != "" && v == key.spotLabelValue then SpotKey else DefaultKey
  }

  /** `GPUType`: the node's value under the GPU label, "" when absent. */
  function GPUType(key: Key): (t: string)
    ensures key.gpuLabel !in key.labels ==> t == ""
    ensures key.gpuLabel in key.labels ==> t == key.labels[key.gpuLabel]
  {
    Text.Lookup(key.labels, key.gpuLabel)
  }

  /** `ID`: the custom provider has no provider-specific node identity. */
  function ID(key: Key): (id: string)
    ensures id == ""
  {
    ""
  }

  const MissingEntryError := "invalid memory address or nil pointer dereference"

  /** `NodePricing`: an unknown feature tag falls back to the default tag;
      a GPU node then gets `,gpu` appended and a GPU count of "1". The
      appended tag is not checked: reading a missing entry dereferences nil
      in the source and is a failure here. */
  function NodePricing(p: Provider, key: Key): (r: Result<Node, string>)
    ensures GPUType(key) == "" ==> (r.Success? <==> Features(key) in Table(p) || DefaultKey in Table(p))
    ensures r.Success? && GPUType(key) == "" ==>
      var price := if Features(key) in Table(p) then Table(p)[Features(key)] else Table(p)[DefaultKey];
      r.value == Node(price.cpu, price.ram, price.gpu, "")
    ensures GPUType(key) != "" ==>
      var tag := (if Features(key) in Table(p) then Features(key) else DefaultKey) + GpuSuffix;
      && (r.Success? <==> tag in Table(p))
      && (r.Success? ==> r.value == Node(Table(p)[tag].cpu, Table(p)[tag].ram, Table(p)[tag].gpu, "1"))
    ensures r.Failure? ==> r.error == MissingEntryError
  {
    var table := Table(p);
    var base := if Features(key) in table then Features(key) else DefaultKey;
    var hasGpu := GPUType(key) != "";
    var tag := if hasGpu then base + GpuSuffix else base;
    if tag in table then
      Success(Node(table[tag].cpu, table[tag].ram, table[tag].gpu, if hasGpu then "1" else ""))
    else
      Failure(MissingEntryError)
  }

  /** After a successful rebuild from configuration `c` every node that is
      not both spot and GPU gets a price: base rates, spot rates, or base
      rates with the GPU rate. A spot node with a GPU resolves to the
      never-written spot+GPU tag and fails. */
  lemma NodePricingAfterDownload(p: Provider, c: CustomPricing, key: Key)
    requires SpotGpuKey !in Table(p)
    ensures
      var q := DownloadPricingData(p, Success(c)).provider;
      var spot := Features(key) == SpotKey;
      var gpu := GPUType(key) != "";
      && (spot && gpu ==> NodePricing(q, key).Failure?)
      && (!spot && !gpu ==> NodePricing(q, key) == Success(Node(c.cpu, c.ram, "", "")))
      && (spot && !gpu ==> NodePricing(q, key) == Success(Node(c.spotCPU, c.spotRAM, "", "")))
      && (!spot && gpu ==> NodePricing(q, key) == Success(Node(c.cpu, c.ram, c.gpu, "1")))
  {
    var q := DownloadPricingData(p, Success(c)).provider;
    assert SpotKey + GpuSuffix == SpotGpuKey;
    assert DefaultKey + GpuSuffix == GpuKey;
    assert SpotGpuKey !in FeatureKeys;
  }

  /** The spot+GPU failure hinges on the spot tag being present: in a table
      without `default,spot` but with `default,gpu`, a spot node with a GPU
      falls back to the default tag and is priced from `default,gpu`. */
  lemma SpotGpuFallsBackWithoutSpotEntry(p: Provider, key: Key)
    requires Features(key) == SpotKey && GPUType(key) != ""
    requires SpotKey !in Table(p) && GpuKey in Table(p)
    ensures NodePricing(p, key)
         == Success(Node(Table(p)[GpuKey].cpu, Table(p)[GpuKey].ram, Table(p)[GpuKey].gpu, "1"))
  {
    assert DefaultKey + GpuSuffix == GpuKey;
  }

  /** The same outcome stated on a node's labels, for a key the rebuilt
      provider creates: spot means a non-empty value equal to the configured
      spot value under the configured spot label; GPU means a non-empty value
      under the configured GPU label. */
  lemma NodeLabelsPricing(p: Provider, c: CustomPricing, labels: map<string, string>)
    requires SpotGpuKey !in Table(p)
    ensures
      var q := DownloadPricingData(p, Success(c)).provider;
      var spot := Text.Lookup(labels, c.spotLabel) != "" && Text.Lookup(labels, c.spotLabel) == c.spotLabelValue;
      var gpu := Text.Lookup(labels, c.gpuLabel) != "";
      var r := NodePricing(q, GetKey(q, labels));
      && (r.Failure? <==> spot && gpu)
      && (r.Success? ==> r.value.gpu == (if gpu then "1" else ""))
      && (r.Success? && spot ==> r.value.vcpuCost == c.spotCPU && r.value.ramCost == c.spotRAM)
      && (r.Success? && !spot ==> r.value.vcpuCost == c.cpu && r.value.ramCost == c.ram)
      && (r.Success? ==> r.value.gpuCost == (if gpu then c.gpu else ""))
  {
    var q := DownloadPricingData(p, Success(c)).provider;
    NodePricingAfterDownload(p, c, GetKey(q, labels));
  }

  // ---------------------------------------------------------------------
  // Configuration update
  // ---------------------------------------------------------------------

  /** A decoded JSON value: a string, or anything else. */
  datatype JsonValue = JsonString(text: string) | JsonOther

  /** One decoded `field: value` pair, in the order the update visits it. */
  type Entry = (string, JsonValue)

  /** `SetCustomPricingField`: sets a named field or rejects it. */
  type FieldSetter = (CustomPricing, string, string) -> Result<CustomPricing, string>

  /** The setter accepts `field` whatever the configuration and value. */
  ghost predicate Accepts(setField: FieldSetter, field: string) {
    forall c, value :: setField(c, field, value).Success?
  }

  /** The setter rejects `field` whatever the configuration and value. */
  ghost predicate Rejects(setField: FieldSetter, field: string) {
    forall c, value :: setField(c, field, value).Failure?
  }

  function TypeError(field: string): string {
    "type error while updating config for " + field
  }

  /** The callback handed to `Config.Update`: visits the entries in order,
      capitalises each key with `strings.Title`, and stops at the first
      non-string value or setter error. */
  function ApplyUpdates(c: CustomPricing, entries: seq<Entry>, setField: FieldSetter)
    : (r: Result<CustomPricing, string>)
    ensures (exists i :: 0 <= i < |entries| && entries[i].1.JsonOther?) ==> r.Failure?
    ensures (exists i :: 0 <= i < |entries| && Rejects(setField, Text.Title(entries[i].0))) ==> r.Failure?
    ensures (forall i :: 0 <= i < |entries| ==>
               entries[i].1.JsonString? && Accepts(setField, Text.Title(entries[i].0)))
            ==> r.Success?
    decreases |entries|
  {
    if |entries| == 0 then Success(c)
    else
      var (key, value) := entries[0];
      var field := Text.Title(key);
      match value
      case JsonOther => Failure(TypeError(field))
      case JsonString(text) =>
        match setField(c, field, text)
        case Failure(e) => Failure(e)
        case Success(c') =>
          assert forall i :: 1 <= i < |entries| ==> entries[1..][i - 1] == entries[i];
          ApplyUpdates(c', entries[1..], setField)
  }

  /** A single string entry reaches the setter under its capitalised key:
      `{"spotLabel": v}` sets field `SpotLabel`. */
  lemma ApplySingleEntry(c: CustomPricing, key: string, text: string, setField: FieldSetter)
    ensures ApplyUpdates(c, [(key, JsonString(text))], setField) == setField(c, Text.Title(key), text)
  {
  }

  /** Continues an update with `entries` unless it has already failed. */
  function ThenApply(r: Result<CustomPricing, string>, entries: seq<Entry>, setField: FieldSetter)
    : Result<CustomPricing, string>
  {
    match r
    case Failure(e) => Failure(e)
    case Success(c) => ApplyUpdates(c, entries, setField)
  }

  /** Applying `a + b` is applying `a` and then, if that succeeded, `b` to
      its result; with `ApplySingleEntry` this fixes the updated
      configuration entry by entry. */
  lemma {:induction false} ApplyUpdatesAppend(c: CustomPricing, a: seq<Entry>, b: seq<Entry>,
                                              setField: FieldSetter)
    ensures ApplyUpdates(c, a + b, setField) == ThenApply(ApplyUpdates(c, a, setField), b, setField)
    decreases |a|
  {
    if |a| == 0 {
      assert a + b == b;
    } else {
      assert (a + b)[0] == a[0];
      assert (a + b)[1..] == a[1..] + b;
      var (key, value) := a[0];
      if value.JsonString? {
        var r := setField(c, Text.Title(key), value.text);
        if r.Success? {
          ApplyUpdatesAppend(r.value, a[1..], b, setField);
        }
      }
    }
  }

  /** What `UpdateConfig` leaves behind: the provider state and its result. */
  datatype Update = Update(provider: Provider, result: Result<CustomPricing, string>)

  /** `UpdateConfig`: a decode error or a failed field update rejects the
      whole update and leaves the table alone; a successful update rebuilds
      the table from the updated configuration before returning it. */
  function UpdateConfig(p: Provider, config: CustomPricing, decoded: Result<seq<Entry>, string>,
                        setField: FieldSetter): (r: Update)
    ensures r.result.Failure? ==> r.provider == p
    ensures r.result.Success? <==> decoded.Success? && ApplyUpdates(config, decoded.value, setField).Success?
    ensures r.result.Success? ==> r.result == ApplyUpdates(config, decoded.value, setField)
    ensures r.result.Success? ==> r.provider == DownloadPricingData(p, r.result).provider
  {
    match decoded
    case Failure(e) => Update(p, Failure(e))
    case Success(entries) =>
      match ApplyUpdates(config, entries, setField)
      case Failure(e) => Update(p, Failure(e))
      case Success(c) => Update(DownloadPricingData(p, Success(c)).provider, Success(c))
  }

  /** After a successful update a plain node is priced from the updated
      configuration: the rebuild happens before the update returns. */
  lemma UpdateThenNodePricing(p: Provider, config: CustomPricing, decoded: Result<seq<Entry>, string>,
                              setField: FieldSetter, key: Key)
    requires SpotGpuKey !in Table(p)
    requires Features(key) == DefaultKey && GPUType(key) == ""
    ensures
      var u := UpdateConfig(p, config, decoded, setField);
      u.result.Success? ==>
        NodePricing(u.provider, key) == Success(Node(u.result.value.cpu, u.result.value.ram, "", ""))
  {
    var u := UpdateConfig(p, config, decoded, setField);
    if u.result.Success? {
      NodePricingAfterDownload(p, u.result.value, key);
    }
  }

  /** Neither rebuilds nor updates ever write a tag outside the three
      feature tags, so the spot+GPU tag stays missing. */
  lemma UpdateKeepsFeatureKeys(p: Provider, config: CustomPricing, decoded: Result<seq<Entry>, string>,
                               setField: FieldSetter)
    requires TableWithinFeatureKeys(p)
    ensures TableWithinFeatureKeys(UpdateConfig(p, config, decoded, setField).provider)
    ensures SpotGpuKey !in Table(UpdateConfig(p, config, decoded, setField).provider)
  {
    var u := UpdateConfig(p, config, decoded, setField);
    if u.result.Success? {
      DownloadKeepsFeatureKeys(p, u.result);
    }
    assert SpotGpuKey !in FeatureKeys;
  }

  /** One change of provider state: a rebuild from a configuration read, or
      a configuration update. */
  datatype Step =
    | Download(fetched: Result<CustomPricing, string>)
    | Reconfigure(config: CustomPricing, decoded: Result<seq<Entry>, string>, setField: FieldSetter)

  /** The provider after `steps`, taken in order. */
  function Run(p: Provider, steps: seq<Step>): Provider
    decreases |steps|
  {
    if |steps| == 0 then p
    else
      var q := match steps[0]
        case Download(fetched) => DownloadPricingData(p, fetched).provider
        case Reconfigure(config, decoded, setField) => UpdateConfig(p, config, decoded, setField).provider;
      Run(q, steps[1..])
  }

  /** Starting from the zero-valued provider, no sequence of rebuilds and
      updates ever writes the spot+GPU tag, so every reachable provider
      meets the premise of `NodePricingAfterDownload`. */
  lemma {:induction false} RunFromInitialKeepsFeatureKeys(steps: seq<Step>)
    ensures TableWithinFeatureKeys(Run(Initial, steps))
    ensures SpotGpuKey !in Table(Run(Initial, steps))
  {
    RunKeepsFeatureKeys(Initial, steps);
    assert SpotGpuKey !in FeatureKeys;
  }

  /** A table is either empty or holds all three feature tags. */
  ghost predicate EmptyOrComplete(p: Provider) {
    Table(p) == map[] || FeatureKeys <= Table(p).Keys
  }

  /** Rebuilds and updates never let a spot node with a GPU be priced: from
      the zero-valued provider every table is empty or holds exactly the
      three feature tags, and either way such a node fails. */
  lemma RunFromInitialSpotGpuFails(steps: seq<Step>, key: Key)
    requires Features(key) == SpotKey && GPUType(key) != ""
    ensures NodePricing(Run(Initial, steps), key).Failure?
  {
    var p := Run(Initial, steps);
    RunKeepsFeatureKeys(Initial, steps);
    RunKeepsEmptyOrComplete(Initial, steps);
    assert DefaultKey + GpuSuffix == GpuKey;
    assert SpotKey + GpuSuffix == SpotGpuKey;
    assert SpotGpuKey !in FeatureKeys;
    if Table(p) != map[] {
      assert SpotKey in Table(p);
    }
  }

  lemma {:induction false} RunKeepsEmptyOrComplete(p: Provider, steps: seq<Step>)
    requires EmptyOrComplete(p)
    ensures EmptyOrComplete(Run(p, steps))
    decreases |steps|
  {
    if |steps| > 0 {
      match steps[0]
      case Download(fetched) =>
        RunKeepsEmptyOrComplete(DownloadPricingData(p, fetched).provider, steps[1..]);
      case Reconfigure(config, decoded, setField) =>
        var u := UpdateConfig(p, config, decoded, setField);
        if u.result.Success? {
          assert u.provider == DownloadPricingData(p, u.result).provider;
        }
        RunKeepsEmptyOrComplete(u.provider, steps[1..]);
    }
  }

  lemma {:induction false} RunKeepsFeatureKeys(p: Provider, steps: seq<Step>)
    requires TableWithinFeatureKeys(p)
    ensures TableWithinFeatureKeys(Run(p, steps))
    decreases |steps|
  {
    if |steps| > 0 {
      match steps[0]
      case Download(fetched) =>
        DownloadKeepsFeatureKeys(p, fetched);
        RunKeepsFeatureKeys(DownloadPricingData(p, fetched).provider, steps[1..]);
      case Reconfigure(config, decoded, setField) =>
        UpdateKeepsFeatureKeys(p, config, decoded, setField);
        RunKeepsFeatureKeys(UpdateConfig(p, config, decoded, setField).provider, steps[1..]);
    }
  }

  // ---------------------------------------------------------------------
  // Cost formulas
  // ---------------------------------------------------------------------

  /** `PVPricing`: every persistent volume costs the configured storage
      rate, as text; the volume's key is not consulted. */
  function PVPricing(fetched: Result<CustomPricing, string>): (r: Result<PV, string>)
    ensures r.Success? <==> fetched.Success?
    ensures fetched.Failure? ==> r == Failure(fetched.error)
    ensures r.Success? ==> r.value.cost == fetched.value.storage
  {
    var c :- fetched;
    Success(PV(c.storage))
  }

  /** `strconv.ParseFloat`: `None` for text that is not a number. */
  type RateParser = string -> Option<real>

  function ParseRate(parse: RateParser, text: string): Result<real, string> {
    match parse(text)
    case Some(x) => Success(x)
    case None => Failure("strconv.ParseFloat: parsing \"" + text + "\": invalid syntax")
  }

  /** `NetworkPricing`: the three egress rates, or the first error. */
  function NetworkPricing(fetched: Result<CustomPricing, string>, parse: RateParser)
    : (r: Result<Network, string>)
    ensures fetched.Failure? ==> r == Failure(fetched.error)
    ensures r.Success? <==>
      && fetched.Success?
      && parse(fetched.value.zoneNetworkEgress).Some?
      && parse(fetched.value.regionNetworkEgress).Some?
      && parse(fetched.value.internetNetworkEgress).Some?
    ensures r.Success? ==>
      && r.value.zoneEgress == parse(fetched.value.zoneNetworkEgress).value
      && r.value.regionEgress == parse(fetched.value.regionNetworkEgress).value
      && r.value.internetEgress == parse(fetched.value.internetNetworkEgress).value
  {
    var c :- fetched;
    var zone :- ParseRate(parse, c.zoneNetworkEgress);
    var region :- ParseRate(parse, c.regionNetworkEgress);
    var internet :- ParseRate(parse, c.internetNetworkEgress);
    Success(Network(zone, region, internet))
  }

  function Min(a: real, b: real): real {
    if a <= b then a else b
  }

  function Max(a: real, b: real): real {
    if a >= b then a else b
  }

  /** The tiered load-balancer formula: the first five forwarding rules at
      one rate, further rules at another, plus ingress data per GB. */
  function LoadBalancerCost(firstFive: real, additional: real, ingress: real, rules: real, dataGB: real)
    : (cost: real)
    ensures cost == firstFive * Min(rules, 5.0) + additional * Max(rules - 5.0, 0.0) + ingress * dataGB
  {
    if rules < 5.0 then firstFive * rules + ingress * dataGB
    else firstFive * 5.0 + additional * (rules - 5.0) + ingress * dataGB
  }

  /** With non-negative rates the cost never falls when rules are added. */
  lemma LoadBalancerCostMonotone(firstFive: real, additional: real, ingress: real,
                                 rules: real, rules': real, dataGB: real)
    requires 0.0 <= firstFive && 0.0 <= additional
    requires rules <= rules'
    ensures LoadBalancerCost(firstFive, additional, ingress, rules, dataGB)
         <= LoadBalancerCost(firstFive, additional, ingress, rules', dataGB)
  {
  }

  /** The rule count and ingress volume the source currently hard-codes. */
  const ForwardingRules: real := 1.0
  const DataIngressGB: real := 0.0

  /** `LoadBalancerPricing`: all three rates must parse; with one rule and
      no data the cost is the first-five rate itself. */
  function LoadBalancerPricing(fetched: Result<CustomPricing, string>, parse: RateParser)
    : (r: Result<LoadBalancer, string>)
    ensures fetched.Failure? ==> r == Failure(fetched.error)
    ensures r.Success? <==>
      && fetched.Success?
      && parse(fetched.value.firstFiveForwardingRulesCost).Some?
      && parse(fetched.value.additionalForwardingRuleCost).Some?
      && parse(fetched.value.lbIngressDataCost).Some?
    ensures r.Success? ==> r.value.cost == parse(fetched.value.firstFiveForwardingRulesCost).value
  {
    var c :- fetched;
    var firstFive :- ParseRate(parse, c.firstFiveForwardingRulesCost);
    var additional :- ParseRate(parse, c.additionalForwardingRuleCost);
    var ingress :- ParseRate(parse, c.lbIngressDataCost);
    Success(LoadBalancer(LoadBalancerCost(firstFive, additional, ingress, ForwardingRules, DataIngressGB)))
  }

  /** Two examples: $0.025 for the first five rules, $0.010 per
      further rule, $0.01 per GB. */
  lemma LoadBalancerExamples()
    ensures LoadBalancerCost(0.025, 0.010, 0.01, 1.0, 0.0) == 0.025
    ensures LoadBalancerCost(0.025, 0.010, 0.01, 7.0, 0.0) == 5.0 * 0.025 + 2.0 * 0.010
  {
  }

  /** `CombinedDiscountForNode`: discounts compound, they do not add; the
      instance type and preemptibility are ignored. */
  function CombinedDiscountForNode(instanceType: string, isPreemptible: bool,
                                   defaultDiscount: real, negotiatedDiscount: real): (d: real)
    ensures d == defaultDiscount + negotiatedDiscount - defaultDiscount * negotiatedDiscount
  {
    1.0 - (1.0 - defaultDiscount) * (1.0 - negotiatedDiscount)
  }

  /** Two discounts between 0 and 1 combine to one between the larger of them
      and 1: compounding never loses a discount nor exceeds 100%. */
  lemma CombinedDiscountBounds(instanceType: string, isPreemptible: bool,
                               defaultDiscount: real, negotiatedDiscount: real)
    requires 0.0 <= defaultDiscount <= 1.0 && 0.0 <= negotiatedDiscount <= 1.0
    ensures
      var d := CombinedDiscountForNode(instanceType, isPreemptible, defaultDiscount, negotiatedDiscount);
      Max(defaultDiscount, negotiatedDiscount) <= d <= 1.0
  {
    ProductNonNegative(1.0 - defaultDiscount, 1.0 - negotiatedDiscount);
    ProductNonNegative(negotiatedDiscount, 1.0 - defaultDiscount);
    ProductNonNegative(defaultDiscount, 1.0 - negotiatedDiscount);
  }

  lemma ProductNonNegative(a: real, b: real)
    requires 0.0 <= a && 0.0 <= b
    ensures 0.0 <= a * b
  {
  }

  /** 20% and 10% combine to 28%, for any instance type. */
  lemma CombinedDiscountExample(instanceType: string, isPreemptible: bool)
    ensures CombinedDiscountForNode(instanceType, isPreemptible, 0.2, 0.1) == 0.28
  {
  }

  // ---------------------------------------------------------------------
  // Cluster identity
  // ---------------------------------------------------------------------

  /** `ClusterInfo`: provider "custom", the process's cluster ID, and the
      configured cluster name only when it is non-empty. */
  function ClusterInfo(fetched: Result<CustomPricing, string>, clusterID: string)
    : (r: Result<map<string, string>, string>)
    ensures r.Success? <==> fetched.Success?
    ensures fetched.Failure? ==> r == Failure(fetched.error)
    ensures r.Success? ==>
      && r.value.Keys <= {"name", "provider", "id"}
      && "provider" in r.value && r.value["provider"] == "custom"
      && "id" in r.value && r.value["id"] == clusterID
      && ("name" in r.value <==> fetched.value.clusterName != "")
      && ("name" in r.value ==> r.value["name"] == fetched.value.clusterName)
  {
    var c :- fetched;
    var named: map<string, string> := if c.clusterName != "" then map["name" := c.clusterName] else map[];
    Success(named["provider" := "custom"]["id" := clusterID])
  }
}
