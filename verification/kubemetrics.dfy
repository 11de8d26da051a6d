/** Helpers of the Kubernetes metrics exporter: the storage class a volume
    claim requested, the classification of container resource names
    (native, extended, huge-page, attachable-volume) and the unit each
    resource is reported in, and the job-condition reason test.

    `prom.SanitizeLabelName` and `validation.IsQualifiedName` are foreign
    and enter as function parameters; a resource quantity enters as the two
    integers the exporter reads from it. */
module KubeMetrics {
  import opened Wrappers
  import Text

  // Constants of the Kubernetes core/v1 API.
  const BetaStorageClassAnnotation := "volume.beta.kubernetes.io/storage-class"
  const ResourceCPU := "cpu"
  const ResourceMemory := "memory"
  const ResourceStorage := "storage"
  const ResourceEphemeralStorage := "ephemeral-storage"
  const ResourcePods := "pods"
  const ResourceHugePagesPrefix := "hugepages-"
  const ResourceAttachableVolumesPrefix := "attachable-volumes-"
  const DefaultResourceRequestsPrefix := "requests."
  const ResourceDefaultNamespacePrefix := "kubernetes.io/"

  /** What the exporter prints when a claim requested no storage class. */
  const NoStorageClass := "<none>"

  // ---------------------------------------------------------------------
  // Storage class of a claim
  // ---------------------------------------------------------------------

  /** The parts of a PersistentVolumeClaim the class lookup reads;
      `storageClassName` is `None` for Go's nil pointer. */
  datatype PersistentVolumeClaim = PersistentVolumeClaim(
    annotations: map<string, string>,
    storageClassName: Option<string>)

  /** `getPersistentVolumeClaimClass`: the beta annotation wins even when
      empty, then the spec's class, then `<none>`. */
  function PersistentVolumeClaimClass(claim: PersistentVolumeClaim): (cls: string)
    ensures BetaStorageClassAnnotation in claim.annotations ==>
      cls == claim.annotations[BetaStorageClassAnnotation]
    ensures BetaStorageClassAnnotation !in claim.annotations && claim.storageClassName.Some? ==>
      cls == claim.storageClassName.value
    ensures BetaStorageClassAnnotation !in claim.annotations && claim.storageClassName.None? ==>
      cls == NoStorageClass
  {
    if BetaStorageClassAnnotation in claim.annotations then claim.annotations[BetaStorageClassAnnotation]
    else if claim.storageClassName.Some? then claim.storageClassName.value
    else NoStorageClass
  }

  /** With the annotation present the spec's class is never consulted. */
  lemma AnnotationOverridesSpec(annotations: map<string, string>, a: Option<string>, b: Option<string>)
    requires BetaStorageClassAnnotation in annotations
    ensures PersistentVolumeClaimClass(PersistentVolumeClaim(annotations, a))
         == PersistentVolumeClaimClass(PersistentVolumeClaim(annotations, b))
  {
  }

  // ---------------------------------------------------------------------
  // Resource-name classification
  // ---------------------------------------------------------------------

  /** `isHugePageResourceName`: the name starts with `hugepages-`. */
  function IsHugePageResourceName(name: string): (b: bool)
    ensures b <==> exists rest :: name == ResourceHugePagesPrefix + rest
  {
    Text.HasPrefix(name, ResourceHugePagesPrefix)
  }

  /** `isAttachableVolumeResourceName`: the name starts with
      `attachable-volumes-`. */
  function IsAttachableVolumeResourceName(name: string): (b: bool)
    ensures b <==> exists rest :: name == ResourceAttachableVolumesPrefix + rest
  {
    Text.HasPrefix(name, ResourceAttachableVolumesPrefix)
  }

  /** `isPrefixedNativeResource`: the name mentions `kubernetes.io/`
      anywhere, not only at its start. */
  function IsPrefixedNativeResource(name: string): (b: bool)
    ensures b <==> exists i :: Text.OccursAt(name, ResourceDefaultNamespacePrefix, i)
  {
    Text.ContainsIffOccurs(name, ResourceDefaultNamespacePrefix);
    Text.Contains(name, ResourceDefaultNamespacePrefix)
  }

  /** `isNativeResource`: unqualified names (no `/`) and names in the
      `kubernetes.io/` namespace. */
  function IsNativeResource(name: string): (b: bool)
    ensures b <==> '/' !in name || IsPrefixedNativeResource(name)
  {
    Text.ContainsChar(name, '/');
    !Text.Contains(name, "/") || IsPrefixedNativeResource(name)
  }

  /** `isExtendedResourceName`: a non-native name, not itself a quota
      (`requests.`) name, whose quota name `requests.<name>` is a valid
      qualified name. */
  function IsExtendedResourceName(name: string, isQualifiedName: string -> bool): (b: bool)
    ensures b ==> '/' in name && !IsPrefixedNativeResource(name)
    ensures b ==> !Text.HasPrefix(name, DefaultResourceRequestsPrefix)
    ensures !IsNativeResource(name) && !Text.HasPrefix(name, DefaultResourceRequestsPrefix) ==>
      (b <==> isQualifiedName(DefaultResourceRequestsPrefix + name))
  {
    if IsNativeResource(name) || Text.HasPrefix(name, DefaultResourceRequestsPrefix) then false
    else isQualifiedName(DefaultResourceRequestsPrefix + name)
  }

  /** Native names are never extended, whatever the qualified-name check says. */
  lemma NativeIsNotExtended(name: string, isQualifiedName: string -> bool)
    requires IsNativeResource(name)
    ensures !IsExtendedResourceName(name, isQualifiedName)
  {
  }

  // ---------------------------------------------------------------------
  // Resource units
  // ---------------------------------------------------------------------

  /** A resource quantity as the exporter reads it: `MilliValue()` and
      `Value()`. */
  datatype Quantity = Quantity(milliValue: int, value: int)

  /** The sanitised resource label, its unit, and the value in that unit. */
  datatype ResourceUnitValue = ResourceUnitValue(resource: string, unit: string, value: real)

  const UnitCore := "core"
  const UnitByte := "byte"
  const UnitInteger := "integer"

  predicate IsByteSizedName(name: string) {
    name == ResourceStorage || name == ResourceEphemeralStorage || name == ResourceMemory
  }

  /** `toResourceUnitValue`: CPU in cores, storage, memory, huge pages and
      attachable volumes in bytes, pods and extended resources as integers;
      any other name yields an empty resource and unit and value 0. */
  function ToResourceUnitValue(name: string, quantity: Quantity, sanitize: string -> string,
                               isQualifiedName: string -> bool): (r: ResourceUnitValue)
    ensures name == ResourceCPU ==> r.unit == UnitCore && r.value == quantity.milliValue as real / 1000.0
    ensures IsByteSizedName(name) ==> r.unit == UnitByte && r.value == quantity.value as real
    ensures name == ResourcePods ==> r.unit == UnitInteger && r.value == quantity.value as real
    ensures r.unit != "" ==> r.resource == sanitize(name)
    ensures r.unit != "" && name != ResourceCPU ==> r.value == quantity.value as real
    ensures r.unit == "" ==> r.resource == "" && r.value == 0.0
  {
    var resource := sanitize(name);
    if name == ResourceCPU then
      ResourceUnitValue(resource, UnitCore, quantity.milliValue as real / 1000.0)
    else if IsByteSizedName(name) then
      ResourceUnitValue(resource, UnitByte, quantity.value as real)
    else if name == ResourcePods then
      ResourceUnitValue(resource, UnitInteger, quantity.value as real)
    else if IsHugePageResourceName(name) || IsAttachableVolumeResourceName(name) then
      ResourceUnitValue(resource, UnitByte, quantity.value as real)
    else if IsExtendedResourceName(name, isQualifiedName) then
      ResourceUnitValue(resource, UnitInteger, quantity.value as real)
    else
      ResourceUnitValue("", "", 0.0)
  }

  /** The five fixed names carry neither special prefix. */
  lemma FixedNamesUnprefixed(name: string)
    requires name == ResourceCPU || IsByteSizedName(name) || name == ResourcePods
    ensures !IsHugePageResourceName(name) && !IsAttachableVolumeResourceName(name)
    ensures IsNativeResource(name)
  {
    assert '/' !in name;
    if name == ResourceEphemeralStorage {
      assert name[0] != ResourceHugePagesPrefix[0];
      assert name[0] != ResourceAttachableVolumesPrefix[0];
    }
  }

  /** The unit table read by unit rather than by case: which names are
      reported in bytes, which as integers, which in cores, and which are
      dropped. */
  lemma UnitTable(name: string, quantity: Quantity, sanitize: string -> string,
                  isQualifiedName: string -> bool)
    ensures
      var r := ToResourceUnitValue(name, quantity, sanitize, isQualifiedName);
      var prefixed := IsHugePageResourceName(name) || IsAttachableVolumeResourceName(name);
      var extended := IsExtendedResourceName(name, isQualifiedName);
      && (r.unit == UnitCore <==> name == ResourceCPU)
      && (r.unit == UnitByte <==> IsByteSizedName(name) || prefixed)
      && (r.unit == UnitInteger <==> name == ResourcePods || (extended && !prefixed))
      && (r.unit == "" <==> name != ResourceCPU && !IsByteSizedName(name) && name != ResourcePods
                            && !prefixed && !extended)
  {
    if name == ResourceCPU || IsByteSizedName(name) || name == ResourcePods {
      FixedNamesUnprefixed(name);
    }
  }

  /** The prefix test comes before the extended test: every huge-page or
      attachable-volume name is reported in bytes, with the quantity's
      `Value()`, even when it is also an extended resource name. */
  lemma PrefixBeforeExtended(name: string, quantity: Quantity, sanitize: string -> string,
                             isQualifiedName: string -> bool)
    requires IsHugePageResourceName(name) || IsAttachableVolumeResourceName(name)
    ensures ToResourceUnitValue(name, quantity, sanitize, isQualifiedName)
         == ResourceUnitValue(sanitize(name), UnitByte, quantity.value as real)
  {
    if name == ResourceCPU || name == ResourcePods {
      FixedNamesUnprefixed(name);
    }
  }

  /** An extended resource name without a special prefix is reported as an
      integer count with the quantity's `Value()`. */
  lemma ExtendedResourceValue(name: string, quantity: Quantity, sanitize: string -> string,
                              isQualifiedName: string -> bool)
    requires IsExtendedResourceName(name, isQualifiedName)
    requires !IsHugePageResourceName(name) && !IsAttachableVolumeResourceName(name)
    ensures ToResourceUnitValue(name, quantity, sanitize, isQualifiedName)
         == ResourceUnitValue(sanitize(name), UnitInteger, quantity.value as real)
  {
    assert '/' in name;
    assert name != ResourceCPU && !IsByteSizedName(name) && name != ResourcePods by {
      assert '/' !in ResourceCPU && '/' !in ResourcePods;
      assert '/' !in ResourceStorage && '/' !in ResourceEphemeralStorage && '/' !in ResourceMemory;
    }
  }

  /** The precedence matters: `hugepages-x/y` is a huge-page name and, when
      its quota name is qualified, an extended resource name too. */
  lemma HugePageCanBeExtended(isQualifiedName: string -> bool)
    requires isQualifiedName(DefaultResourceRequestsPrefix + "hugepages-x/y")
    ensures IsHugePageResourceName("hugepages-x/y")
    ensures IsExtendedResourceName("hugepages-x/y", isQualifiedName)
  {
    var name := "hugepages-x/y";
    assert name[..|ResourceHugePagesPrefix|] == ResourceHugePagesPrefix;
    assert name[11] == '/';
    assert name[0] != DefaultResourceRequestsPrefix[0];
    assert !Text.Contains(name, ResourceDefaultNamespacePrefix) by {
      assert |name| < |ResourceDefaultNamespacePrefix|;
    }
  }

  // ---------------------------------------------------------------------
  // Job conditions
  // ---------------------------------------------------------------------

  /** The part of a JobCondition the reason test reads. */
  datatype JobCondition = JobCondition(reason: string)

  /** `failureReason`: false for a nil condition, else whether its reason is
      the one asked about. */
  function FailureReason(condition: Option<JobCondition>, reason: string): (b: bool)
    ensures condition.None? ==> !b
    ensures condition.Some? ==> (b <==> condition.value.reason == reason)
  {
    match condition
    case None => false
    case Some(jc) => jc.reason == reason
  }
}
