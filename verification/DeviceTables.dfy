/**
 Which structures the device simulation layer links and fills, with the structure types written out. `PropertiesOf`
 and `FeaturesOf` list the structures of every extension. The main results: for every device the two chains are
 the lists `PropertyOrder` and `FeatureOrder` without what the driver lacks, and a structure is overwritten exactly
 if the device has its extension, the configured version reaches its version, or its extension is emulated.
 */
module DeviceTables {
  import opened PNextChain

  /** The property structures of an extension. */
  function PropertiesOf(e: Extension): seq<StructType> {
    match e
    case PortabilitySubset => [PortabilitySubsetProperties]
    case DepthStencilResolve => [DepthStencilResolveProperties]
    case DescriptorIndexing => [DescriptorIndexingProperties]
    case Maintenance2 => [PointClippingProperties]
    case Maintenance3 => [Maintenance3Properties]
    case Multiview => [MultiviewProperties]
    case SamplerFilterMinmax => [SamplerFilterMinmaxProperties]
    case ShaderFloatControls => [FloatControlsProperties]
    case TimelineSemaphore => [TimelineSemaphoreProperties]
    case _ => []
  }

  /** The feature structures of an extension. */
  function FeaturesOf(e: Extension): seq<StructType> {
    match e
    case PortabilitySubset => [PortabilitySubsetFeatures]
    case EightBitStorage => [EightBitStorageFeatures]
    case SixteenBitStorage => [SixteenBitStorageFeatures]
    case BufferDeviceAddress => [BufferDeviceAddressFeatures]
    case DescriptorIndexing => [DescriptorIndexingFeatures]
    case HostQueryReset => [HostQueryResetFeatures]
    case ImagelessFramebuffer => [ImagelessFramebufferFeatures]
    case Multiview => [MultiviewFeatures]
    case SamplerYcbcrConversion => [SamplerYcbcrConversionFeatures]
    case ScalarBlockLayout => [ScalarBlockLayoutFeatures]
    case SeparateDepthStencilLayouts => [SeparateDepthStencilLayoutsFeatures]
    case ShaderAtomicInt64 => [ShaderAtomicInt64Features]
    case ShaderFloat16Int8 => [ShaderFloat16Int8Features]
    case ShaderSubgroupExtendedTypes => [ShaderSubgroupExtendedTypesFeatures]
    case TimelineSemaphore => [TimelineSemaphoreFeatures]
    case UniformBufferStandardLayout => [UniformBufferStandardLayoutFeatures]
    case VariablePointers => [VariablePointersFeatures]
    case VulkanMemoryModel => [VulkanMemoryModelFeatures]
    case _ => []
  }

  predicate OfExtension(t: StructType, e: Extension) {
    t in PropertiesOf(e) || t in FeaturesOf(e)
  }

  const VULKAN_1_1 := {ProtectedMemoryProperties, ProtectedMemoryFeatures, ShaderDrawParametersFeatures}
  const VULKAN_1_2 := {Vulkan11Properties, Vulkan11Features, Vulkan12Properties, Vulkan12Features}

  /** The version of Vulkan `major.minor` as the layer compares it. */
  function Version(major: nat, minor: nat): nat {
    major * 4096 + minor
  }

  // ---------- What is linked, and what is filled ----------

  lemma {:induction false} NeedsIsListed(t: StructType)
    ensures RequirementOf(t).Needs? ==> OfExtension(t, RequirementOf(t).ext)
  {
  }

  lemma {:induction false} PropertyIsNeeded(t: StructType, e: Extension)
    requires t in PropertiesOf(e)
    ensures RequirementOf(t) == Needs(e) && IsProperty(t)
  {
  }

  lemma {:induction false} FeatureIsNeeded(t: StructType, e: Extension)
    requires t in FeaturesOf(e)
    ensures RequirementOf(t) == Needs(e) && !IsProperty(t)
  {
  }

  lemma {:induction false} VersionsAre(t: StructType)
    ensures RequirementOf(t) == NeedsVersion(Version(1, 1)) <==> t in VULKAN_1_1
    ensures RequirementOf(t) == NeedsVersion(Version(1, 2)) <==> t in VULKAN_1_2
    ensures RequirementOf(t).NeedsVersion? ==> t in VULKAN_1_1 || t in VULKAN_1_2
  {
  }

  lemma {:induction false} OffersExactly(d: Device, version: nat, t: StructType)
    ensures Offers(d, version, t)
       <==> || (exists e :: e in d.extensions && OfExtension(t, e))
            || (version >= Version(1, 1) && t in VULKAN_1_1)
            || (version >= Version(1, 2) && t in VULKAN_1_2)
  {
    VersionsAre(t);
    NeedsIsListed(t);
    forall e | OfExtension(t, e) ensures RequirementOf(t) == Needs(e) {
      if t in PropertiesOf(e) {
        PropertyIsNeeded(t, e);
      } else {
        FeatureIsNeeded(t, e);
      }
    }
  }

  /** A structure is linked if the driver's device has its extension or the driver's version reaches its version. */
  lemma {:induction false} EnabledExactly(d: Device, t: StructType)
    ensures Enabled(d, t)
       <==> || (exists e :: e in d.extensions && OfExtension(t, e))
            || (d.driverVersion >= Version(1, 1) && t in VULKAN_1_1)
            || (d.driverVersion >= Version(1, 2) && t in VULKAN_1_2)
  {
    OffersExactly(d, d.driverVersion, t);
  }

  /** It is filled by the configured version, and also if the portability subset is emulated. */
  lemma {:induction false} FillsExactly(d: Device, t: StructType)
    ensures Fills(d, t)
       <==> || (exists e :: e in d.extensions && OfExtension(t, e))
            || (d.apiVersion >= Version(1, 1) && t in VULKAN_1_1)
            || (d.apiVersion >= Version(1, 2) && t in VULKAN_1_2)
            || (d.emulatePortability && t in {PortabilitySubsetProperties, PortabilitySubsetFeatures})
  {
    OffersExactly(d, d.apiVersion, t);
  }

  // ---------- The order of the chains ----------

  /** The property structures, the last linked first. */
  function PropertyAt(i: nat): StructType
    requires i < 12
  {
    match i
    case 0 => Vulkan12Properties
    case 1 => Vulkan11Properties
    case 2 => ProtectedMemoryProperties
    case 3 => TimelineSemaphoreProperties
    case 4 => FloatControlsProperties
    case 5 => SamplerFilterMinmaxProperties
    case 6 => MultiviewProperties
    case 7 => Maintenance3Properties
    case 8 => PointClippingProperties
    case 9 => DescriptorIndexingProperties
    case 10 => DepthStencilResolveProperties
    case _ => PortabilitySubsetProperties
  }

  /** The feature structures, the last linked first. */
  function FeatureAt(i: nat): StructType
    requires i < 22
  {
    match i
    case 0 => Vulkan12Features
    case 1 => Vulkan11Features
    case 2 => ShaderDrawParametersFeatures
    case 3 => ProtectedMemoryFeatures
    case 4 => VulkanMemoryModelFeatures
    case 5 => VariablePointersFeatures
    case 6 => UniformBufferStandardLayoutFeatures
    case 7 => TimelineSemaphoreFeatures
    case 8 => ShaderSubgroupExtendedTypesFeatures
    case 9 => ShaderFloat16Int8Features
    case 10 => ShaderAtomicInt64Features
    case 11 => SeparateDepthStencilLayoutsFeatures
    case 12 => ScalarBlockLayoutFeatures
    case 13 => SamplerYcbcrConversionFeatures
    case 14 => MultiviewFeatures
    case 15 => ImagelessFramebufferFeatures
    case 16 => HostQueryResetFeatures
    case 17 => DescriptorIndexingFeatures
    case 18 => BufferDeviceAddressFeatures
    case 19 => SixteenBitStorageFeatures
    case 20 => EightBitStorageFeatures
    case _ => PortabilitySubsetFeatures
  }

  function PropertyOrder(): (ts: seq<StructType>)
    ensures |ts| == 12 && forall i :: 0 <= i < 12 ==> ts[i] == PropertyAt(i)
  {
    seq(12, i requires 0 <= i < 12 => PropertyAt(i))
  }

  function FeatureOrder(): (ts: seq<StructType>)
    ensures |ts| == 22 && forall i :: 0 <= i < 22 ==> ts[i] == FeatureAt(i)
  {
    seq(22, i requires 0 <= i < 22 => FeatureAt(i))
  }

  function Order(property: bool): seq<StructType> {
    if property then PropertyOrder() else FeatureOrder()
  }

  /** The structures of a list that the driver has. */
  function Present(d: Device, ts: seq<StructType>): seq<StructType> {
    if ts == [] then [] else (if Enabled(d, ts[0]) then [ts[0]] else []) + Present(d, ts[1..])
  }

  /** All types of a plan for one of the chains, the last one first. */
  function Sorted(plan: seq<StructType>, property: bool): seq<StructType> {
    if plan == [] then []
    else
      var last := |plan| - 1;
      (if IsProperty(plan[last]) == property then [plan[last]] else []) + Sorted(plan[..last], property)
  }

  lemma {:induction false} LinkedIsPresent(d: Device, plan: seq<StructType>, property: bool)
    ensures Linked(d, plan, property) == Present(d, Sorted(plan, property))
    decreases |plan|
  {
    if plan != [] {
      var init, last := plan[..|plan| - 1], plan[|plan| - 1];
      LinkedIsPresent(d, init, property);
      PresentFront(d, last, Sorted(init, property));
    }
  }

  lemma {:induction false} PresentFront(d: Device, t: StructType, ts: seq<StructType>)
    ensures Present(d, [t] + ts) == (if Enabled(d, t) then [t] else []) + Present(d, ts)
    ensures [] + ts == ts
  {
    assert ([t] + ts)[1..] == ts;
  }

  /** The place of a type in its list. */
  function Place(t: StructType): nat
    requires !t.Other?
    ensures Place(t) < |Order(IsProperty(t))|
  {
    match t
    case PortabilitySubsetProperties => 11
    case PortabilitySubsetFeatures => 21
    case EightBitStorageFeatures => 20
    case SixteenBitStorageFeatures => 19
    case BufferDeviceAddressFeatures => 18
    case DepthStencilResolveProperties => 10
    case DescriptorIndexingProperties => 9
    case DescriptorIndexingFeatures => 17
    case HostQueryResetFeatures => 16
    case ImagelessFramebufferFeatures => 15
    case PointClippingProperties => 8
    case Maintenance3Properties => 7
    case MultiviewProperties => 6
    case MultiviewFeatures => 14
    case SamplerFilterMinmaxProperties => 5
    case SamplerYcbcrConversionFeatures => 13
    case ScalarBlockLayoutFeatures => 12
    case SeparateDepthStencilLayoutsFeatures => 11
    case ShaderAtomicInt64Features => 10
    case FloatControlsProperties => 4
    case ShaderFloat16Int8Features => 9
    case ShaderSubgroupExtendedTypesFeatures => 8
    case TimelineSemaphoreProperties => 3
    case TimelineSemaphoreFeatures => 7
    case UniformBufferStandardLayoutFeatures => 6
    case VariablePointersFeatures => 5
    case VulkanMemoryModelFeatures => 4
    case ProtectedMemoryProperties => 2
    case ProtectedMemoryFeatures => 3
    case ShaderDrawParametersFeatures => 2
    case Vulkan11Properties => 1
    case Vulkan11Features => 1
    case Vulkan12Properties => 0
    case _ => 0
  }

  lemma {:induction false} PlaceIs(t: StructType)
    requires !t.Other?
    ensures if IsProperty(t) then PropertyAt(Place(t)) == t else FeatureAt(Place(t)) == t
  {
  }

  lemma {:induction false} PropertyKind(i: nat)
    requires i < 12
    ensures !PropertyAt(i).Other? && IsProperty(PropertyAt(i))
    ensures i > 0 ==> KnownIndex(PropertyAt(i)) < KnownIndex(PropertyAt(i - 1))
  {
  }

  lemma {:induction false} FeatureKind(i: nat)
    requires i < 22
    ensures !FeatureAt(i).Other? && !IsProperty(FeatureAt(i))
    ensures i > 0 ==> KnownIndex(FeatureAt(i)) < KnownIndex(FeatureAt(i - 1))
  {
  }

  /** Types in the reverse order of linking. */
  ghost predicate Descending(ts: seq<StructType>) {
    && (forall t :: t in ts ==> !t.Other?)
    && forall i, j :: 0 <= i < j < |ts| ==> KnownIndex(ts[j]) < KnownIndex(ts[i])
  }

  lemma {:induction false} OrderKind(property: bool, i: nat)
    requires i < |Order(property)|
    ensures var t := Order(property)[i];
            && !t.Other? && IsProperty(t) == property
            && (i > 0 ==> !Order(property)[i - 1].Other? && KnownIndex(t) < KnownIndex(Order(property)[i - 1]))
  {
    if property {
      PropertyKind(i);
      if i > 0 {
        PropertyKind(i - 1);
      }
    } else {
      FeatureKind(i);
      if i > 0 {
        FeatureKind(i - 1);
      }
    }
  }

  lemma {:induction false} OrderDescends(property: bool, i: nat, j: nat)
    requires i < j < |Order(property)|
    ensures !Order(property)[i].Other? && !Order(property)[j].Other?
    ensures KnownIndex(Order(property)[j]) < KnownIndex(Order(property)[i])
    decreases j
  {
    OrderKind(property, j);
    if i < j - 1 {
      OrderDescends(property, i, j - 1);
    }
  }

  lemma {:induction false} OrderIs(property: bool)
    ensures Descending(Order(property))
    ensures forall t :: t in Order(property) <==> !t.Other? && IsProperty(t) == property
  {
    forall i | 0 <= i < |Order(property)|
      ensures !Order(property)[i].Other? && IsProperty(Order(property)[i]) == property
    {
      OrderKind(property, i);
    }
    forall i, j | 0 <= i < j < |Order(property)|
      ensures KnownIndex(Order(property)[j]) < KnownIndex(Order(property)[i])
    {
      OrderDescends(property, i, j);
    }
    forall t: StructType | !t.Other? && IsProperty(t) == property
      ensures t in Order(property)
    {
      PlaceIs(t);
      assert Order(property)[Place(t)] == t;
    }
  }

  /** The first `n` known types, sorted: descending, and all of their kind. */
  lemma {:induction false} SortedIs(n: nat, property: bool)
    requires n <= KNOWN
    ensures var ts := Sorted(KnownTypes()[..n], property);
            Descending(ts) && forall t :: t in ts <==> !t.Other? && KnownIndex(t) < n && IsProperty(t) == property
  {
    if n > 0 {
      assert KnownTypes()[..n][..n - 1] == KnownTypes()[..n - 1];
      SortedIs(n - 1, property);
      KnownOnce(n - 1);
      SortedNext(n - 1, property, Sorted(KnownTypes()[..n - 1], property));
    }
  }

  lemma {:induction false} SortedNext(n: nat, property: bool, ts: seq<StructType>)
    requires n < KNOWN && !KnownAt(n).Other? && KnownIndex(KnownAt(n)) == n && Descending(ts)
    requires forall t :: t in ts <==> !t.Other? && KnownIndex(t) < n && IsProperty(t) == property
    ensures var ts' := (if IsProperty(KnownAt(n)) == property then [KnownAt(n)] else []) + ts;
            && Descending(ts')
            && forall t :: t in ts' <==> !t.Other? && KnownIndex(t) < n + 1 && IsProperty(t) == property
  {
  }

  lemma {:induction false} DescendingUnique(a: seq<StructType>, b: seq<StructType>)
    requires Descending(a) && Descending(b) && forall t :: t in a <==> t in b
    ensures a == b
  {
    assert a != [] ==> a[0] in b;
    assert b != [] ==> b[0] in a;
    if a != [] {
      var i :| 0 <= i < |b| && b[i] == a[0];
      var j :| 0 <= j < |a| && a[j] == b[0];
      assert i == 0;
      TailSame(a, b);
      DescendingUnique(a[1..], b[1..]);
    }
  }

  lemma {:induction false} TailSame(a: seq<StructType>, b: seq<StructType>)
    requires Descending(a) && Descending(b) && a != [] && b != [] && a[0] == b[0] && forall t :: t in a <==> t in b
    ensures Descending(a[1..]) && Descending(b[1..]) && forall t :: t in a[1..] <==> t in b[1..]
  {
    assert forall t :: t in a <==> t == a[0] || t in a[1..];
    assert forall t :: t in b <==> t == b[0] || t in b[1..];
  }

  lemma {:induction false} SortedIsOrder(property: bool)
    ensures Sorted(KnownTypes(), property) == Order(property)
  {
    assert KnownTypes()[..KNOWN] == KnownTypes();
    SortedIs(KNOWN, property);
    OrderIs(property);
    DescendingUnique(Sorted(KnownTypes(), property), Order(property));
  }

  /** For every device the two chains are these lists without the structures the driver lacks. */
  lemma {:induction false} LinkedIs(d: Device)
    ensures Linked(d, KnownTypes(), true) == Present(d, PropertyOrder())
    ensures Linked(d, KnownTypes(), false) == Present(d, FeatureOrder())
  {
    SortedIsOrder(true);
    SortedIsOrder(false);
    LinkedIsPresent(d, KnownTypes(), true);
    LinkedIsPresent(d, KnownTypes(), false);
  }

  // ---------- One extension, one version ----------

  lemma {:induction false} PresentIs(d: Device, ts: seq<StructType>)
    requires Descending(ts)
    ensures Descending(Present(d, ts)) && forall t :: t in Present(d, ts) <==> t in ts && Enabled(d, t)
  {
    if ts != [] {
      DescendingTail(ts);
      PresentIs(d, ts[1..]);
      assert forall t :: t in ts <==> t == ts[0] || t in ts[1..];
      PresentNext(ts[0], Present(d, ts[1..]));
    }
  }

  lemma {:induction false} DescendingTail(ts: seq<StructType>)
    requires Descending(ts) && ts != []
    ensures Descending(ts[1..]) && forall t :: t in ts[1..] ==> !t.Other? && KnownIndex(t) < KnownIndex(ts[0])
  {
  }

  lemma {:induction false} PresentNext(first: StructType, ts: seq<StructType>)
    requires !first.Other? && Descending(ts) && forall t :: t in ts ==> KnownIndex(t) < KnownIndex(first)
    ensures Descending([first] + ts) && forall t :: t in [first] + ts <==> t == first || t in ts
  {
  }

  /** A chain is the descending list of what is enabled. */
  lemma {:induction false} LinkedIsTheList(d: Device, property: bool, ts: seq<StructType>)
    requires Descending(ts) && forall t :: t in ts <==> !t.Other? && Enabled(d, t) && IsProperty(t) == property
    ensures Linked(d, KnownTypes(), property) == ts
  {
    LinkedIs(d);
    OrderIs(property);
    PresentIs(d, Order(property));
    DescendingUnique(Present(d, Order(property)), ts);
  }

  lemma {:induction false} ListsOfExtension(e: Extension)
    ensures Descending(PropertiesOf(e)) && Descending(FeaturesOf(e))
  {
  }

  /** A device with one extension and a driver of Vulkan 1.0 gets the structures of that extension. */
  lemma {:induction false} OneExtension(d: Device, e: Extension)
    requires d.extensions == {e} && d.driverVersion < Version(1, 1)
    ensures Linked(d, KnownTypes(), true) == PropertiesOf(e)
    ensures Linked(d, KnownTypes(), false) == FeaturesOf(e)
  {
    ListsOfExtension(e);
    forall t: StructType
      ensures t in PropertiesOf(e) <==> !t.Other? && Enabled(d, t) && IsProperty(t)
      ensures t in FeaturesOf(e) <==> !t.Other? && Enabled(d, t) && !IsProperty(t)
    {
      KindIs(d, e, t);
    }
    LinkedIsTheList(d, true, PropertiesOf(e));
    LinkedIsTheList(d, false, FeaturesOf(e));
  }

  lemma {:induction false} KindIs(d: Device, e: Extension, t: StructType)
    requires d.extensions == {e} && d.driverVersion < Version(1, 1)
    ensures t in PropertiesOf(e) <==> !t.Other? && Enabled(d, t) && IsProperty(t)
    ensures t in FeaturesOf(e) <==> !t.Other? && Enabled(d, t) && !IsProperty(t)
  {
    EnabledExactly(d, t);
    if t in PropertiesOf(e) {
      PropertyIsNeeded(t, e);
    }
    if t in FeaturesOf(e) {
      FeatureIsNeeded(t, e);
    }
  }

  /** What a driver of a version brings without extensions, the last linked first. */
  function OfVersion(version: nat, property: bool): seq<StructType> {
    if property then
      if version >= Version(1, 2) then [Vulkan12Properties, Vulkan11Properties, ProtectedMemoryProperties]
      else if version >= Version(1, 1) then [ProtectedMemoryProperties]
      else []
    else if version >= Version(1, 2) then
      [Vulkan12Features, Vulkan11Features, ShaderDrawParametersFeatures, ProtectedMemoryFeatures]
    else if version >= Version(1, 1) then [ShaderDrawParametersFeatures, ProtectedMemoryFeatures]
    else []
  }

  /** A device without extensions gets what the driver's version brings. */
  lemma {:induction false} OneVersion(d: Device)
    requires d.extensions == {}
    ensures Linked(d, KnownTypes(), true) == OfVersion(d.driverVersion, true)
    ensures Linked(d, KnownTypes(), false) == OfVersion(d.driverVersion, false)
  {
    forall t ensures Enabled(d, t) <==> (d.driverVersion >= Version(1, 1) && t in VULKAN_1_1)
                                        || (d.driverVersion >= Version(1, 2) && t in VULKAN_1_2) {
      EnabledExactly(d, t);
    }
    VersionLists(d, true);
    VersionLists(d, false);
  }

  lemma {:induction false} VersionLists(d: Device, property: bool)
    requires forall t :: Enabled(d, t) <==> (d.driverVersion >= Version(1, 1) && t in VULKAN_1_1)
                                            || (d.driverVersion >= Version(1, 2) && t in VULKAN_1_2)
    ensures Linked(d, KnownTypes(), property) == OfVersion(d.driverVersion, property)
  {
    VersionDescends(d.driverVersion, property);
    forall t: StructType
      ensures t in OfVersion(d.driverVersion, property) <==> !t.Other? && Enabled(d, t) && IsProperty(t) == property
    {
      VersionMember(d.driverVersion, property, t);
    }
    LinkedIsTheList(d, property, OfVersion(d.driverVersion, property));
  }

  lemma {:induction false} VersionDescends(version: nat, property: bool)
    ensures Descending(OfVersion(version, property))
  {
    if property {
      PropertiesDescend();
    } else {
      FeaturesDescend();
    }
  }

  lemma {:induction false} PropertiesDescend()
    ensures Descending([ProtectedMemoryProperties])
    ensures Descending([Vulkan12Properties, Vulkan11Properties, ProtectedMemoryProperties])
  {
    var one := DescendsFront(ProtectedMemoryProperties, []);
    var two := DescendsFront(Vulkan11Properties, one);
    var three := DescendsFront(Vulkan12Properties, two);
    assert three == [Vulkan12Properties, Vulkan11Properties, ProtectedMemoryProperties];
  }

  lemma {:induction false} FeaturesDescend()
    ensures Descending([ShaderDrawParametersFeatures, ProtectedMemoryFeatures])
    ensures Descending([Vulkan12Features, Vulkan11Features, ShaderDrawParametersFeatures, ProtectedMemoryFeatures])
  {
    var two := TwoFeatures();
    var three := DescendsFront(Vulkan11Features, two);
    var four := DescendsFront(Vulkan12Features, three);
    assert four == [Vulkan12Features, Vulkan11Features] + two;
  }

  lemma {:induction false} TwoFeatures() returns (two: seq<StructType>)
    ensures two == [ShaderDrawParametersFeatures, ProtectedMemoryFeatures] && Descending(two)
  {
    var one := DescendsFront(ProtectedMemoryFeatures, []);
    two := DescendsFront(ShaderDrawParametersFeatures, one);
  }

  lemma {:induction false} DescendsFront(first: StructType, ts: seq<StructType>) returns (all: seq<StructType>)
    requires !first.Other? && Descending(ts) && (ts != [] ==> KnownIndex(ts[0]) < KnownIndex(first))
    ensures all == [first] + ts && Descending(all)
  {
    all := [first] + ts;
    if ts != [] {
      DescendingTail(ts);
    }
    PresentNext(first, ts);
  }

  lemma {:induction false} VersionMember(version: nat, property: bool, t: StructType)
    ensures t in OfVersion(version, property)
       <==> IsProperty(t) == property
            && ((version >= Version(1, 1) && t in VULKAN_1_1) || (version >= Version(1, 2) && t in VULKAN_1_2))
  {
  }

  // ---------- An emulated portability subset ----------

  /** Setting a device up and answering an application's query: the emulated structures have these values. */
  method SetUpAndQuery(data: PhysicalDeviceData, place: Node?, ghost chain: seq<Node>)
    requires data.Valid() && forall t :: t in data.stored ==> data.stored[t].pNext == null
    requires IsChain(place, chain) && forall n :: n in chain ==> n !in data.stored.Values
    requires PortabilitySubset !in data.device.extensions && data.device.emulatePortability
    modifies data.stored.Values, chain
    ensures forall n :: n in chain && n.sType == PortabilitySubsetProperties ==> n.payload == [1]
    ensures forall n :: n in chain && n.sType == PortabilitySubsetFeatures ==>
                          n.payload == [1, 1, 1, 1, 1, 1, 1, 1, 1, 1, 1, 1, 1, 1, 1]
  {
    var propertyChain, featureChain := data.BuildChains();
    FillsExactly(data.device, PortabilitySubsetProperties);
    FillsExactly(data.device, PortabilitySubsetFeatures);
    data.FillPNextChain(place, chain);
  }
}
