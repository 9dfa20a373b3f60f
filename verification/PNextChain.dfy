/**
 pNext chains of the device simulation layer. `PhysicalDeviceData` owns one structure per known type;
 `BuildChains` links the enabled ones in front of two chain heads, and `FillPNextChain` later walks a chain of
 the application and overwrites the structures it has data for, in place.
 */
module PNextChain {

  datatype StructType =
    | PortabilitySubsetProperties | PortabilitySubsetFeatures
    | EightBitStorageFeatures | SixteenBitStorageFeatures | BufferDeviceAddressFeatures
    | DepthStencilResolveProperties | DescriptorIndexingProperties | DescriptorIndexingFeatures
    | HostQueryResetFeatures | ImagelessFramebufferFeatures | PointClippingProperties | Maintenance3Properties
    | MultiviewProperties | MultiviewFeatures | SamplerFilterMinmaxProperties | SamplerYcbcrConversionFeatures
    | ScalarBlockLayoutFeatures | SeparateDepthStencilLayoutsFeatures | ShaderAtomicInt64Features
    | FloatControlsProperties | ShaderFloat16Int8Features | ShaderSubgroupExtendedTypesFeatures
    | TimelineSemaphoreProperties | TimelineSemaphoreFeatures | UniformBufferStandardLayoutFeatures
    | VariablePointersFeatures | VulkanMemoryModelFeatures
    | ProtectedMemoryProperties | ProtectedMemoryFeatures | ShaderDrawParametersFeatures
    | Vulkan11Properties | Vulkan11Features | Vulkan12Properties | Vulkan12Features
    | Other(sType: int)            // a structure the layer keeps no data for

  datatype Extension =
    | PortabilitySubset | EightBitStorage | SixteenBitStorage | BufferDeviceAddress | DepthStencilResolve
    | DescriptorIndexing | HostQueryReset | ImagelessFramebuffer | Maintenance2 | Maintenance3 | Multiview
    | SamplerFilterMinmax | SamplerYcbcrConversion | ScalarBlockLayout | SeparateDepthStencilLayouts
    | ShaderAtomicInt64 | ShaderFloatControls | ShaderFloat16Int8 | ShaderSubgroupExtendedTypes
    | TimelineSemaphore | UniformBufferStandardLayout | VariablePointers | VulkanMemoryModel

  /**
   What the layer knows of a device; versions are encoded as major * 4096 + minor. `driverVersion` is what the driver
   reports; a configuration may have replaced it by `apiVersion` afterwards.
   */
  datatype Device = Device(extensions: set<Extension>, driverVersion: nat, apiVersion: nat, emulatePortability: bool)

  const API_VERSION_1_1: nat := 4097
  const API_VERSION_1_2: nat := 4098

  datatype Requirement = Needs(ext: Extension) | NeedsVersion(version: nat) | Never

  /** The extension or version a structure type belongs to. */
  function RequirementOf(t: StructType): Requirement {
    match t
    case PortabilitySubsetProperties => Needs(PortabilitySubset)
    case PortabilitySubsetFeatures => Needs(PortabilitySubset)
    case EightBitStorageFeatures => Needs(EightBitStorage)
    case SixteenBitStorageFeatures => Needs(SixteenBitStorage)
    case BufferDeviceAddressFeatures => Needs(BufferDeviceAddress)
    case DepthStencilResolveProperties => Needs(DepthStencilResolve)
    case DescriptorIndexingProperties => Needs(DescriptorIndexing)
    case DescriptorIndexingFeatures => Needs(DescriptorIndexing)
    case HostQueryResetFeatures => Needs(HostQueryReset)
    case ImagelessFramebufferFeatures => Needs(ImagelessFramebuffer)
    case PointClippingProperties => Needs(Maintenance2)
    case Maintenance3Properties => Needs(Maintenance3)
    case MultiviewProperties => Needs(Multiview)
    case MultiviewFeatures => Needs(Multiview)
    case SamplerFilterMinmaxProperties => Needs(SamplerFilterMinmax)
    case SamplerYcbcrConversionFeatures => Needs(SamplerYcbcrConversion)
    case ScalarBlockLayoutFeatures => Needs(ScalarBlockLayout)
    case SeparateDepthStencilLayoutsFeatures => Needs(SeparateDepthStencilLayouts)
    case ShaderAtomicInt64Features => Needs(ShaderAtomicInt64)
    case FloatControlsProperties => Needs(ShaderFloatControls)
    case ShaderFloat16Int8Features => Needs(ShaderFloat16Int8)
    case ShaderSubgroupExtendedTypesFeatures => Needs(ShaderSubgroupExtendedTypes)
    case TimelineSemaphoreProperties => Needs(TimelineSemaphore)
    case TimelineSemaphoreFeatures => Needs(TimelineSemaphore)
    case UniformBufferStandardLayoutFeatures => Needs(UniformBufferStandardLayout)
    case VariablePointersFeatures => Needs(VariablePointers)
    case VulkanMemoryModelFeatures => Needs(VulkanMemoryModel)
    case ProtectedMemoryProperties => NeedsVersion(API_VERSION_1_1)
    case ProtectedMemoryFeatures => NeedsVersion(API_VERSION_1_1)
    case ShaderDrawParametersFeatures => NeedsVersion(API_VERSION_1_1)
    case Vulkan11Properties => NeedsVersion(API_VERSION_1_2)
    case Vulkan11Features => NeedsVersion(API_VERSION_1_2)
    case Vulkan12Properties => NeedsVersion(API_VERSION_1_2)
    case Vulkan12Features => NeedsVersion(API_VERSION_1_2)
    case Other(_) => Never
  }

  predicate IsPortability(t: StructType) {
    t == PortabilitySubsetProperties || t == PortabilitySubsetFeatures
  }

  predicate IsProperty(t: StructType) {
    match t
    case PortabilitySubsetProperties => true
    case DepthStencilResolveProperties => true
    case DescriptorIndexingProperties => true
    case PointClippingProperties => true
    case Maintenance3Properties => true
    case MultiviewProperties => true
    case SamplerFilterMinmaxProperties => true
    case FloatControlsProperties => true
    case TimelineSemaphoreProperties => true
    case ProtectedMemoryProperties => true
    case Vulkan11Properties => true
    case Vulkan12Properties => true
    case _ => false
  }

  /** A device with this version has the extension or the version that the structure belongs to. */
  predicate Offers(d: Device, version: nat, t: StructType) {
    match RequirementOf(t)
    case Needs(ext) => ext in d.extensions
    case NeedsVersion(v) => version >= v
    case Never => false
  }

  /** The device itself offers the structure: it is linked when the layer asks the driver. */
  predicate Enabled(d: Device, t: StructType) {
    Offers(d, d.driverVersion, t)
  }

  /** The layer overwrites the structure: by the configured version, and also for an emulated portability subset. */
  predicate Fills(d: Device, t: StructType) {
    Offers(d, d.apiVersion, t) || (IsPortability(t) && d.emulatePortability)
  }

  const KNOWN: nat := 34

  /** The known structure types in the order in which the layer links them. */
  function KnownAt(i: nat): StructType
    requires i < KNOWN
  {
    match i
    case 0 => PortabilitySubsetProperties
    case 1 => PortabilitySubsetFeatures
    case 2 => EightBitStorageFeatures
    case 3 => SixteenBitStorageFeatures
    case 4 => BufferDeviceAddressFeatures
    case 5 => DepthStencilResolveProperties
    case 6 => DescriptorIndexingProperties
    case 7 => DescriptorIndexingFeatures
    case 8 => HostQueryResetFeatures
    case 9 => ImagelessFramebufferFeatures
    case 10 => PointClippingProperties
    case 11 => Maintenance3Properties
    case 12 => MultiviewProperties
    case 13 => MultiviewFeatures
    case 14 => SamplerFilterMinmaxProperties
    case 15 => SamplerYcbcrConversionFeatures
    case 16 => ScalarBlockLayoutFeatures
    case 17 => SeparateDepthStencilLayoutsFeatures
    case 18 => ShaderAtomicInt64Features
    case 19 => FloatControlsProperties
    case 20 => ShaderFloat16Int8Features
    case 21 => ShaderSubgroupExtendedTypesFeatures
    case 22 => TimelineSemaphoreProperties
    case 23 => TimelineSemaphoreFeatures
    case 24 => UniformBufferStandardLayoutFeatures
    case 25 => VariablePointersFeatures
    case 26 => VulkanMemoryModelFeatures
    case 27 => ProtectedMemoryProperties
    case 28 => ProtectedMemoryFeatures
    case 29 => ShaderDrawParametersFeatures
    case 30 => Vulkan11Properties
    case 31 => Vulkan11Features
    case 32 => Vulkan12Properties
    case _ => Vulkan12Features
  }

  function KnownTypes(): (ts: seq<StructType>)
    ensures |ts| == KNOWN && forall i :: 0 <= i < KNOWN ==> ts[i] == KnownAt(i)
  {
    seq(KNOWN, i requires 0 <= i < KNOWN => KnownAt(i))
  }

  function KnownIndex(t: StructType): (i: nat)
    requires !t.Other?
    ensures i < KNOWN && KnownAt(i) == t
  {
    match t
    case PortabilitySubsetProperties => 0
    case PortabilitySubsetFeatures => 1
    case EightBitStorageFeatures => 2
    case SixteenBitStorageFeatures => 3
    case BufferDeviceAddressFeatures => 4
    case DepthStencilResolveProperties => 5
    case DescriptorIndexingProperties => 6
    case DescriptorIndexingFeatures => 7
    case HostQueryResetFeatures => 8
    case ImagelessFramebufferFeatures => 9
    case PointClippingProperties => 10
    case Maintenance3Properties => 11
    case MultiviewProperties => 12
    case MultiviewFeatures => 13
    case SamplerFilterMinmaxProperties => 14
    case SamplerYcbcrConversionFeatures => 15
    case ScalarBlockLayoutFeatures => 16
    case SeparateDepthStencilLayoutsFeatures => 17
    case ShaderAtomicInt64Features => 18
    case FloatControlsProperties => 19
    case ShaderFloat16Int8Features => 20
    case ShaderSubgroupExtendedTypesFeatures => 21
    case TimelineSemaphoreProperties => 22
    case TimelineSemaphoreFeatures => 23
    case UniformBufferStandardLayoutFeatures => 24
    case VariablePointersFeatures => 25
    case VulkanMemoryModelFeatures => 26
    case ProtectedMemoryProperties => 27
    case ProtectedMemoryFeatures => 28
    case ShaderDrawParametersFeatures => 29
    case Vulkan11Properties => 30
    case Vulkan11Features => 31
    case Vulkan12Properties => 32
    case Vulkan12Features => 33
  }

  /** An order of linking: every known type once, the two of the portability subset first. */
  ghost predicate WellPlanned(plan: seq<StructType>) {
    && |plan| > 2 && plan[0] == PortabilitySubsetProperties && plan[1] == PortabilitySubsetFeatures
    && (forall i, j :: 0 <= i < j < |plan| ==> plan[i] != plan[j])
    && (forall t: StructType :: t in plan <==> !t.Other?)
  }

  lemma {:induction false} KnownOnce(i: nat)
    requires i < KNOWN
    ensures !KnownAt(i).Other? && KnownIndex(KnownAt(i)) == i && KnownTypes()[i] == KnownAt(i)
  {
  }

  lemma {:induction false} KnownPlanned()
    ensures WellPlanned(KnownTypes()) && |KnownTypes()| == KNOWN
  {
    forall i, j | 0 <= i < j < |KnownTypes()|
      ensures KnownTypes()[i] != KnownTypes()[j]
    {
      KnownOnce(i);
      KnownOnce(j);
    }
    forall t | t in KnownTypes()
      ensures !t.Other?
    {
      var i :| 0 <= i < |KnownTypes()| && KnownTypes()[i] == t;
      KnownOnce(i);
    }
    forall t: StructType | !t.Other?
      ensures t in KnownTypes()
    {
      assert KnownTypes()[KnownIndex(t)] == KnownAt(KnownIndex(t)) == t;
    }
  }

  class Node {
    var sType: StructType
    var pNext: Node?
    var payload: seq<int>

    constructor (t: StructType)
      ensures sType == t && pNext == null && payload == []
    {
      sType, pNext, payload := t, null, [];
    }
  }

  // ---------- Chains ----------

  /** The node behind the `i`-th one. */
  function Behind(chain: seq<Node>, i: nat): Node?
    requires i < |chain|
  {
    if i + 1 < |chain| then chain[i + 1] else null
  }

  /** `chain` lists the nodes from `p` to the end of a null-terminated chain. */
  ghost predicate IsChain(p: Node?, chain: seq<Node>)
    reads chain
  {
    && p == (if chain == [] then null else chain[0])
    && forall i :: 0 <= i < |chain| ==> chain[i].pNext == Behind(chain, i)
  }

  /** If two places of a chain hold the same node, so do the places behind them, up to the end. */
  lemma {:induction false} SameFrom(p: Node?, chain: seq<Node>, i: nat, j: nat)
    requires IsChain(p, chain) && i < j < |chain| && chain[i] == chain[j]
    ensures false
    decreases |chain| - j
  {
    assert chain[i].pNext == Behind(chain, i) && chain[j].pNext == Behind(chain, j);
    if j + 1 < |chain| {
      SameFrom(p, chain, i + 1, j + 1);
    }
  }

  /** A null-terminated chain visits no node twice. */
  lemma {:induction false} ChainDistinct(p: Node?, chain: seq<Node>)
    requires IsChain(p, chain)
    ensures forall i, j :: 0 <= i < j < |chain| ==> chain[i] != chain[j]
  {
    forall i, j | 0 <= i < j < |chain|
      ensures chain[i] != chain[j]
    {
      if chain[i] == chain[j] {
        SameFrom(p, chain, i, j);
      }
    }
  }

  /** Links a new node in front of a chain that does not hold it; another chain without it stays a chain. */
  method Link(node: Node, head: Node?, ghost chain: seq<Node>, ghost other: Node?, ghost otherChain: seq<Node>)
    requires IsChain(head, chain) && node !in chain && IsChain(other, otherChain) && node !in otherChain
    modifies node
    ensures IsChain(node, [node] + chain) && IsChain(other, otherChain)
    ensures node.sType == old(node.sType) && node.payload == old(node.payload)
  {
    ghost var after := [node] + chain;
    node.pNext := head;
    forall k | 0 <= k < |after|
      ensures after[k].pNext == Behind(after, k)
    {
      if k > 0 {
        assert after[k] == chain[k - 1] && chain[k - 1].pNext == Behind(chain, k - 1);
      }
    }
  }

  // ---------- Which structures are linked ----------

  /** The enabled types of a plan that belong to one of the two chains, the last one first. */
  function Linked(d: Device, plan: seq<StructType>, property: bool): (ts: seq<StructType>)
    ensures forall t :: t in ts ==> t in plan
  {
    if plan == [] then []
    else
      var last := |plan| - 1;
      (if Enabled(d, plan[last]) && IsProperty(plan[last]) == property then [plan[last]] else [])
      + Linked(d, plan[..last], property)
  }

  /** The two chains together hold every enabled structure exactly once, properties in one and features in the other. */
  lemma {:induction false} LinkedExactly(d: Device, plan: seq<StructType>, property: bool, t: StructType)
    requires forall i, j :: 0 <= i < j < |plan| ==> plan[i] != plan[j]
    ensures t in Linked(d, plan, property) <==> t in plan && Enabled(d, t) && IsProperty(t) == property
    ensures multiset(Linked(d, plan, property))[t] <= 1
    decreases |plan|
  {
    LinkedMember(d, plan, property, t);
    if plan != [] {
      var init, last := plan[..|plan| - 1], plan[|plan| - 1];
      LinkedExactly(d, init, property, t);
      assert last !in init;
      CountInFront(if Enabled(d, last) && IsProperty(last) == property then [last] else [],
                   Linked(d, init, property), t);
    }
  }

  lemma {:induction false} LinkedMember(d: Device, plan: seq<StructType>, property: bool, t: StructType)
    ensures t in Linked(d, plan, property) <==> t in plan && Enabled(d, t) && IsProperty(t) == property
    decreases |plan|
  {
    if plan != [] {
      var init, last := plan[..|plan| - 1], plan[|plan| - 1];
      assert plan == init + [last];
      LinkedMember(d, init, property, t);
      InFront(init, last, t);
    }
  }

  lemma {:induction false} InFront(init: seq<StructType>, last: StructType, t: StructType)
    ensures t in init + [last] <==> t in init || t == last
  {
  }

  lemma {:induction false} CountInFront(head: seq<StructType>, ts: seq<StructType>, t: StructType)
    requires |head| <= 1 && multiset(ts)[t] <= 1 && (t in head ==> t !in ts)
    ensures multiset(head + ts)[t] <= 1 && (t in head + ts <==> t in head || t in ts)
  {
    assert t !in ts ==> multiset(ts)[t] == 0;
  }

  // ---------- The stored structures ----------

  method MakeStored(plan: seq<StructType>) returns (m: map<StructType, Node>)
    ensures m.Keys == set t | t in plan
    ensures forall t :: t in m ==> fresh(m[t]) && m[t].sType == t && m[t].pNext == null && m[t].payload == []
  {
    m := map[];
    for i := 0 to |plan|
      invariant m.Keys == set t | t in plan[..i]
      invariant forall t :: t in m ==> fresh(m[t]) && m[t].sType == t && m[t].pNext == null && m[t].payload == []
    {
      var node := new Node(plan[i]);
      m := m[plan[i] := node];
      assert plan[..i + 1] == plan[..i] + [plan[i]];
    }
    assert plan[..|plan|] == plan;
  }

  class PhysicalDeviceData {
    const device: Device
    const plan: seq<StructType>
    const stored: map<StructType, Node>

    /** One node of the right type for every known structure type. */
    ghost predicate Valid()
      reads stored.Values
    {
      && WellPlanned(plan)
      && (forall t: StructType :: t in stored <==> !t.Other?)
      && (forall t :: t in stored ==> stored[t].sType == t)
    }

    /** The payloads of the stored structures. */
    ghost function Data(): map<StructType, seq<int>>
      requires Valid()
      reads stored.Values
    {
      map t | t in stored :: stored[t].payload
    }

    /** Makes the structures; every one has its type and ends its own chain. */
    constructor (d: Device)
      ensures device == d && plan == KnownTypes() && Valid() && fresh(stored.Values)
      ensures forall t :: t in stored ==> stored[t].pNext == null && stored[t].payload == []
    {
      device := d;
      plan := KnownTypes();
      KnownPlanned();
      var m := MakeStored(KnownTypes());
      stored := m;
    }

    // ---------- The chains the layer hands to the driver ----------

    ghost function NodesOf(ts: seq<StructType>): (ns: seq<Node>)
      requires forall t :: t in ts ==> t in stored
      ensures |ns| == |ts| && forall i :: 0 <= i < |ts| ==> ns[i] == stored[ts[i]]
    {
      seq(|ts|, i requires 0 <= i < |ts| => stored[ts[i]])
    }

    /** The nodes of one chain after the first `n` types of the plan. */
    ghost function ChainNodes(property: bool, n: nat): (ns: seq<Node>)
      requires WellPlanned(plan) && n <= |plan| && forall t: StructType :: t in stored <==> !t.Other?
    {
      NodesOf(Linked(device, plan[..n], property))
    }

    /**
     Links the enabled structures in front of two empty chains. The source repeats the three lines of the loop
     body, with its own field and test, once for each structure type.
     */
    method BuildChains() returns (propertyChain: Node?, featureChain: Node?)
      requires Valid() && forall t :: t in stored ==> stored[t].pNext == null
      modifies stored.Values
      ensures Valid() && Data() == Emulated(old(Data()))
      ensures IsChain(propertyChain, NodesOf(Linked(device, plan, true)))
      ensures IsChain(featureChain, NodesOf(Linked(device, plan, false)))
    {
      propertyChain, featureChain := LinkPortability();
      propertyChain, featureChain := LinkOthers(propertyChain, featureChain);
      WholePlan(true);
      WholePlan(false);
    }

    /**
     The stored payloads once the portability subset is filled in: a device without the extension, for which it is to be
     emulated, gets these values, and nothing else changes.
     */
    ghost function Emulated(data: map<StructType, seq<int>>): map<StructType, seq<int>> {
      if PortabilitySubset !in device.extensions && device.emulatePortability then
        data[PortabilitySubsetProperties := [1]]
            [PortabilitySubsetFeatures := [1, 1, 1, 1, 1, 1, 1, 1, 1, 1, 1, 1, 1, 1, 1]]
      else data
    }

    /** All structure types behind the portability subset. */
    method LinkOthers(propertyHead: Node?, featureHead: Node?) returns (propertyChain: Node?, featureChain: Node?)
      requires Valid() && IsChain(propertyHead, ChainNodes(true, 2)) && IsChain(featureHead, ChainNodes(false, 2))
      modifies stored.Values
      ensures Valid() && Data() == old(Data())
      ensures IsChain(propertyChain, ChainNodes(true, |plan|)) && IsChain(featureChain, ChainNodes(false, |plan|))
    {
      propertyChain, featureChain := propertyHead, featureHead;
      for i := 2 to |plan|
        invariant Valid() && Data() == old(Data())
        invariant IsChain(propertyChain, ChainNodes(true, i))
        invariant IsChain(featureChain, ChainNodes(false, i))
      {
        propertyChain, featureChain := LinkOne(i, propertyChain, featureChain);
      }
    }

    lemma {:induction false} WholePlan(property: bool)
      requires Valid()
      ensures ChainNodes(property, |plan|) == NodesOf(Linked(device, plan, property))
    {
      assert plan[..|plan|] == plan;
    }

    /** The lines for one structure type. */
    method LinkOne(i: nat, propertyHead: Node?, featureHead: Node?) returns (propertyChain: Node?, featureChain: Node?)
      requires Valid() && i < |plan|
      requires IsChain(propertyHead, ChainNodes(true, i)) && IsChain(featureHead, ChainNodes(false, i))
      modifies stored[plan[i]]
      ensures Valid() && Data() == old(Data())
      ensures IsChain(propertyChain, ChainNodes(true, i + 1)) && IsChain(featureChain, ChainNodes(false, i + 1))
    {
      var t := plan[i];
      propertyChain, featureChain := propertyHead, featureHead;
      if Enabled(device, t) {
        if IsProperty(t) {
          propertyChain := Prepend(t, propertyHead, i, true, featureHead);
        } else {
          featureChain := Prepend(t, featureHead, i, false, propertyHead);
        }
      } else {
        LinkedStep(i, true);
        LinkedStep(i, false);
        assert ChainNodes(true, i + 1) == ChainNodes(true, i);
        assert ChainNodes(false, i + 1) == ChainNodes(false, i);
      }
    }

    lemma {:induction false} LinkedStep(i: nat, property: bool)
      requires Valid() && i < |plan|
      ensures ChainNodes(property, i + 1)
           == (if Enabled(device, plan[i]) && IsProperty(plan[i]) == property then [stored[plan[i]]] else [])
              + ChainNodes(property, i)
    {
      assert plan[..i + 1][..i] == plan[..i];
    }

    /** The portability subset: linked without setting pNext, or filled in if it is only emulated. */
    method LinkPortability() returns (propertyChain: Node?, featureChain: Node?)
      requires Valid() && forall t :: t in stored ==> stored[t].pNext == null
      modifies stored[PortabilitySubsetProperties], stored[PortabilitySubsetFeatures]
      ensures Valid() && Data() == Emulated(old(Data()))
      ensures IsChain(propertyChain, ChainNodes(true, 2)) && IsChain(featureChain, ChainNodes(false, 2))
    {
      propertyChain, featureChain := null, null;
      if Enabled(device, PortabilitySubsetProperties) {
        propertyChain := stored[PortabilitySubsetProperties];
        featureChain := stored[PortabilitySubsetFeatures];
      } else if device.emulatePortability {
        stored[PortabilitySubsetProperties].payload := [1];
        stored[PortabilitySubsetFeatures].payload := [1, 1, 1, 1, 1, 1, 1, 1, 1, 1, 1, 1, 1, 1, 1];
      }
      FirstTwo();
    }

    lemma {:induction false} FirstTwo()
      requires Valid()
      ensures var linked := Enabled(device, PortabilitySubsetProperties);
              && ChainNodes(true, 2) == (if linked then [stored[PortabilitySubsetProperties]] else [])
              && ChainNodes(false, 2) == (if linked then [stored[PortabilitySubsetFeatures]] else [])
    {
      FirstTwoOf(true);
      FirstTwoOf(false);
    }

    lemma {:induction false} FirstTwoOf(property: bool)
      requires Valid()
      ensures ChainNodes(property, 2)
           == if Enabled(device, PortabilitySubsetProperties) then [stored[plan[if property then 0 else 1]]] else []
    {
      assert ChainNodes(property, 0) == [];
      LinkedStep(0, property);
      LinkedStep(1, property);
    }

    /** Puts the structure of type `t`, the `i`-th of the plan, in front of its chain; the other chain stays. */
    method Prepend(t: StructType, head: Node?, ghost i: nat, ghost property: bool, ghost other: Node?)
      returns (newHead: Node)
      requires Valid() && i < |plan| && t == plan[i] && Enabled(device, t) && IsProperty(t) == property
      requires IsChain(head, ChainNodes(property, i)) && IsChain(other, ChainNodes(!property, i))
      modifies stored[t]
      ensures Valid() && newHead == stored[t] && Data() == old(Data())
      ensures IsChain(newHead, ChainNodes(property, i + 1)) && IsChain(other, ChainNodes(!property, i + 1))
    {
      BeforePrepend(i, property);
      newHead := stored[t];
      Link(newHead, head, ChainNodes(property, i), other, ChainNodes(!property, i));
    }

    lemma {:induction false} BeforePrepend(i: nat, property: bool)
      requires Valid() && i < |plan| && Enabled(device, plan[i]) && IsProperty(plan[i]) == property
      ensures ChainNodes(property, i + 1) == [stored[plan[i]]] + ChainNodes(property, i)
      ensures ChainNodes(!property, i + 1) == ChainNodes(!property, i)
      ensures stored[plan[i]] !in ChainNodes(property, i) && stored[plan[i]] !in ChainNodes(!property, i)
    {
      LinkedStep(i, property);
      LinkedStep(i, !property);
      NotYetLinked(i, property);
      NotYetLinked(i, !property);
      assert [] + ChainNodes(!property, i) == ChainNodes(!property, i);
    }

    lemma {:induction false} NotYetLinked(i: nat, property: bool)
      requires Valid() && i < |plan|
      ensures stored[plan[i]] !in ChainNodes(property, i)
    {
      var ts := Linked(device, plan[..i], property);
      forall n | n in ChainNodes(property, i)
        ensures n != stored[plan[i]]
      {
        var k :| 0 <= k < |ChainNodes(property, i)| && ChainNodes(property, i)[k] == n;
        assert ts[k] in ts && plan[i] !in plan[..i];
      }
    }

    // ---------- FillPNextChain ----------

    /** The payload of a structure of type `t` after the layer had its say. */
    ghost function Filled(data: map<StructType, seq<int>>, t: StructType, payload: seq<int>): seq<int>
      requires forall t: StructType :: !t.Other? ==> t in data
    {
      if Fills(device, t) then data[t] else payload
    }

    /**
     Walks the chain from `place`. Every node keeps its identity, its type and its link; the payload of a node is
     the stored one if the layer fills its type, and unchanged otherwise.
     */
    method FillPNextChain(place0: Node?, ghost chain: seq<Node>)
      requires Valid() && IsChain(place0, chain)
      requires forall n :: n in chain ==> n !in stored.Values
      modifies chain
      ensures Valid() && IsChain(place0, chain)
      ensures Data() == old(Data())
      ensures forall n :: n in chain ==>
                n.pNext == old(n.pNext) && n.sType == old(n.sType)
                && n.payload == Filled(Data(), n.sType, old(n.payload))
    {
      ghost var data := Data();
      ghost var types := seq(|chain|, i requires 0 <= i < |chain| reads chain => chain[i].sType);
      ghost var payloads := seq(|chain|, i requires 0 <= i < |chain| reads chain => chain[i].payload);
      ChainDistinct(place0, chain);
      var place := place0;
      ghost var k := 0;
      while place != null
        invariant k <= |chain| && place == if k < |chain| then chain[k] else null
        invariant Valid() && Data() == data && FilledUpTo(chain, k, types, payloads, data)
        decreases |chain| - k
      {
        FillOne(place, chain, k, types, payloads, data);
        place := place.pNext;
        k := k + 1;
      }
    }

    /** The first `k` nodes of a chain are filled; their links, types and first payloads are these. */
    ghost predicate FilledUpTo(chain: seq<Node>, k: nat, types: seq<StructType>, payloads: seq<seq<int>>,
                               data: map<StructType, seq<int>>)
      requires |types| == |payloads| == |chain| && forall t: StructType :: !t.Other? ==> t in data
      reads chain
    {
      forall i :: 0 <= i < |chain| ==>
        && chain[i].pNext == Behind(chain, i) && chain[i].sType == types[i]
        && chain[i].payload == if i < k then Filled(data, types[i], payloads[i]) else payloads[i]
    }

    method FillOne(node: Node, ghost chain: seq<Node>, ghost k: nat, ghost types: seq<StructType>,
                   ghost payloads: seq<seq<int>>, ghost data: map<StructType, seq<int>>)
      requires Valid() && Data() == data && node !in stored.Values && k < |chain| && node == chain[k]
      requires forall i :: 0 <= i < |chain| && i != k ==> chain[i] != node
      requires |types| == |payloads| == |chain| && FilledUpTo(chain, k, types, payloads, data)
      modifies node
      ensures Valid() && Data() == data && FilledUpTo(chain, k + 1, types, payloads, data)
    {
      Overwrite(node);
    }

    lemma {:induction false} NotStored(node: Node)
      requires node !in stored.Values
      ensures forall t :: t in stored ==> stored[t] != node
    {
      forall t | t in stored ensures stored[t] != node {
        assert stored[t] in stored.Values;
      }
    }

    /** One branch of the long if: copies the stored structure over the node and restores the link. */
    method Overwrite(node: Node)
      requires Valid() && node !in stored.Values
      modifies node
      ensures Valid() && Data() == old(Data())
      ensures node.pNext == old(node.pNext) && node.sType == old(node.sType)
      ensures node.payload == Filled(Data(), node.sType, old(node.payload))
    {
      NotStored(node);
      if !node.sType.Other? && Fills(device, node.sType) {
        var source := stored[node.sType];
        var pNext := node.pNext;
        node.sType, node.pNext, node.payload := source.sType, source.pNext, source.payload;
        node.pNext := pNext;
      }
    }
  }
}
