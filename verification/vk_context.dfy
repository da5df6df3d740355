/** The selection rules inside the Vulkan context's `initialize`: instance
    layers and extensions, the physical device, the swapchain's colour and
    depth formats, present mode, image count and composite alpha. Every
    driver query becomes a parameter holding what the driver returned. */
module VKContext {
  import opened Common

  // ---------------------------------------------------------------- layers and extensions

  /** The requested names the driver supports, in request order. */
  function FilterSupported(requested: seq<string>, supported: seq<string>): (r: seq<string>)
    ensures |r| <= |requested|
    ensures forall i :: 0 <= i < |r| ==> r[i] in requested && r[i] in supported
    decreases |requested|
  {
    if |requested| == 0 then []
    else
      var pre := FilterSupported(requested[..|requested| - 1], supported);
      var name := requested[|requested| - 1];
      assert forall i :: 0 <= i < |pre| ==> pre[i] in requested by {
        assert forall x :: x in requested[..|requested| - 1] ==> x in requested;
      }
      pre + (if name in supported then [name] else [])
  }

  /** No supported request is dropped. */
  lemma {:induction false} FilterSupportedComplete(requested: seq<string>, supported: seq<string>, j: nat)
    requires j < |requested| && requested[j] in supported
    ensures requested[j] in FilterSupported(requested, supported)
    decreases |requested|
  {
    if j < |requested| - 1 {
      FilterSupportedComplete(requested[..|requested| - 1], supported, j);
    }
  }

  /** Filtering commutes with concatenation, so request order is kept. */
  lemma {:induction false} FilterSupportedAppend(a: seq<string>, b: seq<string>, supported: seq<string>)
    ensures FilterSupported(a + b, supported) == FilterSupported(a, supported) + FilterSupported(b, supported)
    decreases |b|
  {
    if |b| == 0 {
      assert a + b == a;
    } else {
      assert (a + b)[..|a + b| - 1] == a + b[..|b| - 1];
      FilterSupportedAppend(a, b[..|b| - 1], supported);
    }
  }

  /** All names of a group are supported. */
  predicate AllSupported(group: seq<string>, supported: seq<string>) {
    forall i :: 0 <= i < |group| ==> group[i] in supported
  }

  /** The validation layers: the first group of the priority list that the
      driver supports in full, or none. */
  function SelectValidationLayers(priority: seq<seq<string>>, supported: seq<string>): (r: seq<string>)
    ensures r == [] || exists k :: 0 <= k < |priority| && r == priority[k] && AllSupported(r, supported)
    ensures (exists k :: 0 <= k < |priority| && AllSupported(priority[k], supported)) ==>
      exists k :: 0 <= k < |priority| && r == priority[k] && AllSupported(r, supported)
    decreases |priority|
  {
    if |priority| == 0 then []
    else if AllSupported(priority[0], supported) then priority[0]
    else
      var r := SelectValidationLayers(priority[1..], supported);
      assert forall k :: 1 <= k < |priority| ==> priority[k] == priority[1..][k - 1];
      r
  }

  /** A group is chosen only if every group before it was missing a layer. */
  lemma {:induction false} ValidationLayersFirstFit(priority: seq<seq<string>>, supported: seq<string>, k: nat)
    requires k < |priority| && AllSupported(priority[k], supported)
    requires forall j :: 0 <= j < k ==> !AllSupported(priority[j], supported)
    ensures SelectValidationLayers(priority, supported) == priority[k]
    decreases k
  {
    if k > 0 {
      ValidationLayersFirstFit(priority[1..], supported, k - 1);
    }
  }

  const KHR_SURFACE: string := "VK_KHR_surface"
  const KHR_PROPERTIES2: string := "VK_KHR_get_physical_device_properties2"
  const EXT_DEBUG_UTILS: string := "VK_EXT_debug_utils"
  const EXT_DEBUG_REPORT: string := "VK_EXT_debug_report"

  /** The requested instance extensions: surface, properties2 and the
      platform's surface extension, plus (with validation) debug utils when
      supported, else debug report. */
  function RequestedExtensions(platformSurface: string, validation: bool, supported: seq<string>): (r: seq<string>)
    ensures |r| == if validation then 4 else 3
    ensures r[..3] == [KHR_SURFACE, KHR_PROPERTIES2, platformSurface]
    ensures validation ==> r[3] == if EXT_DEBUG_UTILS in supported then EXT_DEBUG_UTILS else EXT_DEBUG_REPORT
  {
    [KHR_SURFACE, KHR_PROPERTIES2, platformSurface]
    + (if !validation then [] else if EXT_DEBUG_UTILS in supported then [EXT_DEBUG_UTILS] else [EXT_DEBUG_REPORT])
  }

  /** The instance's layers and extensions: the requests filtered by what
      the driver supports. */
  function InstanceLayersAndExtensions(priority: seq<seq<string>>, platformSurface: string, validation: bool,
                                       supportedLayers: seq<string>, supportedExtensions: seq<string>)
    : (r: (seq<string>, seq<string>))
    ensures forall i :: 0 <= i < |r.0| ==> r.0[i] in supportedLayers
    ensures forall i :: 0 <= i < |r.1| ==> r.1[i] in supportedExtensions
    ensures !validation ==> r.0 == []
  {
    var layers := if validation then SelectValidationLayers(priority, supportedLayers) else [];
    (FilterSupported(layers, supportedLayers),
     FilterSupported(RequestedExtensions(platformSurface, validation, supportedExtensions), supportedExtensions))
  }

  /** A driver that supports the surface extension gets it enabled. */
  lemma SurfaceExtensionEnabled(priority: seq<seq<string>>, platformSurface: string, validation: bool,
                                supportedLayers: seq<string>, supportedExtensions: seq<string>)
    requires KHR_SURFACE in supportedExtensions
    ensures KHR_SURFACE in InstanceLayersAndExtensions(priority, platformSurface, validation, supportedLayers,
                                                       supportedExtensions).1
  {
    var extensions := RequestedExtensions(platformSurface, validation, supportedExtensions);
    assert extensions[0] == KHR_SURFACE;
    FilterSupportedComplete(extensions, supportedExtensions, 0);
  }

  // ---------------------------------------------------------------- physical device

  datatype DeviceType = OtherDevice | IntegratedGpu | DiscreteGpu | VirtualGpu | CpuDevice

  /** Index of the first discrete GPU at or after `i`, or `|types|`. */
  function FirstDiscrete(types: seq<DeviceType>, i: nat): (r: nat)
    requires i <= |types|
    ensures i <= r <= |types|
    ensures r < |types| ==> types[r].DiscreteGpu?
    ensures forall j :: i <= j < r ==> !types[j].DiscreteGpu?
    decreases |types| - i
  {
    if i == |types| || types[i].DiscreteGpu? then i else FirstDiscrete(types, i + 1)
  }

  /** The physical device: none when enumeration failed or found nothing,
      otherwise the first discrete GPU, or device 0 when there is none. */
  function SelectDevice(enumerationFailed: bool, types: seq<DeviceType>): (r: Option<nat>)
    ensures r.None? <==> enumerationFailed || |types| == 0
    ensures r.Some? ==> r.value < |types|
    ensures r.Some? && types[r.value].DiscreteGpu? ==> forall j :: 0 <= j < r.value ==> !types[j].DiscreteGpu?
    ensures r.Some? && !types[r.value].DiscreteGpu? ==>
      r.value == 0 && forall j :: 0 <= j < |types| ==> !types[j].DiscreteGpu?
  {
    if enumerationFailed || |types| == 0 then None
    else
      var i := FirstDiscrete(types, 0);
      if i == |types| then Some(0) else Some(i)
  }

  /** A machine with a discrete GPU always gets one. */
  lemma DiscreteGpuPreferred(types: seq<DeviceType>, j: nat)
    requires j < |types| && types[j].DiscreteGpu?
    ensures SelectDevice(false, types).Some? && types[SelectDevice(false, types).value].DiscreteGpu?
  {
  }

  // ---------------------------------------------------------------- colour format

  /** The Vulkan formats the colour rule names. */
  datatype VkFormat = Undefined | B8G8R8A8Unorm | R8G8B8A8Unorm | R8G8B8A8Srgb | R5G6B5UnormPack16
                    | OtherVkFormat(code: nat)

  /** The engine's colour formats. */
  datatype ColorFormat = BGRA8 | RGBA8 | SRGB8_A8 | R5G6B5

  datatype SurfaceFormat = SurfaceFormat(format: VkFormat, colorSpace: nat)

  /** The chosen swapchain format: the engine format, the Vulkan format and
      the colour space. */
  datatype ColorChoice = ColorChoice(engine: ColorFormat, format: VkFormat, colorSpace: nat)

  /** Index of the first B8G8R8A8_UNORM entry, or `|formats|`. */
  function FindBgra(formats: seq<SurfaceFormat>, i: nat): (r: nat)
    requires i <= |formats|
    ensures i <= r <= |formats|
    ensures r < |formats| ==> formats[r].format == B8G8R8A8Unorm
    ensures forall j :: i <= j < r ==> formats[j].format != B8G8R8A8Unorm
    decreases |formats| - i
  {
    if i == |formats| || formats[i].format == B8G8R8A8Unorm then i else FindBgra(formats, i + 1)
  }

  /** The engine format for a Vulkan format picked as first entry; any other
      format leaves the default BGRA8 (the debug assertion is not modelled). */
  function EngineColor(f: VkFormat): ColorFormat {
    match f
    case R8G8B8A8Unorm => RGBA8
    case R8G8B8A8Srgb => SRGB8_A8
    case R5G6B5UnormPack16 => R5G6B5
    case _ => BGRA8
  }

  /** The colour rule. A lone UNDEFINED entry means no preference:
      B8G8R8A8_UNORM with that entry's colour space. Otherwise the first
      B8G8R8A8_UNORM entry, else the first entry. The driver reports at
      least one format. */
  function SelectColor(formats: seq<SurfaceFormat>): (r: ColorChoice)
    requires |formats| >= 1
    ensures |formats| == 1 && formats[0].format == Undefined ==>
      r == ColorChoice(BGRA8, B8G8R8A8Unorm, formats[0].colorSpace)
    ensures r.format == B8G8R8A8Unorm ==> r.engine == BGRA8
    ensures r.format != B8G8R8A8Unorm ==>
      && (forall j :: 0 <= j < |formats| ==> formats[j].format != B8G8R8A8Unorm)
      && r.format == formats[0].format && r.colorSpace == formats[0].colorSpace
    ensures (exists j :: 0 <= j < |formats| && formats[j].format == B8G8R8A8Unorm) ==>
      r.format == B8G8R8A8Unorm && r.colorSpace in (set j | 0 <= j < |formats| :: formats[j].colorSpace)
  {
    if |formats| == 1 && formats[0].format == Undefined then ColorChoice(BGRA8, B8G8R8A8Unorm, formats[0].colorSpace)
    else
      var i := FindBgra(formats, 0);
      if i < |formats| then ColorChoice(BGRA8, B8G8R8A8Unorm, formats[i].colorSpace)
      else ColorChoice(EngineColor(formats[0].format), formats[0].format, formats[0].colorSpace)
  }

  /** When several entries are B8G8R8A8_UNORM, the first one's colour space
      is used. */
  lemma ColorFirstBgraWins(formats: seq<SurfaceFormat>, k: nat)
    requires k < |formats| && formats[k].format == B8G8R8A8Unorm
    requires forall j :: 0 <= j < k ==> formats[j].format != B8G8R8A8Unorm
    ensures SelectColor(formats).colorSpace == formats[k].colorSpace
  {
    var i := FindBgra(formats, 0);
    assert i == k;
  }

  // ---------------------------------------------------------------- depth format

  datatype DepthFormat = D24S8 | D32F_S8 | D16S8 | D32F | D16

  /** The engine's preference order. */
  const DEPTH_PRIORITY: seq<DepthFormat> := [D24S8, D32F_S8, D16S8, D32F, D16]

  /** The bits of a `VkFormatFeatureFlags` word the rule tests:
      `VK_FORMAT_FEATURE_SAMPLED_IMAGE_BIT` (0x1) and
      `VK_FORMAT_FEATURE_DEPTH_STENCIL_ATTACHMENT_BIT` (0x200) of the Vulkan
      specification; a flag word is the set of its bits. */
  datatype FormatFeature = SampledImage | DepthStencilAttachment | OtherFeature(bit: nat)

  /** A format whose optimal-tiling features allow both depth-stencil
      attachment and sampling. */
  predicate DepthUsable(features: set<FormatFeature>) {
    DepthStencilAttachment in features && SampledImage in features
  }

  /** The first usable format of `list[i..]`, or `fallback`. */
  function FirstUsableDepth(list: seq<DepthFormat>, i: nat, optimalTiling: DepthFormat -> set<FormatFeature>,
                            fallback: DepthFormat): (r: DepthFormat)
    requires i <= |list|
    ensures r == fallback || r in list[i..]
    ensures r in list[i..] && DepthUsable(optimalTiling(r)) ==>
      exists k :: i <= k < |list| && list[k] == r && forall j :: i <= j < k ==> !DepthUsable(optimalTiling(list[j]))
    ensures (forall j :: i <= j < |list| ==> !DepthUsable(optimalTiling(list[j]))) ==> r == fallback
    ensures (exists j :: i <= j < |list| && DepthUsable(optimalTiling(list[j]))) ==> DepthUsable(optimalTiling(r))
    decreases |list| - i
  {
    if i == |list| then fallback
    else if DepthUsable(optimalTiling(list[i])) then list[i]
    else FirstUsableDepth(list, i + 1, optimalTiling, fallback)
  }

  /** The depth rule: the first format in the preference order usable with
      optimal tiling, D24S8 when none is. */
  function SelectDepth(optimalTiling: DepthFormat -> set<FormatFeature>): (r: DepthFormat)
    ensures (exists f :: f in DEPTH_PRIORITY && DepthUsable(optimalTiling(f))) ==> DepthUsable(optimalTiling(r))
    ensures (forall f :: f in DEPTH_PRIORITY ==> !DepthUsable(optimalTiling(f))) ==> r == D24S8
    ensures DepthUsable(optimalTiling(r)) ==>
      exists k :: 0 <= k < |DEPTH_PRIORITY| && DEPTH_PRIORITY[k] == r
        && forall j :: 0 <= j < k ==> !DepthUsable(optimalTiling(DEPTH_PRIORITY[j]))
  {
    FirstUsableDepth(DEPTH_PRIORITY, 0, optimalTiling, D24S8)
  }

  /** A usable D24S8 is always taken. */
  lemma DepthPrefersD24S8(optimalTiling: DepthFormat -> set<FormatFeature>)
    requires DepthUsable(optimalTiling(D24S8))
    ensures SelectDepth(optimalTiling) == D24S8
  {
  }

  /** D16 is reached only after every other format proved unusable. */
  lemma DepthFallsThroughToD16(optimalTiling: DepthFormat -> set<FormatFeature>)
    requires !DepthUsable(optimalTiling(D24S8)) && !DepthUsable(optimalTiling(D32F_S8))
    requires !DepthUsable(optimalTiling(D16S8)) && !DepthUsable(optimalTiling(D32F))
    requires DepthUsable(optimalTiling(D16))
    ensures SelectDepth(optimalTiling) == D16
  {
  }

  // ---------------------------------------------------------------- present mode

  datatype PresentMode = Immediate | Mailbox | Fifo | FifoRelaxed
  datatype VsyncMode = Off | On | Relaxed | MailboxVsync | Half

  /** The present modes each vsync mode asks for, most preferred first. */
  function PresentPriority(vsync: VsyncMode): (r: seq<PresentMode>)
    ensures |r| >= 1 && r[|r| - 1] == Fifo
  {
    match vsync
    case Off => [Immediate, Fifo]
    case On => [Fifo]
    case Relaxed => [FifoRelaxed, Fifo]
    case MailboxVsync => [Mailbox, Immediate, Fifo]
    case Half => [Fifo]
  }

  /** The loop as written: every supported mode of the list overwrites the
      choice (there is no `break`), so the last supported one wins; FIFO
      when none is. */
  function LastSupported(list: seq<PresentMode>, supported: seq<PresentMode>): (r: PresentMode)
    ensures r == Fifo || (r in list && r in supported)
    ensures |list| > 0 && list[|list| - 1] in supported ==> r == list[|list| - 1]
    ensures (exists i :: 0 <= i < |list| && list[i] in supported) ==>
      exists i :: LastSupportedAt(list, supported, i) && list[i] == r
    ensures (forall i :: 0 <= i < |list| ==> list[i] !in supported) ==> r == Fifo
    decreases |list|
  {
    if |list| == 0 then Fifo
    else if list[|list| - 1] in supported then
      assert LastSupportedAt(list, supported, |list| - 1);
      list[|list| - 1]
    else
      var pre := list[..|list| - 1];
      assert forall i :: 0 <= i < |pre| ==> pre[i] == list[i];
      assert forall i :: LastSupportedAt(pre, supported, i) ==> LastSupportedAt(list, supported, i);
      LastSupported(pre, supported)
  }

  /** `list[i]` is supported and no later entry is. */
  predicate LastSupportedAt(list: seq<PresentMode>, supported: seq<PresentMode>, i: int) {
    0 <= i < |list| && list[i] in supported && forall j :: i < j < |list| ==> list[j] !in supported
  }

  function SelectPresentAsWritten(vsync: VsyncMode, supported: seq<PresentMode>): (r: PresentMode)
    ensures r == Fifo || r in supported
  {
    LastSupported(PresentPriority(vsync), supported)
  }

  /** The Vulkan specification requires every surface to support FIFO
      (`VkPresentModeKHR`, Window System Integration chapter). FIFO ends
      every list, so on any conforming driver the loop as written picks
      FIFO whatever vsync mode was asked for. */
  lemma AsWrittenAlwaysFifo(vsync: VsyncMode, supported: seq<PresentMode>)
    requires Fifo in supported
    ensures SelectPresentAsWritten(vsync, supported) == Fifo
  {
  }

  /** Concretely: vsync off on a driver offering IMMEDIATE and FIFO
      presents with FIFO, not IMMEDIATE. */
  lemma AsWrittenIgnoresImmediate()
    ensures SelectPresentAsWritten(Off, [Immediate, Fifo]) == Fifo
  {
  }

  /** The first supported mode of `list`, FIFO when none is. */
  function FirstSupported(list: seq<PresentMode>, supported: seq<PresentMode>): (r: PresentMode)
    ensures r == Fifo || (r in list && r in supported)
    ensures |list| > 0 && list[0] in supported ==> r == list[0]
    ensures (forall j :: 0 <= j < |list| ==> list[j] !in supported) ==> r == Fifo
    decreases |list|
  {
    if |list| == 0 then Fifo
    else if list[0] in supported then list[0]
    else FirstSupported(list[1..], supported)
  }

  /** The intended rule: the most preferred supported mode. */
  function SelectPresent(vsync: VsyncMode, supported: seq<PresentMode>): (r: PresentMode)
    ensures r == Fifo || r in supported
    ensures r in PresentPriority(vsync)
    ensures PresentPriority(vsync)[0] in supported ==> r == PresentPriority(vsync)[0]
  {
    var list := PresentPriority(vsync);
    FirstSupportedInList(list, supported);
    FirstSupported(list, supported)
  }

  /** With FIFO ending the list, the first supported mode is one of the
      list's entries. */
  lemma {:induction false} FirstSupportedInList(list: seq<PresentMode>, supported: seq<PresentMode>)
    requires |list| >= 1 && list[|list| - 1] == Fifo
    ensures FirstSupported(list, supported) in list
    decreases |list|
  {
    if |list| > 1 && list[0] !in supported {
      FirstSupportedInList(list[1..], supported);
    }
  }

  /** The intended rule skips only unsupported modes: every mode ahead of
      the choice in the list is unsupported. */
  lemma {:induction false} FirstSupportedSkipsOnlyUnsupported(list: seq<PresentMode>, supported: seq<PresentMode>,
                                                               k: nat)
    requires k < |list| && list[k] in supported
    requires forall j :: 0 <= j < k ==> list[j] !in supported
    ensures FirstSupported(list, supported) == list[k]
    decreases k
  {
    if k > 0 {
      FirstSupportedSkipsOnlyUnsupported(list[1..], supported, k - 1);
    }
  }

  /** Vsync off on a driver with IMMEDIATE presents immediately, and mailbox
      on a driver with MAILBOX uses the mailbox. */
  lemma PresentHonoursPreference(supported: seq<PresentMode>)
    ensures Immediate in supported ==> SelectPresent(Off, supported) == Immediate
    ensures Mailbox in supported ==> SelectPresent(MailboxVsync, supported) == Mailbox
  {
  }

  // ---------------------------------------------------------------- image count

  /** The swapchain image count: `max(3, minImageCount + 1)` in `uint`
      arithmetic, capped at `maxImageCount` when that is non-zero (0 means
      no limit). */
  function ImageCount(minImageCount: u32, maxImageCount: u32): (r: u32)
    ensures maxImageCount > 0 ==> r <= maxImageCount
    ensures maxImageCount == 0 ==> r >= 3
    ensures r >= Min(3, maxImageCount) || maxImageCount == 0
    ensures minImageCount < UINT_MAX && maxImageCount == 0 ==>
      r == (if minImageCount >= 2 then minImageCount + 1 else 3)
    ensures minImageCount < UINT_MAX && maxImageCount > 0 ==>
      r == Min(maxImageCount, if minImageCount >= 2 then minImageCount + 1 else 3)
    ensures minImageCount == UINT_MAX ==> r == (if maxImageCount == 0 then 3 else Min(maxImageCount, 3))
  {
    var desired := Max(3, AddU32(minImageCount, 1));
    if maxImageCount > 0 && desired > maxImageCount then maxImageCount else desired
  }

  /** Under the Vulkan specification's guarantee that a non-zero maximum is
      at least the minimum, the count lies in `[minImageCount, max]` and
      exceeds the minimum whenever the cap allows. */
  lemma ImageCountWithinCaps(minImageCount: u32, maxImageCount: u32)
    requires minImageCount < UINT_MAX
    requires maxImageCount == 0 || maxImageCount >= minImageCount
    ensures ImageCount(minImageCount, maxImageCount) >= minImageCount
    ensures maxImageCount == 0 || maxImageCount > minImageCount ==> ImageCount(minImageCount, maxImageCount) > minImageCount
  {
  }

  /** `minImageCount + 1` wraps at `UINT_MAX`, leaving 3 images, fewer than
      the minimum. */
  lemma ImageCountWraps()
    ensures ImageCount(UINT_MAX, 0) == 3
  {
  }

  // ---------------------------------------------------------------- composite alpha

  /** The bits of `VkCompositeAlphaFlagBitsKHR` (Vulkan specification,
      Window System Integration chapter: OPAQUE 0x1, PRE_MULTIPLIED 0x2,
      POST_MULTIPLIED 0x4, INHERIT 0x8); a flag word is the set of its
      bits. */
  datatype CompositeAlpha = Opaque | PreMultiplied | PostMultiplied | Inherit

  const ALPHA_PRIORITY: seq<CompositeAlpha> := [Opaque, PreMultiplied, PostMultiplied, Inherit]

  /** The first flag of `list[i..]` the surface supports, or OPAQUE. */
  function FirstSupportedFlag(list: seq<CompositeAlpha>, i: nat, supported: set<CompositeAlpha>)
    : (r: CompositeAlpha)
    requires i <= |list|
    ensures r == Opaque || r in list[i..]
    ensures r in list[i..] && r in supported ==>
      exists k :: i <= k < |list| && list[k] == r && forall j :: i <= j < k ==> list[j] !in supported
    ensures (forall j :: i <= j < |list| ==> list[j] !in supported) ==> r == Opaque
    decreases |list| - i
  {
    if i == |list| then Opaque
    else if list[i] in supported then list[i]
    else FirstSupportedFlag(list, i + 1, supported)
  }

  /** The composite-alpha rule: the first of OPAQUE, PRE_MULTIPLIED,
      POST_MULTIPLIED, INHERIT that the surface supports, OPAQUE when none
      is. */
  function SelectCompositeAlpha(supported: set<CompositeAlpha>): (r: CompositeAlpha)
    ensures supported == {} ==> r == Opaque
    ensures supported != {} ==> r in supported
  {
    var r := FirstSupportedFlag(ALPHA_PRIORITY, 0, supported);
    assert supported != {} ==> exists j :: 0 <= j < 4 && ALPHA_PRIORITY[j] in supported by {
      if supported != {} {
        var f :| f in supported;
        assert f == ALPHA_PRIORITY[0] || f == ALPHA_PRIORITY[1] || f == ALPHA_PRIORITY[2] || f == ALPHA_PRIORITY[3];
      }
    }
    assert supported == {} ==> forall j :: 0 <= j < 4 ==> ALPHA_PRIORITY[j] !in supported;
    r
  }

  /** Only a surface without OPAQUE gets anything else, and then the
      earliest supported bit in the order PRE, POST, INHERIT. */
  lemma CompositeAlphaOrder(supported: set<CompositeAlpha>)
    ensures Opaque in supported ==> SelectCompositeAlpha(supported) == Opaque
    ensures Opaque !in supported && PreMultiplied in supported ==> SelectCompositeAlpha(supported) == PreMultiplied
    ensures Opaque !in supported && PreMultiplied !in supported && PostMultiplied in supported ==>
      SelectCompositeAlpha(supported) == PostMultiplied
  {
  }
}
