/** The GLES3 texture object: the debug-build format gate, the device's
    memory-status accounting across initialize, resize and destroy, and the
    backup buffer kept for textures created with `BAKUP_BUFFER`. The GL calls
    themselves are left out; `FormatSize` is a parameter. */
module GLES3Texture {
  import opened Common

  /** The formats the debug gate inspects; every other format is `Plain`. */
  datatype Format = D16 | D16S8 | D24 | D24S8 | D32F | D32F_S8 | RGB8 | Plain(code: nat)

  /** The device features the gate consults. */
  datatype Feature = FormatD16 | FormatD16S8 | FormatD24 | FormatD24S8 | FormatD32F | FormatD32FS8 | FormatRGB8

  /** The device's `MemoryStatus`: two `uint` byte counters. */
  datatype MemoryStatus = MemoryStatus(bufferSize: u32, textureSize: u32)

  /** A texture's state. `gpuTexture` says whether the GPU object exists;
      `buffer` is the backup copy, `None` for `nullptr`. */
  datatype Texture = Texture(format: Format, width: u32, height: u32, depth: u32, backup: bool, size: u32,
                             isPowerOf2: bool, gpuTexture: bool, buffer: Option<seq<Byte>>,
                             isTextureView: bool)

  /** `FormatSize(format, width, height, depth)`, from the format tables
      outside this model. */
  type FormatSizeFn = (Format, u32, u32, u32) -> u32

  // ---------------------------------------------------------------- powers of two

  function Pow2(k: nat): nat {
    if k == 0 then 1 else 2 * Pow2(k - 1)
  }

  /** `math::IsPowerOfTwo` on a dimension (0 is not a power of two). */
  function IsPowerOfTwo(n: nat): bool
    decreases n
  {
    n == 1 || (n >= 2 && n % 2 == 0 && IsPowerOfTwo(n / 2))
  }

  /** Every power of two passes the test. */
  lemma {:induction false} PowerOfTwoAccepted(k: nat)
    ensures IsPowerOfTwo(Pow2(k))
  {
    if k > 0 {
      PowerOfTwoAccepted(k - 1);
      assert Pow2(k) / 2 == Pow2(k - 1);
    }
  }

  /** Only powers of two pass the test. */
  lemma {:induction false} PowerOfTwoExponent(n: nat) returns (k: nat)
    requires IsPowerOfTwo(n)
    ensures Pow2(k) == n
    decreases n
  {
    if n == 1 {
      k := 0;
    } else {
      var j := PowerOfTwoExponent(n / 2);
      k := j + 1;
    }
  }

  // ---------------------------------------------------------------- initialize

  /** The feature a format needs, if the gate checks it. */
  function RequiredFeature(format: Format): (r: Option<Feature>)
    ensures r.None? <==> format.Plain?
  {
    match format
    case D16 => Some(FormatD16)
    case D16S8 => Some(FormatD16S8)
    case D24 => Some(FormatD24)
    case D24S8 => Some(FormatD24S8)
    case D32F => Some(FormatD32F)
    case D32F_S8 => Some(FormatD32FS8)
    case RGB8 => Some(FormatRGB8)
    case Plain(_) => None
  }

  /** The debug-build gate: a format passes when it needs no feature or the
      device has the one it needs. Release builds skip the gate. */
  predicate FormatAllowed(format: Format, features: set<Feature>, debug: bool) {
    !debug || RequiredFeature(format).None? || RequiredFeature(format).value in features
  }

  /** Distinct gated formats need distinct features, so a device can lack
      exactly one of them. */
  lemma RequiredFeatureInjective(a: Format, b: Format)
    requires RequiredFeature(a).Some? && RequiredFeature(a) == RequiredFeature(b)
    ensures a == b
  {
  }

  /** The outcome of `initialize`: success, the texture and the memory
      status afterwards. */
  datatype Init = Init(ok: bool, texture: Texture, status: MemoryStatus)

  /** `initialize(TextureInfo)`. The fields are set first; a gated format
      the device lacks, or a failed backup allocation (`mallocOk` false),
      fail without touching the counters. Otherwise `textureSize` grows by
      the size once for the backup buffer, if any, and once for the GPU
      texture. A fresh backup buffer's bytes are unspecified (`junk`). */
  function Initialize(format: Format, width: u32, height: u32, depth: u32, backup: bool, features: set<Feature>,
                      debug: bool, status: MemoryStatus, mallocOk: bool, formatSize: FormatSizeFn,
                      junk: Byte): (r: Init)
    ensures r.texture.size == formatSize(format, width, height, depth)
    ensures r.texture.width == width && r.texture.height == height && r.texture.format == format
    ensures r.ok <==> FormatAllowed(format, features, debug) && (backup ==> mallocOk)
    ensures !r.ok ==> r.status == status && !r.texture.gpuTexture && r.texture.buffer.None?
    ensures r.ok ==> r.texture.gpuTexture && (r.texture.buffer.Some? <==> backup)
    ensures r.ok ==> (r.texture.isPowerOf2 <==> IsPowerOfTwo(width) && IsPowerOfTwo(height))
    ensures r.ok ==> r.status.bufferSize == status.bufferSize
    ensures r.ok && !backup ==> r.status.textureSize == AddU32(status.textureSize, r.texture.size)
  {
    var size := formatSize(format, width, height, depth);
    var t := Texture(format, width, height, depth, backup, size, false, false, None, false);
    if !FormatAllowed(format, features, debug) then Init(false, t, status)
    else if backup && !mallocOk then Init(false, t, status)
    else
      var buffer := if backup then Some(seq(size, _ => junk)) else None;
      var afterBuffer := if backup then status.(textureSize := AddU32(status.textureSize, size)) else status;
      var gpu := t.(isPowerOf2 := IsPowerOfTwo(width) && IsPowerOfTwo(height), gpuTexture := true,
                    buffer := buffer);
      Init(true, gpu, afterBuffer.(textureSize := AddU32(afterBuffer.textureSize, size)))
  }

  /** A device lacking the feature for a gated format refuses it in debug
      builds, whatever else holds. */
  lemma GateRefuses(format: Format, width: u32, height: u32, depth: u32, backup: bool, features: set<Feature>,
                    status: MemoryStatus, mallocOk: bool, formatSize: FormatSizeFn, junk: Byte)
    requires RequiredFeature(format).Some? && RequiredFeature(format).value !in features
    ensures !Initialize(format, width, height, depth, backup, features, true, status, mallocOk, formatSize,
                        junk).ok
  {
  }

  /** `initialize(TextureViewInfo)`: GLES3 has no texture views; the
      texture is marked as a view and the call fails. */
  function InitializeView(t: Texture): (r: (bool, Texture))
    ensures !r.0 && r.1.isTextureView
    ensures r.1.(isTextureView := t.isTextureView) == t
  {
    (false, t.(isTextureView := true))
  }

  // ---------------------------------------------------------------- destroy

  /** `destroy`: the GPU texture and the backup buffer are released, each
      taking the texture's size back off `textureSize`. */
  function Destroy(t: Texture, status: MemoryStatus): (r: (Texture, MemoryStatus))
    ensures !r.0.gpuTexture && r.0.buffer.None?
    ensures r.1.bufferSize == status.bufferSize
    ensures !t.gpuTexture && t.buffer.None? ==> r == (t, status)
  {
    var afterGpu := if t.gpuTexture then status.(textureSize := SubU32(status.textureSize, t.size)) else status;
    var afterBuffer := if t.buffer.Some? then afterGpu.(textureSize := SubU32(afterGpu.textureSize, t.size))
                       else afterGpu;
    (t.(gpuTexture := false, buffer := None), afterBuffer)
  }

  /** Destroying twice is destroying once. */
  lemma DestroyIdempotent(t: Texture, status: MemoryStatus)
    ensures var (t1, s1) := Destroy(t, status); Destroy(t1, s1) == (t1, s1)
  {
  }

  lemma AddSubU32(a: u32, b: u32)
    ensures SubU32(AddU32(a, b), b) == a
  {
  }

  /** A successful initialize followed by destroy leaves both counters as
      they were. */
  lemma InitDestroyBalanced(format: Format, width: u32, height: u32, depth: u32, backup: bool,
                            features: set<Feature>, debug: bool, status: MemoryStatus, mallocOk: bool,
                            formatSize: FormatSizeFn, junk: Byte)
    ensures var i := Initialize(format, width, height, depth, backup, features, debug, status, mallocOk,
                                formatSize, junk);
      Destroy(i.texture, i.status).1 == status
  {
    var i := Initialize(format, width, height, depth, backup, features, debug, status, mallocOk, formatSize, junk);
    var size := formatSize(format, width, height, depth);
    if i.ok {
      if backup {
        AddSubU32(status.textureSize, size);
        AddSubU32(AddU32(status.textureSize, size), size);
      } else {
        AddSubU32(status.textureSize, size);
      }
    }
  }

  // ---------------------------------------------------------------- resize

  /** The backup buffer after a resize to `size` bytes: the first
      `min(old, new)` bytes copied, the rest unspecified (`junk`). */
  function ResizedBuffer(prior: seq<Byte>, size: nat, junk: Byte): (r: seq<Byte>)
    ensures |r| == size
    ensures forall i :: 0 <= i < Min(|prior|, size) ==> r[i] == prior[i]
  {
    Common.Resize(prior, size, junk)
  }

  /** `resize` as written: for a change of dimensions, width, height and
      size are updated and the GPU texture resized, but the change in size
      is booked on `bufferSize`, and once more for a backup buffer. A failed
      backup allocation returns with the new dimensions and the old
      buffer. */
  function ResizeAsWritten(t: Texture, status: MemoryStatus, width: u32, height: u32, mallocOk: bool,
                           formatSize: FormatSizeFn, junk: Byte): (r: (Texture, MemoryStatus))
    requires t.gpuTexture
    ensures r.1.textureSize == status.textureSize
  {
    if t.width == width && t.height == height then (t, status)
    else
      var size := formatSize(t.format, width, height, t.depth);
      var t1 := t.(width := width, height := height, size := size);
      var s1 := status.(bufferSize := AddU32(SubU32(status.bufferSize, t.size), size));
      if t.buffer.None? || !mallocOk then (t1, s1)
      else (t1.(buffer := Some(ResizedBuffer(t.buffer.value, size, junk))),
            s1.(bufferSize := AddU32(SubU32(s1.bufferSize, t.size), size)))
  }

  /** The booking the accounting intends: the change in size moves
      `textureSize`, once for the GPU texture and once for a backup buffer
      whose reallocation succeeded. Everything else is as written. */
  function Resize(t: Texture, status: MemoryStatus, width: u32, height: u32, mallocOk: bool,
                  formatSize: FormatSizeFn, junk: Byte): (r: (Texture, MemoryStatus))
    requires t.gpuTexture
    ensures r.1.bufferSize == status.bufferSize
    ensures t.width == width && t.height == height ==> r == (t, status)
    ensures r.0.width == width && r.0.height == height && r.0.gpuTexture
    ensures r.0.size == (if t.width == width && t.height == height then t.size
                         else formatSize(t.format, width, height, t.depth))
    ensures r.0.buffer.Some? <==> t.buffer.Some?
    ensures t.buffer.Some? && mallocOk && (t.width != width || t.height != height) ==>
      && |r.0.buffer.value| == r.0.size
      && forall i :: 0 <= i < Min(|t.buffer.value|, r.0.size) ==> r.0.buffer.value[i] == t.buffer.value[i]
    ensures t.buffer.Some? && !mallocOk ==> r.0.buffer == t.buffer
  {
    if t.width == width && t.height == height then (t, status)
    else
      var size := formatSize(t.format, width, height, t.depth);
      var t1 := t.(width := width, height := height, size := size);
      var s1 := status.(textureSize := AddU32(SubU32(status.textureSize, t.size), size));
      if t.buffer.None? || !mallocOk then (t1, s1)
      else (t1.(buffer := Some(ResizedBuffer(t.buffer.value, size, junk))),
            s1.(textureSize := AddU32(SubU32(s1.textureSize, t.size), size)))
  }

  /** The two resizes agree on the texture; only the counter booked
      differs. */
  lemma ResizeAgreesOnTexture(t: Texture, status: MemoryStatus, width: u32, height: u32, mallocOk: bool,
                              formatSize: FormatSizeFn, junk: Byte)
    requires t.gpuTexture
    ensures ResizeAsWritten(t, status, width, height, mallocOk, formatSize, junk).0
         == Resize(t, status, width, height, mallocOk, formatSize, junk).0
  {
  }

  lemma SubAddU32(a: u32, b: u32, c: u32)
    ensures SubU32(AddU32(SubU32(a, b), c), c) == SubU32(a, b)
  {
    AddSubU32(SubU32(a, b), c);
  }

  /** Accounting invariant: `textureSize` holds the base plus the size once
      for a live GPU texture and once for a backup buffer of that size. */
  predicate Accounted(t: Texture, status: MemoryStatus, base: u32) {
    var withGpu := if t.gpuTexture then AddU32(base, t.size) else base;
    && (t.buffer.Some? ==> |t.buffer.value| == t.size)
    && status.textureSize == (if t.buffer.Some? then AddU32(withGpu, t.size) else withGpu)
  }

  /** A successful initialize establishes the invariant. */
  lemma InitializeAccounted(format: Format, width: u32, height: u32, depth: u32, backup: bool,
                            features: set<Feature>, debug: bool, status: MemoryStatus, mallocOk: bool,
                            formatSize: FormatSizeFn, junk: Byte)
    ensures var i := Initialize(format, width, height, depth, backup, features, debug, status, mallocOk,
                                formatSize, junk);
      Accounted(i.texture, i.status, status.textureSize)
  {
  }

  /** Rebooking a size: taking `before` off and putting `after` on. */
  lemma Rebook(base: u32, before: u32, after: u32)
    ensures AddU32(SubU32(AddU32(base, before), before), after) == AddU32(base, after)
  {
    AddSubU32(base, before);
  }

  /** The intended resize keeps the invariant when the backup buffer, if
      any, could be reallocated. */
  lemma ResizeAccounted(t: Texture, status: MemoryStatus, base: u32, width: u32, height: u32,
                        formatSize: FormatSizeFn, junk: Byte)
    requires t.gpuTexture && Accounted(t, status, base)
    ensures var (t1, s1) := Resize(t, status, width, height, true, formatSize, junk);
      Accounted(t1, s1, base)
  {
    if t.width != width || t.height != height {
      var size := formatSize(t.format, width, height, t.depth);
      Rebook(base, t.size, size);
      if t.buffer.Some? {
        Rebook(AddU32(base, t.size), t.size, size);
        Rebook(AddU32(base, size), t.size, size);
      }
    }
  }

  /** Destroying an accounted texture brings `textureSize` back to the
      base. */
  lemma DestroyAccounted(t: Texture, status: MemoryStatus, base: u32)
    requires Accounted(t, status, base)
    ensures Destroy(t, status).1.textureSize == base
  {
    if t.gpuTexture {
      AddSubU32(base, t.size);
      if t.buffer.Some? {
        AddSubU32(AddU32(base, t.size), t.size);
      }
    } else if t.buffer.Some? {
      AddSubU32(base, t.size);
    }
  }

  /** With the intended booking, initialize, any successful resize and
      destroy leave `textureSize` as it was. */
  lemma InitResizeDestroyBalanced(format: Format, width: u32, height: u32, depth: u32, backup: bool,
                                  features: set<Feature>, debug: bool, status: MemoryStatus, mallocOk: bool,
                                  formatSize: FormatSizeFn, junk: Byte, width': u32, height': u32)
    ensures var i := Initialize(format, width, height, depth, backup, features, debug, status, mallocOk,
                                formatSize, junk);
      var after := if i.ok then Resize(i.texture, i.status, width', height', true, formatSize, junk)
                   else (i.texture, i.status);
      Destroy(after.0, after.1).1.textureSize == status.textureSize
  {
    var i := Initialize(format, width, height, depth, backup, features, debug, status, mallocOk, formatSize, junk);
    InitializeAccounted(format, width, height, depth, backup, features, debug, status, mallocOk, formatSize, junk);
    if i.ok {
      ResizeAccounted(i.texture, i.status, status.textureSize, width', height', formatSize, junk);
      var after := Resize(i.texture, i.status, width', height', true, formatSize, junk);
      DestroyAccounted(after.0, after.1, status.textureSize);
    } else {
      DestroyAccounted(i.texture, i.status, status.textureSize);
    }
  }

  /** A 64-byte texture grown to 256 bytes: as written, destroy takes 256
      bytes off a counter that was only given 64, leaving `textureSize` 192
      bytes short. */
  lemma ResizeAsWrittenUnbalances()
    ensures var formatSize: FormatSizeFn := (f, w, h, d) => if w == 8 then 64 else 256;
      var start := MemoryStatus(0, 1000);
      var i := Initialize(Plain(0), 8, 8, 1, false, {}, true, start, true, formatSize, 0);
      var after := ResizeAsWritten(i.texture, i.status, 16, 16, true, formatSize, 0);
      && i.ok
      && Destroy(after.0, after.1).1.textureSize == 808
      && Destroy(after.0, after.1).1.bufferSize == 192
  {
  }
}
