/**
 * The pure rules a decoder uses to pick a codec: the 4K test, the
 * software/hardware classification of codec names, and the first-match
 * selection over the platform's codec list.
 */
module CodecNames {
  import opened Common

  /** Kotlin's `Int`. */
  type Int32 = x: int | -0x8000_0000 <= x < 0x8000_0000

  /** Two's-complement wrap-around of an exact integer into `Int`, as Kotlin's `Int` arithmetic does. */
  function WrapInt32(x: int): (r: Int32)
    ensures (r - x) % 0x1_0000_0000 == 0
    ensures -0x8000_0000 <= x < 0x8000_0000 ==> r == x
  {
    (x + 0x8000_0000) % 0x1_0000_0000 - 0x8000_0000
  }

  /** Pixel count above which a frame counts as 4K: a 2120 x 2120 frame. */
  const Threshold4K: int := 2120 * 2120

  /** The 4K test with the pixel count computed exactly. */
  function Is4K(width: Int32, height: Int32): bool
  {
    width * height > Threshold4K
  }

  /**
   * The 4K test as written: `width * height` is an `Int` product and wraps
   * around. Where the product fits in an `Int`, it agrees with the exact test.
   */
  function Is4KAsWritten(width: Int32, height: Int32): (r: bool)
    ensures -0x8000_0000 <= width * height < 0x8000_0000 ==> (r <==> Is4K(width, height))
  {
    WrapInt32(width * height) > Threshold4K
  }

  /** A frame at least as wide and as tall as a 4K frame is itself 4K. */
  lemma Is4KMonotonic(width: Int32, height: Int32, width': Int32, height': Int32)
    requires 0 <= width <= width' && 0 <= height <= height'
    requires Is4K(width, height)
    ensures Is4K(width', height')
  {
    assert width * height <= width' * height by {
      assert (width' - width) * height >= 0;
    }
    assert width' * height <= width' * height' by {
      assert width' * (height' - height) >= 0;
    }
  }

  /**
   * The written test is not monotonic: 4096 x 2160 is 4K, but 65536 x 65536,
   * whose pixel count is 2^32, wraps to 0 and is not.
   */
  lemma Is4KAsWrittenOverflows()
    ensures Is4KAsWritten(4096, 2160)
    ensures !Is4KAsWritten(65536, 65536)
    ensures Is4K(65536, 65536)
  {
  }

  /** ASCII lower-casing of one character. */
  function LowerChar(c: char): char
  {
    if 'A' <= c <= 'Z' then (c as int + 32) as char else c
  }

  /** ASCII lower-casing of a name. */
  function Lower(s: string): (r: string)
    ensures |r| == |s|
    ensures forall i :: 0 <= i < |s| ==> r[i] == LowerChar(s[i])
  {
    seq(|s|, i requires 0 <= i < |s| => LowerChar(s[i]))
  }

  predicate StartsWith(s: string, prefix: string)
  {
    |prefix| <= |s| && s[..|prefix|] == prefix
  }

  predicate OccursAt(s: string, part: string, i: int)
  {
    0 <= i && i + |part| <= |s| && s[i..i + |part|] == part
  }

  predicate Contains(s: string, part: string)
  {
    exists i :: 0 <= i <= |s| && OccursAt(s, part, i)
  }

  /** The software-codec name rules, applied to an already lower-cased name. */
  predicate IsSoftwareName(name: string)
  {
    || StartsWith(name, "omx.google.")
    || StartsWith(name, "omx.ffmpeg.")
    || (StartsWith(name, "omx.sec.") && Contains(name, ".sw."))
    || name == "omx.qcom.video.decoder.hevcswvdec"
    || StartsWith(name, "c2.android.")
    || StartsWith(name, "c2.google.")
    || (!StartsWith(name, "omx.") && !StartsWith(name, "c2."))
  }

  /** How the platform's codec list answers a capability query for the format's MIME type. */
  datatype CapsLookup = Throws | NoCapabilities | Capabilities(supportsFormat: bool)

  /** One entry of the platform's codec list. */
  datatype CodecInfo = CodecInfo(name: string, isEncoder: bool, hardwareAccelerated: bool, caps: CapsLookup)

  /**
   * Whether a codec is hardware accelerated: from Android Q on, the platform's
   * own flag; before that, any name the software rules do not match.
   */
  predicate IsHardwareAcceleratedCompat(info: CodecInfo, sdkAtLeastQ: bool)
  {
    if sdkAtLeastQ then info.hardwareAccelerated else !IsSoftwareName(Lower(info.name))
  }

  /** Below Q, hardware is claimed only for vendor codecs, those named `omx.` or `c2.` in any case. */
  lemma HardwareNamesAreVendorNames(info: CodecInfo)
    requires IsHardwareAcceleratedCompat(info, false)
    ensures StartsWith(Lower(info.name), "omx.") || StartsWith(Lower(info.name), "c2.")
    ensures !StartsWith(Lower(info.name), "omx.google.") && !StartsWith(Lower(info.name), "c2.android.")
  {
  }

  /** The rules do not depend on letter case. */
  lemma ClassificationIgnoresCase(info: CodecInfo, renamed: string)
    requires Lower(renamed) == Lower(info.name)
    ensures IsHardwareAcceleratedCompat(info.(name := renamed), false) == IsHardwareAcceleratedCompat(info, false)
  {
  }

  /** Names from the platform's own and third-party software codecs are classed software. */
  lemma SoftwareCodecNames()
    ensures IsSoftwareName("omx.google.h264.decoder")
    ensures IsSoftwareName("c2.android.avc.decoder")
    ensures IsSoftwareName("omx.qcom.video.decoder.hevcswvdec")
    ensures IsSoftwareName("ffmpeg.h264")
  {
    assert "omx.google.h264.decoder"[..11] == "omx.google.";
    assert "c2.android.avc.decoder"[..11] == "c2.android.";
    var other := "ffmpeg.h264";
    assert other[..4][0] != "omx."[0] && other[..3][0] != "c2."[0];
  }

  /** A vendor's hardware codec name is classed hardware. */
  lemma HardwareCodecName()
    ensures !IsSoftwareName("omx.qcom.video.decoder.avc")
  {
    var qcom := "omx.qcom.video.decoder.avc";
    assert qcom[..11][4] != "omx.google."[4] && qcom[..11][4] != "omx.ffmpeg."[4];
    assert qcom[..8][4] != "omx.sec."[4];
    assert qcom[..11][0] != "c2.android."[0] && qcom[..10][0] != "c2.google."[0];
    assert qcom != "omx.qcom.video.decoder.hevcswvdec" by {
      assert |qcom| != |"omx.qcom.video.decoder.hevcswvdec"|;
    }
    assert qcom[..4] == "omx.";
  }

  /** A Samsung `omx.sec.` codec is software exactly when its name holds `.sw.`. */
  lemma SamsungCodecNames()
    ensures IsSoftwareName("omx.sec.avc.sw.dec")
    ensures !IsSoftwareName("omx.sec.avc.dec")
  {
    assert OccursAt("omx.sec.avc.sw.dec", ".sw.", 11);
    var plain := "omx.sec.avc.dec";
    forall i | 0 <= i <= |plain| ensures !OccursAt(plain, ".sw.", i) {
      if i + 4 <= |plain| {
        assert plain[i + 1] != 's' || plain[i + 2] != 'w';
        assert plain[i..i + 4][1] == plain[i + 1] && plain[i..i + 4][2] == plain[i + 2];
      }
    }
    assert plain[..11][4] != "omx.google."[4] && plain[..11][4] != "omx.ffmpeg."[4];
    assert plain[..11][0] != "c2.android."[0] && plain[..10][0] != "c2.google."[0];
    assert plain[..4] == "omx.";
  }

  /**
   * Below Q, every codec whose lower-cased name has a platform or third-party
   * software prefix, or no vendor prefix at all, is classed software.
   */
  lemma SoftwarePrefixesAreNotHardware(info: CodecInfo)
    requires var name := Lower(info.name);
      || StartsWith(name, "omx.google.") || StartsWith(name, "omx.ffmpeg.")
      || StartsWith(name, "c2.android.") || StartsWith(name, "c2.google.")
      || (!StartsWith(name, "omx.") && !StartsWith(name, "c2."))
    ensures !IsHardwareAcceleratedCompat(info, false)
  {
  }

  /** Every `omx.sec.` name is classed software exactly when it holds `.sw.`. */
  lemma SamsungRule(name: string)
    requires StartsWith(name, "omx.sec.")
    ensures IsSoftwareName(name) <==> Contains(name, ".sw.")
  {
    assert name[..8][4] == name[4] && name[..8][0] == name[0];
    assert name[..4] == name[..8][..4];
    if |name| >= 11 {
      assert name[..11][4] == name[4] && name[..11][0] == name[0];
    }
    if |name| >= 10 {
      assert name[..10][0] == name[0];
    }
    assert name != "omx.qcom.video.decoder.hevcswvdec" by {
      assert "omx.qcom.video.decoder.hevcswvdec"[4] == 'q';
    }
  }

  /** Lower-casing only touches ASCII capitals. */
  lemma LowerExample()
    ensures Lower("OMX.SEC.avc.sw.dec") == "omx.sec.avc.sw.dec"
  {
  }

  /** A codec the selection loop skips before asking for its capabilities. */
  predicate Rejected(info: CodecInfo, useSoftware: bool, sdkAtLeastQ: bool)
  {
    info.isEncoder || (IsHardwareAcceleratedCompat(info, sdkAtLeastQ) && useSoftware)
  }

  /** A codec the selection loop picks: not rejected, and its capabilities support the format. */
  predicate Matches(info: CodecInfo, useSoftware: bool, sdkAtLeastQ: bool)
  {
    && !Rejected(info, useSoftware, sdkAtLeastQ)
    && info.caps.Capabilities?
    && info.caps.supportsFormat
  }

  /** The first matching codec at or after `from`. */
  function FirstMatch(infos: seq<CodecInfo>, useSoftware: bool, sdkAtLeastQ: bool, from: nat): (r: Option<nat>)
    requires from <= |infos|
    ensures r.Some? ==> from <= r.value < |infos| && Matches(infos[r.value], useSoftware, sdkAtLeastQ)
    ensures r.Some? ==> forall j :: from <= j < r.value ==> !Matches(infos[j], useSoftware, sdkAtLeastQ)
    ensures r.None? <==> forall j :: from <= j < |infos| ==> !Matches(infos[j], useSoftware, sdkAtLeastQ)
    decreases |infos| - from
  {
    if from == |infos| then None
    else if Matches(infos[from], useSoftware, sdkAtLeastQ) then Some(from)
    else FirstMatch(infos, useSoftware, sdkAtLeastQ, from + 1)
  }

  /** The name of the first matching codec, if any. */
  function FirstMatchName(infos: seq<CodecInfo>, useSoftware: bool, sdkAtLeastQ: bool): Option<string>
  {
    match FirstMatch(infos, useSoftware, sdkAtLeastQ, 0)
    case Some(i) => Some(infos[i].name)
    case None => None
  }

  /** How a codec was obtained: by the selected name, or by MIME type alone. */
  datatype CodecOrigin = ByName(name: string) | ByMime(mime: string)

  /** The codec the selection settles on, given whether creating it by name throws. */
  function SelectedCodec(mime: string, infos: seq<CodecInfo>, useSoftware: bool, sdkAtLeastQ: bool,
                         createByNameThrows: bool): (r: CodecOrigin)
    ensures r.ByMime? <==> createByNameThrows || forall j :: 0 <= j < |infos| ==> !Matches(infos[j], useSoftware, sdkAtLeastQ)
    ensures r.ByMime? ==> r.mime == mime
    ensures r.ByName? ==> exists i :: && 0 <= i < |infos| && infos[i].name == r.name
                                      && Matches(infos[i], useSoftware, sdkAtLeastQ)
                                      && forall j :: 0 <= j < i ==> !Matches(infos[j], useSoftware, sdkAtLeastQ)
  {
    match FirstMatch(infos, useSoftware, sdkAtLeastQ, 0)
    case Some(i) => if createByNameThrows then ByMime(mime) else ByName(infos[i].name)
    case None => ByMime(mime)
  }

  /**
   * Walks the codec list, skipping encoders, hardware codecs when software is
   * required, and codecs whose capability query throws, and keeps the first
   * name whose capabilities support the format; then creates the codec by
   * that name, falling back to MIME-only creation when there is none or the
   * creation throws.
   */
  method CreateDecoderByType(mime: string, infos: seq<CodecInfo>, useSoftware: bool, sdkAtLeastQ: bool,
                             createByNameThrows: bool) returns (codec: CodecOrigin)
    ensures codec == SelectedCodec(mime, infos, useSoftware, sdkAtLeastQ, createByNameThrows)
    ensures codec.ByName? ==> exists i :: 0 <= i < |infos| && infos[i].name == codec.name
                                         && Matches(infos[i], useSoftware, sdkAtLeastQ)
    ensures (forall i :: 0 <= i < |infos| ==> !Matches(infos[i], useSoftware, sdkAtLeastQ)) ==> codec == ByMime(mime)
  {
    var codecName: Option<string> := None;
    var k := 0;
    while k < |infos|
      invariant 0 <= k <= |infos|
      invariant codecName.None? ==> FirstMatch(infos, useSoftware, sdkAtLeastQ, 0) == FirstMatch(infos, useSoftware, sdkAtLeastQ, k)
      invariant codecName.Some? ==> codecName == FirstMatchName(infos, useSoftware, sdkAtLeastQ)
    {
      var info := infos[k];
      if info.isEncoder || (IsHardwareAcceleratedCompat(info, sdkAtLeastQ) && useSoftware) {
        k := k + 1;
        continue;
      }
      match info.caps {
        case Throws =>
        case NoCapabilities =>
        case Capabilities(supported) =>
          if supported {
            codecName := Some(info.name);
            break;
          }
      }
      k := k + 1;
    }
    if codecName.Some? && !createByNameThrows {
      return ByName(codecName.value);
    }
    return ByMime(mime);
  }
}
