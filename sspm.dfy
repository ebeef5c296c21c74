/**
  The SS+m front door of map-creator (map-creator/src/convert/sspm.rs):
  a four-byte signature `SS+m`, a little-endian u16 version, then the
  version-specific body. Version 1 goes to the SS+m version 1 parser with
  the cursor just after the version; version 2 is recognised and not read;
  any other version is refused.
*/
module Sspm {
  import opened Bytes
  import opened Results
  import SspmV1
  import FluxFormat

  /** `SSPM`: a parsed version 1 map, or the bare fact that the file is version 2. */
  datatype Sspm = V1(map1: SspmV1.Sspm1) | V2

  /**
    `MapParseError`. `V1Failed` wraps the version 1 parser's error (the
    variant `V1` of the source); `V2Failed` (the variant `V2`) is declared
    and never produced.
  */
  datatype MapParseError =
    | V1Failed(cause: SspmV1.V1Error)
    | V2Failed
    | UnknownSig(sig: seq<byte>)
    | UnknownVer(version: u16)
    | BadFormat(pos: nat)

  /** The signature bytes `S`, `S`, `+`, `m`. */
  const SIGNATURE: seq<byte> := [0x53, 0x53, 0x2B, 0x6D]

  lemma FromLE2(s: seq<byte>)
    requires |s| == 2
    ensures FromLE(s) == s[0] + 256 * s[1] as int
  {
    assert FromLE(s[1..][1..]) == 0;
  }

  /**
    `SSPM::try_from`. The signature is a `[u8; 4]`, read one byte at a
    time, so a file shorter than four bytes fails where the bytes ran out;
    the version is read whole, so a file of four or five bytes fails at 4.
  */
  function TryFrom(data: seq<byte>): (r: Outcome<Sspm, MapParseError>)
    ensures !(r.Err? && r.error.V2Failed?)
    ensures r.Err? && r.error.BadFormat? <==> |data| < 4 || (data[..4] == SIGNATURE && |data| < 6)
    ensures r.Err? && r.error.BadFormat? ==> r.error.pos == if |data| < 4 then |data| else 4
    ensures r.Err? && r.error.UnknownSig? <==> |data| >= 4 && data[..4] != SIGNATURE
    ensures r.Err? && r.error.UnknownSig? ==> r.error.sig == data[..4]
    ensures r == Ok(V2) <==> |data| >= 6 && data[..4] == SIGNATURE && data[4] == 2 && data[5] == 0
    ensures r.Err? && r.error.UnknownVer? <==>
      |data| >= 6 && data[..4] == SIGNATURE && !(data[4] in {1, 2} && data[5] == 0)
    ensures r.Err? && r.error.UnknownVer? ==> r.error.version == data[4] + 256 * data[5] as int && r.error.version !in {1, 2}
    ensures (r.Ok? && r.value.V1?) || (r.Err? && r.error.V1Failed?) || r.Panic? <==>
      |data| >= 6 && data[..4] == SIGNATURE && data[4] == 1 && data[5] == 0
    ensures r.Ok? && r.value.V1? ==> SspmV1.Parse(data, 6) == Ok(r.value.map1)
    ensures r.Err? && r.error.V1Failed? ==> SspmV1.Parse(data, 6) == Err(r.error.cause)
    ensures r.Panic? ==> SspmV1.Parse(data, 6) == Panic
  {
    if |data| < 4 then Err(BadFormat(|data|))
    else if data[..4] != SIGNATURE then Err(UnknownSig(data[..4]))
    else if |data| < 6 then Err(BadFormat(4))
    else
      FromLE2(data[4..6]);
      var version: u16 := FromLE(data[4..6]);
      if version == 1 then
        match SspmV1.Parse(data, 6)
        case Ok(s) => Ok(V1(s))
        case Err(e) => Err(V1Failed(e))
        case Panic => Panic
      else if version == 2 then Ok(V2)
      else Err(UnknownVer(version))
  }

  /** `try_from` with its cursor: the signature, one u16 read, then the version's branch. */
  method TryFromBytes(data: seq<byte>) returns (r: Outcome<Sspm, MapParseError>)
    ensures r == TryFrom(data)
  {
    var sig := ReadSignature(data);
    if sig.Err? {
      return Err(BadFormat(sig.error));
    }
    if sig.value != SIGNATURE {
      return Err(UnknownSig(sig.value));
    }
    var pos := 4;
    if pos + 2 > |data| {
      return Err(BadFormat(pos));
    }
    FromLE2(data[pos..pos + 2]);
    var version: u16 := data[pos] + 256 * data[pos + 1] as int;
    pos := pos + 2;
    if version == 1 {
      var v1 := SspmV1.TryFromCursor(data, pos);
      match v1
      case Ok(s) => return Ok(V1(s));
      case Err(e) => return Err(V1Failed(e));
      case Panic => return Panic;
    } else if version == 2 {
      return Ok(V2);
    }
    return Err(UnknownVer(version));
  }

  /** The `[u8; 4]` signature read one byte at a time; a short read reports where the bytes ran out. */
  method ReadSignature(data: seq<byte>) returns (r: Outcome<seq<byte>, nat>)
    ensures r.Ok? <==> |data| >= 4
    ensures !r.Panic?
    ensures r.Ok? ==> r.value == data[..4]
    ensures r.Err? ==> r.error == |data|
  {
    var pos := 0;
    var sig: seq<byte> := [];
    while |sig| < 4
      invariant pos == |sig| <= 4 && pos <= |data|
      invariant sig == data[..pos]
    {
      if pos >= |data| {
        return Err(pos);
      }
      sig := sig + [data[pos]];
      pos := pos + 1;
    }
    return Ok(sig);
  }

  /**
    A file made of the signature, a version `v` written little-endian and
    any body is classified by `v` alone: version 1 is whatever the version 1
    parser makes of the body at offset 6, version 2 is `V2`, anything else
    is `UnknownVer(v)`.
  */
  lemma TryFromHeader(v: u16, body: seq<byte>)
    ensures var data := SIGNATURE + LE(v, 2) + body;
      && (v == 1 ==> TryFrom(data) == match SspmV1.Parse(data, 6)
                                     case Ok(s) => Ok(V1(s))
                                     case Err(e) => Err(V1Failed(e))
                                     case Panic => Panic)
      && (v == 2 ==> TryFrom(data) == Ok(V2))
      && (v !in {1, 2} ==> TryFrom(data) == Err(UnknownVer(v)))
  {
    var data := SIGNATURE + LE(v, 2) + body;
    assert data[..4] == SIGNATURE;
    assert data[4..6] == LE(v, 2);
    Pow256Values();
    FromLEOfLEFits(v, 2);
  }

  // ---------------------------------------------------------------------
  // Into<FluxMap>

  /** `into`: a version 1 map converts as the version 1 converter does; a version 2 map panics (`None`). */
  function IntoFlux(s: Sspm): (r: Option<FluxFormat.MapValue>)
    ensures r.Some? <==> s.V1?
  {
    match s
    case V1(x) => Some(SspmV1.ToFlux(x))
    case V2 => None
  }

  /**
    What a version 1 map becomes: metadata `mapper` (the creator line) and
    `song_name` (the name line), one chart `default` with one note per
    parsed note, the music and the image.
  */
  lemma IntoFluxContents(s: Sspm)
    requires s.V1?
    ensures var m := IntoFlux(s).value;
      && m.meta.Keys == {FluxFormat.MAPPER, FluxFormat.SONG_NAME}
      && m.meta[FluxFormat.MAPPER] == s.map1.creator && m.meta[FluxFormat.SONG_NAME] == s.map1.name
      && m.difficulties.Keys == {FluxFormat.DEFAULT}
      && |m.difficulties[FluxFormat.DEFAULT]| == |s.map1.notes|
      && m.music == s.map1.music && m.image == s.map1.image
  {
    SspmV1.ToFluxContents(s.map1);
  }

  /** `into` building a `FluxMap`; `None` where the source panics. */
  method IntoFluxMap(s: Sspm) returns (r: Option<FluxFormat.FluxMap>)
    ensures r.None? <==> s.V2?
    ensures r.Some? ==> fresh(r.value) && r.value.Value() == IntoFlux(s).value
  {
    match s
    case V1(x) =>
      var m := SspmV1.IntoFluxMap(x);
      return Some(m);
    case V2 =>
      return None;
  }
}
