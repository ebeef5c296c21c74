/**
  The legacy single-file map as flux-map reads it
  (flux-map/src/convert/fluxlegacy.rs): three `SizedString`s (u16
  big-endian length and bytes: artist, song name, mapper), a `SizedVec`
  (u32 big-endian length and bytes: the comma/pipe note track), then every
  remaining byte as the audio. Conversion to a FLUX map reads the note
  track with `convert_ss_to_flux`.
*/
module FluxLegacy {
  import opened Bytes
  import opened Text
  import opened Results
  import FluxFormat

  /** `FluxLegacy`. */
  datatype Legacy = Legacy(artist: seq<byte>, songName: seq<byte>, mapper: seq<byte>, mapData: seq<byte>, mp3: seq<byte>)

  /** `FluxLegacyError`. */
  datatype LegacyError = BadFormat(pos: nat)

  /** At `pos`: a `w`-byte big-endian length holding `|f|`, then the bytes of `f`. */
  predicate Prefixed(data: seq<byte>, pos: nat, w: nat, f: seq<byte>) {
    pos + w + |f| <= |data| && FromBE(data[pos..pos + w]) == |f| && data[pos + w..pos + w + |f|] == f
  }

  /**
    A length-prefixed field at `pos`; binrw puts the cursor back at the
    start of a field it cannot read, so a short read reports `pos`.
  */
  function FieldAt(data: seq<byte>, pos: nat, w: nat): (r: Outcome<(seq<byte>, nat), LegacyError>)
    ensures r.Err? ==> r.error == BadFormat(pos)
    ensures r.Ok? ==> r.value.1 == pos + w + |r.value.0| && Prefixed(data, pos, w, r.value.0)
    ensures !r.Panic?
  {
    match FluxFormat.ReadSized(data, pos, w)
    case Short => Err(BadFormat(pos))
    case Got(v, next) => Ok((v, next))
  }

  /**
    `FluxLegacy::try_from` a cursor at `start`. The field reads come first,
    then `read_to_end` takes the rest as audio, then a note track that is
    not UTF-8 is `BadFormat` at the position `read_to_end` left, the end of
    the data; only after that can the three `to_string().unwrap()` calls
    panic.
  */
  function Decode(data: seq<byte>, start: nat): (r: Outcome<Legacy, LegacyError>)
  {
    match FieldAt(data, start, 2)
    case Err(e) => Err(e)
    case Panic => Panic
    case Ok(artist) =>
      match FieldAt(data, artist.1, 2)
      case Err(e) => Err(e)
      case Panic => Panic
      case Ok(song) =>
        match FieldAt(data, song.1, 2)
        case Err(e) => Err(e)
        case Panic => Panic
        case Ok(mapper) =>
          match FieldAt(data, mapper.1, 4)
          case Err(e) => Err(e)
          case Panic => Panic
          case Ok(track) =>
            if !IsUtf8(track.0) then Err(BadFormat(|data|))
            else if !IsUtf8(artist.0) || !IsUtf8(song.0) || !IsUtf8(mapper.0) then Panic
            else Ok(Legacy(artist.0, song.0, mapper.0, track.0, data[track.1..]))
  }

  /** `FluxLegacy::try_from(&[u8])`: the cursor version from position 0. */
  method TryFromBytes(data: seq<byte>) returns (r: Outcome<Legacy, LegacyError>)
    ensures r == Decode(data, 0)
  {
    r := TryFromCursor(data, 0);
  }

  /** `FluxLegacy::try_from(Cursor)`: the cursor advances over the four fields, then to the end. */
  method TryFromCursor(data: seq<byte>, start: nat) returns (r: Outcome<Legacy, LegacyError>)
    ensures r == Decode(data, start)
  {
    var pos := start;
    var artist := FieldAt(data, pos, 2);
    if !artist.Ok? {
      return Err(artist.error);
    }
    pos := artist.value.1;
    var song := FieldAt(data, pos, 2);
    if !song.Ok? {
      return Err(song.error);
    }
    pos := song.value.1;
    var mapper := FieldAt(data, pos, 2);
    if !mapper.Ok? {
      return Err(mapper.error);
    }
    pos := mapper.value.1;
    var track := FieldAt(data, pos, 4);
    if !track.Ok? {
      return Err(track.error);
    }
    pos := track.value.1;
    var mp3 := data[pos..];
    pos := |data|;
    if !IsUtf8(track.value.0) {
      return Err(BadFormat(pos));
    }
    if !IsUtf8(artist.value.0) || !IsUtf8(song.value.0) || !IsUtf8(mapper.value.0) {
      return Panic;
    }
    return Ok(Legacy(artist.value.0, song.value.0, mapper.value.0, track.value.0, mp3));
  }

  /**
    A successful decode reads the four fields in order from `start`, and the
    audio is every byte after the track, possibly none.
  */
  lemma DecodeFields(data: seq<byte>, start: nat, l: Legacy, p1: nat, p2: nat, p3: nat, p4: nat)
    requires Decode(data, start) == Ok(l)
    requires p1 == start + 2 + |l.artist| && p2 == p1 + 2 + |l.songName|
    requires p3 == p2 + 2 + |l.mapper| && p4 == p3 + 4 + |l.mapData|
    ensures Prefixed(data, start, 2, l.artist) && Prefixed(data, p1, 2, l.songName)
    ensures Prefixed(data, p2, 2, l.mapper) && Prefixed(data, p3, 4, l.mapData)
    ensures p4 <= |data| && l.mp3 == data[p4..]
    ensures IsUtf8(l.artist) && IsUtf8(l.songName) && IsUtf8(l.mapper) && IsUtf8(l.mapData)
  {
    var artist := FieldAt(data, start, 2);
    if !artist.Ok? {
      assert false;
    }
    var song := FieldAt(data, artist.value.1, 2);
    if !song.Ok? {
      assert false;
    }
    var mapper := FieldAt(data, song.value.1, 2);
    if !mapper.Ok? {
      assert false;
    }
    var track := FieldAt(data, mapper.value.1, 4);
    if !track.Ok? {
      assert false;
    }
    assert l == Legacy(artist.value.0, song.value.0, mapper.value.0, track.value.0, data[track.value.1..]);
    assert artist.value.1 == p1 && song.value.1 == p2 && mapper.value.1 == p3 && track.value.1 == p4;
  }

  // ---------------------------------------------------------------------
  // Into<FluxMap>

  /**
    The map `into` builds: metadata `mapper`, `artist` and `song_name`, the
    chart `default` read from the note track, the audio as music and no
    image; `None` when `convert_ss_to_flux` panics.
  */
  function ToFlux(l: Legacy, parseF32: seq<byte> -> Option<FluxFormat.F32>): (r: Option<FluxFormat.MapValue>)
  {
    match FluxFormat.SsToFlux(l.mapData, parseF32)
    case None => None
    case Some(notes) =>
      Some(FluxFormat.MapValue(
        1,
        map[FluxFormat.MAPPER := l.mapper, FluxFormat.ARTIST := l.artist, FluxFormat.SONG_NAME := l.songName],
        map[FluxFormat.DEFAULT := notes],
        l.mp3,
        None))
  }

  /** The converted map holds the three metadata entries, one chart read from the track, the audio, and no image. */
  lemma ToFluxContents(l: Legacy, parseF32: seq<byte> -> Option<FluxFormat.F32>)
    ensures ToFlux(l, parseF32).Some? <==> FluxFormat.SsToFlux(l.mapData, parseF32).Some?
    ensures ToFlux(l, parseF32).Some? ==>
      var m := ToFlux(l, parseF32).value;
      && m.meta.Keys == {FluxFormat.MAPPER, FluxFormat.ARTIST, FluxFormat.SONG_NAME}
      && m.meta[FluxFormat.MAPPER] == l.mapper && m.meta[FluxFormat.ARTIST] == l.artist
      && m.meta[FluxFormat.SONG_NAME] == l.songName
      && m.difficulties == map[FluxFormat.DEFAULT := FluxFormat.SsToFlux(l.mapData, parseF32).value]
      && m.music == l.mp3 && m.image.None?
  {
    assert FluxFormat.MAPPER[0] != FluxFormat.ARTIST[0] && FluxFormat.MAPPER[0] != FluxFormat.SONG_NAME[0];
    assert FluxFormat.ARTIST[0] != FluxFormat.SONG_NAME[0];
  }

  /** `into`: a new `FluxMap` filled through its builders; `None` when the track conversion panics. */
  method IntoFluxMap(l: Legacy, parseF32: seq<byte> -> Option<FluxFormat.F32>) returns (r: Option<FluxFormat.FluxMap>)
    ensures r.Some? <==> ToFlux(l, parseF32).Some?
    ensures r.Some? ==> fresh(r.value) && r.value.Value() == ToFlux(l, parseF32).value
  {
    var m := new FluxFormat.FluxMap();
    m.AddMetadata(FluxFormat.MAPPER, l.mapper);
    m.AddMetadata(FluxFormat.ARTIST, l.artist);
    m.AddMetadata(FluxFormat.SONG_NAME, l.songName);
    var notes := FluxFormat.ConvertSsToFlux(l.mapData, parseF32);
    if notes.None? {
      return None;
    }
    m.AddDifficulty(FluxFormat.DEFAULT, notes.value);
    m.AddMusic(l.mp3);
    return Some(m);
  }
}
