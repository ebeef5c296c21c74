/**
  The legacy single-file map as map-creator writes it
  (map-creator/src/lib.rs): the artist, the song name and the mapper, each
  after its length as a big-endian u16, then the note track after its length
  as a big-endian u32, then the music with no length at all. The lengths go
  through `as u16` and `as u32`, so a field too long for its prefix has its
  length written modulo 2^16 or 2^32.
*/
module CreatorFormat {
  import opened Bytes
  import opened Text
  import opened Results
  import FluxLegacy
  import FluxFormat

  /** map-creator's `FluxMap`: three strings (UTF-8 by type), the note track and the music. */
  datatype CreatorMap = CreatorMap(
    artist: seq<byte>,
    songName: seq<byte>,
    mapper: seq<byte>,
    mapData: seq<byte>,
    music: seq<byte>)

  /** The bytes `save` hands to `fs::write`. */
  function Saved(m: CreatorMap): (flm: seq<byte>)
    ensures |flm| == 10 + |m.artist| + |m.songName| + |m.mapper| + |m.mapData| + |m.music|
  {
    BE(|m.artist|, 2) + m.artist
      + BE(|m.songName|, 2) + m.songName
      + BE(|m.mapper|, 2) + m.mapper
      + BE(|m.mapData|, 4) + m.mapData
      + m.music
  }

  /** `save` without the file write: `flm_data` extended field by field. */
  method Save(m: CreatorMap) returns (flm: seq<byte>)
    ensures flm == Saved(m)
  {
    var artistLen, songNameLen, mapperLen, mapDataLen :=
      BE(|m.artist| % TWO16, 2), BE(|m.songName| % TWO16, 2), BE(|m.mapper| % TWO16, 2), BE(|m.mapData| % TWO32, 4);
    BEMod(|m.artist|, 2);
    BEMod(|m.songName|, 2);
    BEMod(|m.mapper|, 2);
    BEMod(|m.mapData|, 4);
    flm := [];
    flm := flm + artistLen;
    flm := flm + m.artist;
    flm := flm + songNameLen;
    flm := flm + m.songName;
    flm := flm + mapperLen;
    flm := flm + m.mapper;
    flm := flm + mapDataLen;
    flm := flm + m.mapData;
    flm := flm + m.music;
  }

  /** Writing `x as uN` is writing `x`: `BE` already keeps only the low `n` bytes. */
  lemma BEMod(x: nat, n: nat)
    requires n == 2 || n == 4
    ensures BE(x % Pow256(n), n) == BE(x, n)
    ensures n == 2 ==> BE(x % TWO16, n) == BE(x, n)
    ensures n == 4 ==> BE(x % TWO32, n) == BE(x, n)
  {
    Pow256Values();
    FromBEOfBE(x, n);
    FromBEOfBE(x % Pow256(n), n);
    BEOfFromBE(BE(x, n));
    BEOfFromBE(BE(x % Pow256(n), n));
  }

  /**
    The layout: each payload copied unchanged right after its length field,
    each length field holding the payload's length modulo 2^16 (strings) or
    2^32 (track), and the music last with no prefix.
  */
  lemma SavedLayout(m: CreatorMap, p1: nat, p2: nat, p3: nat, p4: nat)
    requires p1 == 2 + |m.artist| && p2 == p1 + 2 + |m.songName|
    requires p3 == p2 + 2 + |m.mapper| && p4 == p3 + 4 + |m.mapData|
    ensures p4 + |m.music| == |Saved(m)|
    ensures FromBE(Saved(m)[..2]) == |m.artist| % TWO16 && Saved(m)[2..p1] == m.artist
    ensures FromBE(Saved(m)[p1..p1 + 2]) == |m.songName| % TWO16 && Saved(m)[p1 + 2..p2] == m.songName
    ensures FromBE(Saved(m)[p2..p2 + 2]) == |m.mapper| % TWO16 && Saved(m)[p2 + 2..p3] == m.mapper
    ensures FromBE(Saved(m)[p3..p3 + 4]) == |m.mapData| % TWO32 && Saved(m)[p3 + 4..p4] == m.mapData
    ensures Saved(m)[p4..] == m.music
  {
    var flm := Saved(m);
    var a, s, mp, md := BE(|m.artist|, 2), BE(|m.songName|, 2), BE(|m.mapper|, 2), BE(|m.mapData|, 4);
    assert flm == a + m.artist + s + m.songName + mp + m.mapper + md + m.mapData + m.music;
    assert flm[..2] == a;
    assert flm[2..p1] == m.artist;
    assert flm[p1..p1 + 2] == s;
    assert flm[p1 + 2..p2] == m.songName;
    assert flm[p2..p2 + 2] == mp;
    assert flm[p2 + 2..p3] == m.mapper;
    assert flm[p3..p3 + 4] == md;
    assert flm[p3 + 4..p4] == m.mapData;
    assert flm[p4..] == m.music;
    Pow256Values();
    FromBEOfBE(|m.artist|, 2);
    FromBEOfBE(|m.songName|, 2);
    FromBEOfBE(|m.mapper|, 2);
    FromBEOfBE(|m.mapData|, 4);
  }

  /** The lengths fit their prefixes, so no length is truncated. */
  predicate Fits(m: CreatorMap) {
    |m.artist| < TWO16 && |m.songName| < TWO16 && |m.mapper| < TWO16 && |m.mapData| < TWO32
  }

  /** With lengths that fit, the legacy reader's four field reads find the four payloads, ending where the music starts. */
  lemma SavedFields(m: CreatorMap, p1: nat, p2: nat, p3: nat, p4: nat)
    requires Fits(m)
    requires p1 == 2 + |m.artist| && p2 == p1 + 2 + |m.songName|
    requires p3 == p2 + 2 + |m.mapper| && p4 == p3 + 4 + |m.mapData|
    ensures FluxLegacy.FieldAt(Saved(m), 0, 2) == Ok((m.artist, p1))
    ensures FluxLegacy.FieldAt(Saved(m), p1, 2) == Ok((m.songName, p2))
    ensures FluxLegacy.FieldAt(Saved(m), p2, 2) == Ok((m.mapper, p3))
    ensures FluxLegacy.FieldAt(Saved(m), p3, 4) == Ok((m.mapData, p4))
    ensures Saved(m)[p4..] == m.music
  {
    var flm := Saved(m);
    SavedLayout(m, p1, p2, p3, p4);
    FieldFound(flm, 0, 2, m.artist, p1, TWO16);
    FieldFound(flm, p1, 2, m.songName, p2, TWO16);
    FieldFound(flm, p2, 2, m.mapper, p3, TWO16);
    FieldFound(flm, p3, 4, m.mapData, p4, TWO32);
  }

  lemma ModSmall(x: nat, d: nat)
    requires x < d
    ensures x % d == x
  {
  }

  /** A length written modulo `bound` that is below `bound` reads back as the length: the field is found. */
  lemma FieldFound(data: seq<byte>, pos: nat, w: nat, s: seq<byte>, next: nat, bound: nat)
    requires |s| < bound && next == pos + w + |s| <= |data|
    requires FromBE(data[pos..pos + w]) == |s| % bound && data[pos + w..next] == s
    ensures FluxLegacy.FieldAt(data, pos, w) == Ok((s, next))
  {
    ModSmall(|s|, bound);
    FluxFormat.ReadSizedOf(data, pos, w, pos + w, s, next);
  }

  /**
    Round trip with flux-map's legacy reader: when the lengths fit and the
    track is UTF-8, reading the saved bytes from position 0 gives back the
    five fields. The three strings are UTF-8 because they are Rust `String`s.
  */
  lemma SaveThenLoad(m: CreatorMap)
    requires Fits(m)
    requires IsUtf8(m.artist) && IsUtf8(m.songName) && IsUtf8(m.mapper) && IsUtf8(m.mapData)
    ensures FluxLegacy.Decode(Saved(m), 0)
      == Ok(FluxLegacy.Legacy(m.artist, m.songName, m.mapper, m.mapData, m.music))
  {
    var p1 := 2 + |m.artist|;
    var p2 := p1 + 2 + |m.songName|;
    var p3 := p2 + 2 + |m.mapper|;
    SavedFields(m, p1, p2, p3, p3 + 4 + |m.mapData|);
  }

  /** A track that is not UTF-8 makes the reader fail at the end of the data, after consuming the music. */
  lemma SaveThenLoadBadTrack(m: CreatorMap)
    requires Fits(m)
    requires !IsUtf8(m.mapData)
    ensures FluxLegacy.Decode(Saved(m), 0) == Err(FluxLegacy.BadFormat(|Saved(m)|))
  {
    var p1 := 2 + |m.artist|;
    var p2 := p1 + 2 + |m.songName|;
    var p3 := p2 + 2 + |m.mapper|;
    SavedFields(m, p1, p2, p3, p3 + 4 + |m.mapData|);
  }
}
