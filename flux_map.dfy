/**
  The FLUX container (flux-map/src/lib.rs): the canonical in-memory map, its
  builders, the decoder `parse_data`, the byte-building half of `save`, and
  `convert_ss_to_flux`, the reader of the legacy comma/pipe note track.

  Layout, big-endian throughout:
    "FLUX", version byte,
    u16 metadata count, then per entry u16 key length, key, u32 value length, value,
    u16 chart count, then per chart u16 name length, name, u64 note count,
      then per note u32 time, f32 x, f32 y,
    u32 image length and the image bytes,
    u32 music length and the music bytes.
*/
module FluxFormat {
  import opened Bytes
  import opened Text
  import opened Results

  /** An IEEE-754 single carried as its 32-bit pattern: the codec only copies the bits. */
  type F32 = u32

  datatype FluxNote = FluxNote(time: u32, x: F32, y: F32)

  /** The five fields of a `FluxMap`, as a value. */
  datatype MapValue = MapValue(
    version: byte,
    meta: map<seq<byte>, seq<byte>>,
    difficulties: map<seq<byte>, seq<FluxNote>>,
    music: seq<byte>,
    image: Option<seq<byte>>)

  /** `FluxBadFormatType`; every error of `parse_data` is `FluxMapError::BadFormat` of one of these. */
  datatype BadFormatType = BadSignature | BadVersion | BadMetadata | BadDifficulty | BadImage | BadMusic

  const FLUX_SIG: seq<byte> := [0x46, 0x4C, 0x55, 0x58]
  const COMMA: byte := 0x2C
  const PIPE: byte := 0x7C

  /** The metadata keys and the chart name the converters write. */
  const MAPPER: seq<byte> := Ascii("mapper")
  const ARTIST: seq<byte> := Ascii("artist")
  const SONG_NAME: seq<byte> := Ascii("song_name")
  const DEFAULT: seq<byte> := Ascii("default")

  /** `order` lists every key of `keys` exactly once: one iteration order of a `HashMap` with that key set. */
  ghost predicate Enumerates<K(!new)>(order: seq<K>, keys: set<K>) {
    && (forall i, j | 0 <= i < j < |order| :: order[i] != order[j])
    && (forall k :: k in keys <==> k in order)
  }

  lemma {:induction false} EnumerationSize<K(!new)>(order: seq<K>, keys: set<K>)
    requires Enumerates(order, keys)
    ensures |keys| == |order|
  {
    if order != [] {
      var rest := keys - {order[0]};
      assert Enumerates(order[1..], rest) by {
        forall k ensures k in rest <==> k in order[1..] {
          if k in order[1..] {
            var j :| 0 <= j < |order[1..]| && order[1..][j] == k;
            assert order[j + 1] == k;
          }
          if k in order && k != order[0] {
            var j :| 0 <= j < |order| && order[j] == k;
            assert j > 0 && order[1..][j - 1] == k;
          }
        }
      }
      EnumerationSize(order[1..], rest);
    } else {
      assert forall k :: k !in keys;
      assert keys == {};
    }
  }

  /**
    `FluxMap`: the map being built or decoded. The converters build one with
    `new` and the `add_*` methods; `parse_data` returns a fresh one.
  */
  class FluxMap {
    var version: byte
    var meta: map<seq<byte>, seq<byte>>
    var difficulties: map<seq<byte>, seq<FluxNote>>
    var music: seq<byte>
    var image: Option<seq<byte>>

    function Value(): MapValue
      reads this
    {
      MapValue(version, meta, difficulties, music, image)
    }

    /** `FluxMap::new`: version 1, no metadata, no charts, no music, no image. */
    constructor ()
      ensures Value() == MapValue(1, map[], map[], [], None)
    {
      version, meta, difficulties, music, image := 1, map[], map[], [], None;
    }

    /** The `Self { .. }` literal `parse_data` ends with. */
    constructor FromValue(v: MapValue)
      ensures Value() == v
    {
      version, meta, difficulties, music, image := v.version, v.meta, v.difficulties, v.music, v.image;
    }

    /** `add_metadata`: sets `key` (replacing any earlier value); nothing else changes. */
    method AddMetadata(key: seq<byte>, value: seq<byte>)
      modifies this
      ensures Value() == old(Value()).(meta := old(meta)[key := value])
    {
      meta := meta[key := value];
    }

    /** `add_difficulty`: sets the chart `key` (replacing any earlier one); nothing else changes. */
    method AddDifficulty(key: seq<byte>, notes: seq<FluxNote>)
      modifies this
      ensures Value() == old(Value()).(difficulties := old(difficulties)[key := notes])
    {
      difficulties := difficulties[key := notes];
    }

    /** `add_music`: replaces the music; nothing else changes. */
    method AddMusic(data: seq<byte>)
      modifies this
      ensures Value() == old(Value()).(music := data)
    {
      music := data;
    }

    /** `add_image`: sets the image; nothing else changes. */
    method AddImage(data: seq<byte>)
      modifies this
      ensures Value() == old(Value()).(image := Some(data))
    {
      image := Some(data);
    }

    /**
      The byte-building half of `save`: appends the layout field by field to
      `flm_data`, walking the two `HashMap`s in the iteration orders given.
    */
    method Save(metaOrder: seq<seq<byte>>, diffOrder: seq<seq<byte>>) returns (flm: seq<byte>)
      requires Enumerates(metaOrder, meta.Keys) && Enumerates(diffOrder, difficulties.Keys)
      ensures flm == Encode(Value(), metaOrder, diffOrder)
    {
      flm := FLUX_SIG + [version];
      flm := flm + BE(|meta|, 2);
      flm := WriteMetadata(flm, metaOrder);
      flm := flm + BE(|difficulties|, 2);
      flm := WriteCharts(flm, diffOrder);
      ghost var beforeImage := flm;
      match image {
        case Some(img) =>
          flm := flm + BE(|img|, 4);
          flm := flm + img;
        case None =>
          flm := flm + BE(0, 4);
      }
      assert flm == beforeImage + ImageBytes(image);
      flm := flm + BE(|music|, 4);
      flm := flm + music;
      EncodeRegrouped(FLUX_SIG + [version], BE(|meta|, 2), EncodeMeta(meta, metaOrder),
                      BE(|difficulties|, 2), EncodeDiffs(difficulties, diffOrder),
                      ImageBytes(image), BE(|music|, 4), music);
    }

    /** The metadata loop of `save`: each entry of `order` appended to `start`. */
    method WriteMetadata(start: seq<byte>, order: seq<seq<byte>>) returns (flm: seq<byte>)
      requires Within(order, meta)
      ensures flm == start + EncodeMeta(meta, order)
    {
      flm := start;
      var i := 0;
      while i < |order|
        invariant 0 <= i <= |order|
        invariant flm == start + EncodeMeta(meta, order[..i])
      {
        var k := order[i];
        var v := meta[k];
        ghost var before := flm;
        flm := flm + BE(|k|, 2);
        flm := flm + k;
        flm := flm + BE(|v|, 4);
        flm := flm + v;
        Regroup4(start, EncodeMeta(meta, order[..i]), BE(|k|, 2), k, BE(|v|, 4), v);
        EncodeMetaSnoc(meta, order, i);
        i := i + 1;
      }
      assert order[..i] == order;
    }

    /** The chart loop of `save`: each chart of `order` appended to `start`. */
    method WriteCharts(start: seq<byte>, order: seq<seq<byte>>) returns (flm: seq<byte>)
      requires Within(order, difficulties)
      ensures flm == start + EncodeDiffs(difficulties, order)
    {
      flm := start;
      var i := 0;
      while i < |order|
        invariant 0 <= i <= |order|
        invariant flm == start + EncodeDiffs(difficulties, order[..i])
      {
        var k := order[i];
        var notes := difficulties[k];
        flm := flm + BE(|k|, 2);
        flm := flm + k;
        flm := flm + BE(|notes|, 8);
        flm := WriteNotes(flm, notes);
        Regroup4(start, EncodeDiffs(difficulties, order[..i]), BE(|k|, 2), k, BE(|notes|, 8), NotesBytes(notes));
        EncodeDiffsSnoc(difficulties, order, i);
        i := i + 1;
      }
      assert order[..i] == order;
    }
  }

  /** The note loop of `save`: time, `x` and `y` of each note appended to `start`. */
  method WriteNotes(start: seq<byte>, notes: seq<FluxNote>) returns (flm: seq<byte>)
    ensures flm == start + NotesBytes(notes)
  {
    flm := start;
    var j := 0;
    while j < |notes|
      invariant 0 <= j <= |notes|
      invariant flm == start + NotesBytes(notes[..j])
    {
      flm := flm + BE(notes[j].time, 4);
      flm := flm + BE(notes[j].x, 4);
      flm := flm + BE(notes[j].y, 4);
      Regroup3(start, NotesBytes(notes[..j]), BE(notes[j].time, 4), BE(notes[j].x, 4), BE(notes[j].y, 4));
      NotesBytesSnoc(notes, j);
      j := j + 1;
    }
    assert notes[..j] == notes;
  }

  /** Four fields appended one by one form one entry appended. */
  lemma Regroup4<T>(s: seq<T>, e: seq<T>, a: seq<T>, b: seq<T>, c: seq<T>, d: seq<T>)
    ensures s + e + a + b + c + d == s + (e + ((a + b) + (c + d)))
  {
  }

  /** Three fields appended one by one form one entry appended. */
  lemma Regroup3<T>(s: seq<T>, e: seq<T>, a: seq<T>, b: seq<T>, c: seq<T>)
    ensures s + e + a + b + c == s + (e + (a + b + c))
  {
  }

  /** The fields of `save` appended one by one form `Encode`'s grouping. */
  lemma EncodeRegrouped<T>(h: seq<T>, a1: seq<T>, a2: seq<T>, b1: seq<T>, b2: seq<T>, t: seq<T>, m1: seq<T>, m2: seq<T>)
    ensures h + a1 + a2 + b1 + b2 + t + m1 + m2 == h + (a1 + a2) + (b1 + b2) + t + (m1 + m2)
  {
  }

  // ---------------------------------------------------------------------
  // The encoder, as a function of the map and the two iteration orders

  predicate Within<K, V>(order: seq<K>, m: map<K, V>) {
    forall i | 0 <= i < |order| :: order[i] in m
  }

  function MetaEntry(k: seq<byte>, v: seq<byte>): seq<byte> {
    (BE(|k|, 2) + k) + (BE(|v|, 4) + v)
  }

  function EncodeMeta(meta: map<seq<byte>, seq<byte>>, order: seq<seq<byte>>): seq<byte>
    requires Within(order, meta)
  {
    if order == [] then [] else MetaEntry(order[0], meta[order[0]]) + EncodeMeta(meta, order[1..])
  }

  function NoteBytes(n: FluxNote): seq<byte> {
    BE(n.time, 4) + BE(n.x, 4) + BE(n.y, 4)
  }

  function NotesBytes(notes: seq<FluxNote>): seq<byte> {
    if notes == [] then [] else NoteBytes(notes[0]) + NotesBytes(notes[1..])
  }

  function DiffEntry(name: seq<byte>, notes: seq<FluxNote>): seq<byte> {
    (BE(|name|, 2) + name) + (BE(|notes|, 8) + NotesBytes(notes))
  }

  function EncodeDiffs(diffs: map<seq<byte>, seq<FluxNote>>, order: seq<seq<byte>>): seq<byte>
    requires Within(order, diffs)
  {
    if order == [] then [] else DiffEntry(order[0], diffs[order[0]]) + EncodeDiffs(diffs, order[1..])
  }

  function ImageBytes(image: Option<seq<byte>>): seq<byte> {
    match image
    case Some(img) => BE(|img|, 4) + img
    case None => BE(0, 4)
  }

  /** The bytes `save` writes for `m` when its two `HashMap`s iterate in the given orders. */
  function Encode(m: MapValue, metaOrder: seq<seq<byte>>, diffOrder: seq<seq<byte>>): seq<byte>
    requires Enumerates(metaOrder, m.meta.Keys) && Enumerates(diffOrder, m.difficulties.Keys)
  {
    FLUX_SIG + [m.version]
    + (BE(|m.meta|, 2) + EncodeMeta(m.meta, metaOrder))
    + (BE(|m.difficulties|, 2) + EncodeDiffs(m.difficulties, diffOrder))
    + ImageBytes(m.image)
    + (BE(|m.music|, 4) + m.music)
  }

  lemma {:induction false} EncodeMetaAppend(meta: map<seq<byte>, seq<byte>>, a: seq<seq<byte>>, b: seq<seq<byte>>)
    requires Within(a, meta) && Within(b, meta)
    ensures Within(a + b, meta)
    ensures EncodeMeta(meta, a + b) == EncodeMeta(meta, a) + EncodeMeta(meta, b)
  {
    if a != [] {
      assert (a + b)[1..] == a[1..] + b;
      EncodeMetaAppend(meta, a[1..], b);
    } else {
      assert a + b == b;
    }
  }

  lemma {:induction false} EncodeDiffsAppend(diffs: map<seq<byte>, seq<FluxNote>>, a: seq<seq<byte>>, b: seq<seq<byte>>)
    requires Within(a, diffs) && Within(b, diffs)
    ensures Within(a + b, diffs)
    ensures EncodeDiffs(diffs, a + b) == EncodeDiffs(diffs, a) + EncodeDiffs(diffs, b)
  {
    if a != [] {
      assert (a + b)[1..] == a[1..] + b;
      EncodeDiffsAppend(diffs, a[1..], b);
    } else {
      assert a + b == b;
    }
  }

  lemma EncodeMetaSnoc(meta: map<seq<byte>, seq<byte>>, order: seq<seq<byte>>, i: nat)
    requires Within(order, meta) && i < |order|
    ensures Within(order[..i], meta) && Within(order[..i + 1], meta)
    ensures EncodeMeta(meta, order[..i + 1]) == EncodeMeta(meta, order[..i]) + MetaEntry(order[i], meta[order[i]])
  {
    assert order[..i + 1] == order[..i] + [order[i]];
    EncodeMetaAppend(meta, order[..i], [order[i]]);
    assert EncodeMeta(meta, [order[i]]) == MetaEntry(order[i], meta[order[i]]) + [];
  }

  lemma EncodeDiffsSnoc(diffs: map<seq<byte>, seq<FluxNote>>, order: seq<seq<byte>>, i: nat)
    requires Within(order, diffs) && i < |order|
    ensures Within(order[..i], diffs) && Within(order[..i + 1], diffs)
    ensures EncodeDiffs(diffs, order[..i + 1]) == EncodeDiffs(diffs, order[..i]) + DiffEntry(order[i], diffs[order[i]])
  {
    assert order[..i + 1] == order[..i] + [order[i]];
    EncodeDiffsAppend(diffs, order[..i], [order[i]]);
    assert EncodeDiffs(diffs, [order[i]]) == DiffEntry(order[i], diffs[order[i]]) + [];
  }

  lemma NotesBytesSnoc(notes: seq<FluxNote>, j: nat)
    requires j < |notes|
    ensures NotesBytes(notes[..j + 1]) == NotesBytes(notes[..j]) + NoteBytes(notes[j])
  {
    assert notes[..j + 1] == notes[..j] + [notes[j]];
    NotesBytesAppend(notes[..j], [notes[j]]);
    assert NotesBytes([notes[j]]) == NoteBytes(notes[j]) + [];
  }

  lemma {:induction false} NotesBytesAppend(a: seq<FluxNote>, b: seq<FluxNote>)
    ensures NotesBytes(a + b) == NotesBytes(a) + NotesBytes(b)
  {
    if a != [] {
      assert (a + b)[1..] == a[1..] + b;
      NotesBytesAppend(a[1..], b);
    } else {
      assert a + b == b;
    }
  }

  // ---------------------------------------------------------------------
  // Sizes

  function MetaSize(meta: map<seq<byte>, seq<byte>>, order: seq<seq<byte>>): nat
    requires Within(order, meta)
  {
    if order == [] then 0 else 6 + |order[0]| + |meta[order[0]]| + MetaSize(meta, order[1..])
  }

  function DiffsSize(diffs: map<seq<byte>, seq<FluxNote>>, order: seq<seq<byte>>): nat
    requires Within(order, diffs)
  {
    if order == [] then 0 else 10 + |order[0]| + 12 * |diffs[order[0]]| + DiffsSize(diffs, order[1..])
  }

  lemma {:induction false} NotesBytesSize(notes: seq<FluxNote>)
    ensures |NotesBytes(notes)| == 12 * |notes|
  {
    if notes != [] {
      NotesBytesSize(notes[1..]);
    }
  }

  lemma {:induction false} EncodeMetaSize(meta: map<seq<byte>, seq<byte>>, order: seq<seq<byte>>)
    requires Within(order, meta)
    ensures |EncodeMeta(meta, order)| == MetaSize(meta, order)
  {
    if order != [] {
      EncodeMetaSize(meta, order[1..]);
    }
  }

  lemma {:induction false} EncodeDiffsSize(diffs: map<seq<byte>, seq<FluxNote>>, order: seq<seq<byte>>)
    requires Within(order, diffs)
    ensures |EncodeDiffs(diffs, order)| == DiffsSize(diffs, order)
  {
    if order != [] {
      NotesBytesSize(diffs[order[0]]);
      EncodeDiffsSize(diffs, order[1..]);
    }
  }

  /**
    The length of what `save` writes: 5 + 2 + sum(6 + |key| + |value|)
    + 2 + sum(10 + |name| + 12 * notes) + 4 + |image| + 4 + |music|.
  */
  lemma EncodedLength(m: MapValue, metaOrder: seq<seq<byte>>, diffOrder: seq<seq<byte>>)
    requires Enumerates(metaOrder, m.meta.Keys) && Enumerates(diffOrder, m.difficulties.Keys)
    ensures |Encode(m, metaOrder, diffOrder)|
         == 5 + 2 + MetaSize(m.meta, metaOrder) + 2 + DiffsSize(m.difficulties, diffOrder)
            + 4 + (if m.image.Some? then |m.image.value| else 0) + 4 + |m.music|
  {
    EncodeMetaSize(m.meta, metaOrder);
    EncodeDiffsSize(m.difficulties, diffOrder);
  }

  // ---------------------------------------------------------------------
  // The decoder, as a function of the bytes

  /** A successful read of a value ending just before `next`, or a short read. */
  datatype Read<T> = Got(value: T, next: nat) | Short

  /** A section of the layout: read up to `next`, cut short, or a panic of `to_string().unwrap()`. */
  datatype Section<T> = Done(value: T, next: nat) | Truncated | Panicked

  /** `s` sits in `data` at offset `pos`. */
  predicate At(data: seq<byte>, pos: nat, s: seq<byte>) {
    pos + |s| <= |data| && data[pos..pos + |s|] == s
  }

  /**
    A length-prefixed field at `pos` (binrw's `SizedString` for `w` = 2,
    `SizedVec` for `w` = 4): its bytes and the position after it, or `None`
    on a short read.
  */
  function ReadSized(data: seq<byte>, pos: nat, w: nat): (r: Read<seq<byte>>)
    ensures r.Got? ==> r.next == pos + w + |r.value| <= |data|
    ensures r.Got? ==> r.value == data[pos + w..r.next]
  {
    if pos + w > |data| then Short
    else
      var len := FromBE(data[pos..pos + w]);
      if pos + w + len > |data| then Short
      else Got(data[pos + w..pos + w + len], pos + w + len)
  }

  /** The note in a 12-byte block: big-endian `u32` time, then the bits of `x` and `y`. */
  function NoteOf(b: seq<byte>): (n: FluxNote)
    requires |b| == 12
  {
    Pow256Values();
    FluxNote(FromBE(b[..4]), FromBE(b[4..8]), FromBE(b[8..]))
  }

  /** The notes of a block of 12-byte records, in order. */
  function ParseNotes(b: seq<byte>): (notes: seq<FluxNote>)
    requires |b| % 12 == 0
    ensures 12 * |notes| == |b|
    decreases |b|
  {
    if b == [] then [] else [NoteOf(b[..12])] + ParseNotes(b[12..])
  }

  /**
    One metadata entry at `pos`: a `SizedString` key, then a `SizedVec`
    value; the key's `to_string().unwrap()` panics when it is not UTF-8.
  */
  function MetaEntryAt(data: seq<byte>, pos: nat): (r: Section<(seq<byte>, seq<byte>)>)
    ensures r.Done? ==> pos + 6 <= r.next <= |data|
  {
    match ReadSized(data, pos, 2)
    case Short => Truncated
    case Got(key, p1) =>
      match ReadSized(data, p1, 4)
      case Short => Truncated
      case Got(value, p2) => if IsUtf8(key) then Done((key, value), p2) else Panicked
  }

  /** The metadata loop of `parse_data` from `pos`, with `remaining` entries still to read into `acc`. */
  function DecodeMeta(data: seq<byte>, pos: nat, remaining: nat, acc: map<seq<byte>, seq<byte>>)
    : (r: Section<map<seq<byte>, seq<byte>>>)
    ensures r.Done? ==> pos <= r.next && (remaining > 0 ==> r.next <= |data|)
    decreases remaining
  {
    if remaining == 0 then Done(acc, pos)
    else match MetaEntryAt(data, pos)
      case Truncated => Truncated
      case Panicked => Panicked
      case Done(entry, next) => DecodeMeta(data, next, remaining - 1, acc[entry.0 := entry.1])
  }

  /**
    The `count` notes of one chart from `pos`. They are read record by
    record, and a read fails at the first record that runs past the end,
    which happens exactly when the whole block does not fit.
  */
  function NotesBlock(data: seq<byte>, pos: nat, count: nat): (r: Read<seq<FluxNote>>)
    ensures r.Got? ==> |r.value| == count && r.next == pos + 12 * count <= |data|
    ensures r.Short? <==> pos + 12 * count > |data|
  {
    if pos + 12 * count > |data| then Short
    else Got(ParseNotes(data[pos..pos + 12 * count]), pos + 12 * count)
  }

  /**
    One chart at `pos`: a `SizedString` name, a `u64` note count and the
    notes; the name's `to_string().unwrap()` panics when it is not UTF-8.
  */
  function ChartAt(data: seq<byte>, pos: nat): (r: Section<(seq<byte>, seq<FluxNote>)>)
    ensures r.Done? ==> pos + 10 <= r.next <= |data|
  {
    match ReadSized(data, pos, 2)
    case Short => Truncated
    case Got(name, p1) =>
      if p1 + 8 > |data| then Truncated
      else match NotesBlock(data, p1 + 8, FromBE(data[p1..p1 + 8]))
        case Short => Truncated
        case Got(notes, p2) => if IsUtf8(name) then Done((name, notes), p2) else Panicked
  }

  /** The chart loop of `parse_data` from `pos`, with `remaining` charts still to read into `acc`. */
  function DecodeDiffs(data: seq<byte>, pos: nat, remaining: nat, acc: map<seq<byte>, seq<FluxNote>>)
    : (r: Section<map<seq<byte>, seq<FluxNote>>>)
    ensures r.Done? ==> pos <= r.next && (remaining > 0 ==> r.next <= |data|)
    decreases remaining
  {
    if remaining == 0 then Done(acc, pos)
    else match ChartAt(data, pos)
      case Truncated => Truncated
      case Panicked => Panicked
      case Done(chart, next) => DecodeDiffs(data, next, remaining - 1, acc[chart.0 := chart.1])
  }

  /**
    The image and music sections: a zero image length means no image; a
    nonzero one is read with `unwrap`, which panics on a short read; a short
    image-length or music read is reported as `BadDifficulty`.
  */
  function DecodeTail(data: seq<byte>, pos: nat, meta: map<seq<byte>, seq<byte>>, diffs: map<seq<byte>, seq<FluxNote>>)
    : (r: Outcome<MapValue, BadFormatType>)
    ensures r.Err? ==> r.error == BadDifficulty
    ensures r.Ok? ==> r.value.version == 1 && r.value.meta == meta && r.value.difficulties == diffs
    ensures r.Ok? ==> r.value.image != Some([])
  {
    if pos + 4 > |data| then Err(BadDifficulty)
    else
      var imageLen := FromBE(data[pos..pos + 4]);
      if imageLen != 0 && pos + 4 + imageLen > |data| then Panic
      else
        var image := if imageLen == 0 then None else Some(data[pos + 4..pos + 4 + imageLen]);
        match ReadSized(data, pos + 4 + imageLen, 4)
        case Short => Err(BadDifficulty)
        case Got(music, _) => Ok(MapValue(1, meta, diffs, music, image))
  }

  predicate SignatureOk(data: seq<byte>) {
    |data| >= 4 && data[..4] == FLUX_SIG
  }

  /**
    `parse_data`. The signature and version gates come first, and each
    section reports its own error kind; `BadImage` and `BadMusic` are never
    produced.
  */
  function Decode(data: seq<byte>): (r: Outcome<MapValue, BadFormatType>)
    ensures r == Err(BadSignature) <==> !SignatureOk(data)
    ensures r == Err(BadVersion) <==> SignatureOk(data) && (|data| < 5 || data[4] != 1)
    ensures r.Err? ==> r.error != BadImage && r.error != BadMusic
    ensures r.Ok? ==> SignatureOk(data) && data[4] == 1 && r.value.version == 1 && r.value.image != Some([])
  {
    if !SignatureOk(data) then Err(BadSignature)
    else if |data| < 5 || data[4] != 1 then Err(BadVersion)
    else if |data| < 7 then Err(BadMetadata)
    else AfterMeta(data, DecodeMeta(data, 7, FromBE(data[5..7]), map[]))
  }

  /** What `parse_data` does once the metadata loop has ended. */
  function AfterMeta(data: seq<byte>, s: Section<map<seq<byte>, seq<byte>>>): (r: Outcome<MapValue, BadFormatType>)
    ensures r.Err? ==> r.error == BadMetadata || r.error == BadDifficulty
    ensures r.Ok? ==> r.value.version == 1 && r.value.image != Some([])
  {
    match s
    case Truncated => Err(BadMetadata)
    case Panicked => Panic
    case Done(meta, p) =>
      if p + 2 > |data| then Err(BadDifficulty)
      else AfterDiffs(data, meta, DecodeDiffs(data, p + 2, FromBE(data[p..p + 2]), map[]))
  }

  /** What `parse_data` does once the chart loop has ended. */
  function AfterDiffs(data: seq<byte>, meta: map<seq<byte>, seq<byte>>, s: Section<map<seq<byte>, seq<FluxNote>>>)
    : (r: Outcome<MapValue, BadFormatType>)
    ensures r.Err? ==> r.error == BadDifficulty
    ensures r.Ok? ==> r.value.version == 1 && r.value.meta == meta && r.value.image != Some([])
  {
    match s
    case Truncated => Err(BadDifficulty)
    case Panicked => Panic
    case Done(diffs, q) => DecodeTail(data, q, meta, diffs)
  }

  /**
    `parse_data` as the source writes it: a cursor walks the buffer and the
    loops fill the two maps; the result is a fresh `FluxMap`.
  */
  method ParseData(data: seq<byte>) returns (r: Outcome<FluxMap, BadFormatType>)
    ensures r.Ok? ==> fresh(r.value) && Decode(data) == Ok(r.value.Value())
    ensures r.Err? ==> Decode(data) == Err(r.error)
    ensures r.Panic? ==> Decode(data) == Panic
  {
    if |data| < 4 || data[..4] != FLUX_SIG {
      return Err(BadSignature);
    }
    if |data| < 5 || data[4] != 1 {
      return Err(BadVersion);
    }
    if |data| < 7 {
      return Err(BadMetadata);
    }
    var metaSection := ReadMetadata(data, 7, FromBE(data[5..7]));
    DecodeThenMeta(data);
    if metaSection.Truncated? {
      return Err(BadMetadata);
    } else if metaSection.Panicked? {
      return Panic;
    }
    var meta, pos := metaSection.value, metaSection.next;
    if pos + 2 > |data| {
      return Err(BadDifficulty);
    }
    var diffSection := ReadDifficulties(data, pos + 2, FromBE(data[pos..pos + 2]));
    AfterMetaThenDiffs(data, meta, pos);
    if diffSection.Truncated? {
      return Err(BadDifficulty);
    } else if diffSection.Panicked? {
      return Panic;
    }
    var tail := ReadTail(data, diffSection.next, meta, diffSection.value);
    if tail.Err? {
      return Err(tail.error);
    } else if tail.Panic? {
      return Panic;
    }
    var m := new FluxMap.FromValue(tail.value);
    return Ok(m);
  }

  /**
    Errors by section: `BadMetadata` comes exactly from a metadata section
    that runs out (its count or one of its entries), and every error after
    a complete metadata section is `BadDifficulty`.
  */
  lemma DecodeErrorSections(data: seq<byte>)
    requires SignatureOk(data) && |data| >= 5 && data[4] == 1
    ensures Decode(data) == Err(BadMetadata)
        <==> |data| < 7 || DecodeMeta(data, 7, FromBE(data[5..7]), map[]).Truncated?
    ensures |data| >= 7 && DecodeMeta(data, 7, FromBE(data[5..7]), map[]).Done? && Decode(data).Err?
        ==> Decode(data) == Err(BadDifficulty)
  {
  }

  lemma AfterMetaThenDiffs(data: seq<byte>, meta: map<seq<byte>, seq<byte>>, p: nat)
    requires p + 2 <= |data|
    ensures AfterMeta(data, Done(meta, p)) == AfterDiffs(data, meta, DecodeDiffs(data, p + 2, FromBE(data[p..p + 2]), map[]))
  {
  }

  /** The image and music fields of `parse_data`, read once both maps are known. */
  method ReadTail(data: seq<byte>, pos: nat, meta: map<seq<byte>, seq<byte>>, diffs: map<seq<byte>, seq<FluxNote>>)
    returns (r: Outcome<MapValue, BadFormatType>)
    ensures r == DecodeTail(data, pos, meta, diffs)
  {
    if pos + 4 > |data| {
      return Err(BadDifficulty);
    }
    var imageLen := FromBE(data[pos..pos + 4]);
    var image := None;
    if imageLen != 0 {
      if pos + 4 + imageLen > |data| {
        return Panic;
      }
      image := Some(data[pos + 4..pos + 4 + imageLen]);
    }
    var music := ReadSized(data, pos + 4 + imageLen, 4);
    if music.Short? {
      return Err(BadDifficulty);
    }
    return Ok(MapValue(1, meta, diffs, music.value, image));
  }

  /** The metadata loop of `parse_data`: `count` key/value entries from `start`. */
  method ReadMetadata(data: seq<byte>, start: nat, count: nat) returns (r: Section<map<seq<byte>, seq<byte>>>)
    ensures r == DecodeMeta(data, start, count, map[])
  {
    var pos := start;
    var meta := map[];
    var remaining := count;
    while remaining > 0
      invariant DecodeMeta(data, start, count, map[]) == DecodeMeta(data, pos, remaining, meta)
    {
      var entry := ReadMetaEntry(data, pos);
      if !entry.Done? {
        DecodeMetaStops(data, pos, remaining, meta);
        return if entry.Truncated? then Truncated else Panicked;
      }
      var key, value := entry.value.0, entry.value.1;
      var next, rest, meta' := entry.next, remaining - 1, meta[key := value];
      DecodeMetaStep(data, pos, remaining, rest, meta, key, value, next);
      meta, pos, remaining := meta', next, rest;
    }
    return Done(meta, pos);
  }

  /** One pass of the metadata loop's body: a `SizedString` key, then a `SizedVec` value. */
  method ReadMetaEntry(data: seq<byte>, pos: nat) returns (r: Section<(seq<byte>, seq<byte>)>)
    ensures r == MetaEntryAt(data, pos)
  {
    var key := ReadSized(data, pos, 2);
    if key.Short? {
      return Truncated;
    }
    var value := ReadSized(data, key.next, 4);
    if value.Short? {
      return Truncated;
    }
    if !IsUtf8(key.value) {
      return Panicked;
    }
    return Done((key.value, value.value), value.next);
  }

  /** The metadata loop stops where an entry does not read back. */
  lemma DecodeMetaStops(data: seq<byte>, pos: nat, remaining: nat, acc: map<seq<byte>, seq<byte>>)
    requires remaining > 0
    ensures MetaEntryAt(data, pos).Truncated? ==> DecodeMeta(data, pos, remaining, acc) == Truncated
    ensures MetaEntryAt(data, pos).Panicked? ==> DecodeMeta(data, pos, remaining, acc) == Panicked
  {
  }

  /** The chart loop of `parse_data`: `count` named charts from `start`. */
  method ReadDifficulties(data: seq<byte>, start: nat, count: nat)
    returns (r: Section<map<seq<byte>, seq<FluxNote>>>)
    ensures r == DecodeDiffs(data, start, count, map[])
  {
    var pos := start;
    var diffs := map[];
    var remaining := count;
    while remaining > 0
      invariant DecodeDiffs(data, start, count, map[]) == DecodeDiffs(data, pos, remaining, diffs)
    {
      var chart := ReadChart(data, pos);
      if !chart.Done? {
        DecodeDiffsStops(data, pos, remaining, diffs);
        return if chart.Truncated? then Truncated else Panicked;
      }
      var name, notes := chart.value.0, chart.value.1;
      var next, rest, diffs' := chart.next, remaining - 1, diffs[name := notes];
      DecodeDiffsStep(data, pos, remaining, rest, diffs, name, notes, next);
      diffs, pos, remaining := diffs', next, rest;
    }
    return Done(diffs, pos);
  }

  /** The chart loop stops where a chart does not read back. */
  lemma DecodeDiffsStops(data: seq<byte>, pos: nat, remaining: nat, acc: map<seq<byte>, seq<FluxNote>>)
    requires remaining > 0
    ensures ChartAt(data, pos).Truncated? ==> DecodeDiffs(data, pos, remaining, acc) == Truncated
    ensures ChartAt(data, pos).Panicked? ==> DecodeDiffs(data, pos, remaining, acc) == Panicked
  {
  }

  /** One pass of the chart loop's body: the name, the note count and the notes of one chart. */
  method ReadChart(data: seq<byte>, pos: nat) returns (r: Section<(seq<byte>, seq<FluxNote>)>)
    ensures r == ChartAt(data, pos)
  {
    var name := ReadSized(data, pos, 2);
    if name.Short? {
      return Truncated;
    }
    var countEnd := name.next + 8;
    if countEnd > |data| {
      return Truncated;
    }
    var notes := ReadNotes(data, countEnd, FromBE(data[name.next..countEnd]));
    if notes.Short? {
      return Truncated;
    }
    if !IsUtf8(name.value) {
      return Panicked;
    }
    return Done((name.value, notes.value), notes.next);
  }

  /** The note loop of one chart: `count` records of 12 bytes from `start`. */
  method ReadNotes(data: seq<byte>, start: nat, count: nat) returns (r: Read<seq<FluxNote>>)
    ensures r == NotesBlock(data, start, count)
  {
    if start > |data| {
      return Short;
    }
    var pos := start;
    var notes := [];
    var j := 0;
    while j < count
      invariant 0 <= j <= count && pos == start + 12 * j <= |data|
      invariant notes == ParseNotes(data[start..pos])
    {
      if pos + 12 > |data| {
        return Short;
      }
      var next := pos + 12;
      var record := data[pos..next];
      var notes' := notes + [NoteOf(record)];
      ParseNotesAppend(data[start..pos], record);
      assert data[start..pos] + record == data[start..next];
      notes, pos, j := notes', next, j + 1;
    }
    return Got(notes, pos);
  }

  /** Parsing a block with one more record appended parses that record last. */
  lemma {:induction false} ParseNotesAppend(b: seq<byte>, last: seq<byte>)
    requires |b| % 12 == 0 && |last| == 12
    ensures ParseNotes(b + last) == ParseNotes(b) + [NoteOf(last)]
    decreases |b|
  {
    if b == [] {
      assert b + last == last;
      assert last[..12] == last && last[12..] == [];
    } else {
      assert (b + last)[..12] == b[..12];
      assert (b + last)[12..] == b[12..] + last;
      ParseNotesAppend(b[12..], last);
    }
  }

  // ---------------------------------------------------------------------
  // Round trip
  //
  // The layout lemmas below name every offset they speak of as a parameter
  // tied to the others by an equation, so that the facts one lemma ensures
  // are literally the facts the next one requires.

  /** Every length and count of `m` fits the field `save` writes it into, and every key is a Rust `String`. */
  predicate Encodable(m: MapValue) {
    && |m.meta| < TWO16
    && |m.difficulties| < TWO16
    && (forall k | k in m.meta :: |k| < TWO16 && IsUtf8(k) && |m.meta[k]| < TWO32)
    && (forall k | k in m.difficulties :: |k| < TWO16 && IsUtf8(k) && |m.difficulties[k]| < TWO64)
    && (m.image.Some? ==> |m.image.value| < TWO32)
    && |m.music| < TWO32
  }

  /** A field found at `pos` splits into its two halves. */
  lemma AtSplit(data: seq<byte>, pos: nat, a: seq<byte>, b: seq<byte>)
    requires At(data, pos, a + b)
    ensures At(data, pos, a) && At(data, pos + |a|, b)
  {
    var whole := data[pos..pos + |a| + |b|];
    assert whole[..|a|] == data[pos..pos + |a|];
    assert whole[|a|..] == data[pos + |a|..pos + |a| + |b|];
  }

  /** `AtSplit` with the offset `q` of the second half given. */
  lemma AtSplitAt(data: seq<byte>, pos: nat, a: seq<byte>, b: seq<byte>, q: nat)
    requires q == pos + |a| && At(data, pos, a + b)
    ensures At(data, pos, a) && At(data, q, b)
  {
    AtSplit(data, pos, a, b);
  }

  /** The slice `At` speaks of, ending at `end`. */
  lemma AtSlice(data: seq<byte>, pos: nat, s: seq<byte>, end: nat)
    requires end == pos + |s| && At(data, pos, s)
    ensures end <= |data| && data[pos..end] == s
  {
  }

  /** A big-endian field that fits its width reads back as its value. */
  lemma ReadBEAt(data: seq<byte>, pos: nat, w: nat, x: nat, end: nat)
    requires end == pos + w && x < Pow256(w) && At(data, pos, BE(x, w))
    ensures end <= |data| && FromBE(data[pos..end]) == x
  {
    AtSlice(data, pos, BE(x, w), end);
    FromBEOfBEFits(x, w);
  }

  /** A length-prefixed field whose length fits its prefix reads back as its contents. */
  lemma ReadSizedAt(data: seq<byte>, pos: nat, w: nat, s: seq<byte>, next: nat)
    requires next == pos + w + |s| && |s| < Pow256(w) && At(data, pos, BE(|s|, w) + s)
    ensures ReadSized(data, pos, w) == Got(s, next)
  {
    var p := pos + w;
    AtSplitAt(data, pos, BE(|s|, w), s, p);
    ReadBEAt(data, pos, w, |s|, p);
    AtSlice(data, p, s, next);
    ReadSizedOf(data, pos, w, p, s, next);
  }

  lemma ReadSizedOf(data: seq<byte>, pos: nat, w: nat, p: nat, s: seq<byte>, next: nat)
    requires p == pos + w && next == p + |s| && next <= |data|
    requires FromBE(data[pos..p]) == |s| && data[p..next] == s
    ensures ReadSized(data, pos, w) == Got(s, next)
  {
  }

  /** `acc` with the entries of `m` under the keys of `order` stored into it one after another. */
  function Collect<K, V>(m: map<K, V>, order: seq<K>, acc: map<K, V>): map<K, V>
    requires Within(order, m)
    decreases |order|
  {
    if order == [] then acc else Collect(m, order[1..], acc[order[0] := m[order[0]]])
  }

  lemma {:induction false} CollectEntries<K, V>(m: map<K, V>, order: seq<K>, acc: map<K, V>)
    requires Within(order, m)
    ensures forall x :: x in Collect(m, order, acc) <==> x in acc || x in order
    ensures forall x | x in order :: Collect(m, order, acc)[x] == m[x]
    ensures forall x | x in acc && x !in order :: Collect(m, order, acc)[x] == acc[x]
    decreases |order|
  {
    if order != [] {
      CollectEntries(m, order[1..], acc[order[0] := m[order[0]]]);
      forall x | x in order ensures x == order[0] || x in order[1..] {
        var j :| 0 <= j < |order| && order[j] == x;
        if j > 0 {
          assert order[1..][j - 1] == x;
        }
      }
    }
  }

  /** Storing every entry of `m`, in any enumeration order, rebuilds `m`. */
  lemma CollectAll<K(!new), V>(m: map<K, V>, order: seq<K>)
    requires Enumerates(order, m.Keys)
    ensures Collect(m, order, map[]) == m
  {
    CollectEntries(m, order, map[]);
  }

  /** A written metadata entry reads back as that entry, ending at `next`. */
  lemma MetaEntryRead(data: seq<byte>, pos: nat, k: seq<byte>, v: seq<byte>, next: nat)
    requires |k| < TWO16 && IsUtf8(k) && |v| < TWO32
    requires At(data, pos, MetaEntry(k, v)) && next == pos + |MetaEntry(k, v)|
    ensures MetaEntryAt(data, pos) == Done((k, v), next)
  {
    var p1 := pos + 2 + |k|;
    MetaEntryFields(data, pos, k, v, p1, next);
    MetaEntryOf(data, pos, k, p1, v, next);
  }

  lemma MetaEntryFields(data: seq<byte>, pos: nat, k: seq<byte>, v: seq<byte>, p1: nat, next: nat)
    requires |k| < TWO16 && |v| < TWO32
    requires At(data, pos, MetaEntry(k, v)) && p1 == pos + 2 + |k| && next == pos + |MetaEntry(k, v)|
    ensures ReadSized(data, pos, 2) == Got(k, p1) && ReadSized(data, p1, 4) == Got(v, next)
  {
    Pow256Values();
    AtSplitAt(data, pos, BE(|k|, 2) + k, BE(|v|, 4) + v, p1);
    ReadSizedAt(data, pos, 2, k, p1);
    ReadSizedAt(data, p1, 4, v, next);
  }

  lemma MetaEntryOf(data: seq<byte>, pos: nat, k: seq<byte>, p1: nat, v: seq<byte>, p2: nat)
    requires ReadSized(data, pos, 2) == Got(k, p1) && ReadSized(data, p1, 4) == Got(v, p2) && IsUtf8(k)
    ensures MetaEntryAt(data, pos) == Done((k, v), p2)
  {
  }

  /** The metadata entries of `order` sit one after another from `pos` to `end`, as the decoder reads them. */
  ghost predicate MetaLaidOut(data: seq<byte>, pos: nat, meta: map<seq<byte>, seq<byte>>, order: seq<seq<byte>>,
                              end: nat)
    requires Within(order, meta)
    decreases |order|
  {
    if order == [] then end == pos
    else
      var e := MetaEntryAt(data, pos);
      && e.Done? && e.value == (order[0], meta[order[0]])
      && MetaLaidOut(data, e.next, meta, order[1..], end)
  }

  lemma {:induction false} EncodedMetaLaidOut(data: seq<byte>, pos: nat, meta: map<seq<byte>, seq<byte>>,
                                              order: seq<seq<byte>>, end: nat)
    requires Within(order, meta)
    requires forall k | k in meta :: |k| < TWO16 && IsUtf8(k) && |meta[k]| < TWO32
    requires At(data, pos, EncodeMeta(meta, order)) && end == pos + |EncodeMeta(meta, order)|
    ensures MetaLaidOut(data, pos, meta, order, end)
    decreases |order|
  {
    if order != [] {
      var k := order[0];
      var v := meta[k];
      var next := pos + |MetaEntry(k, v)|;
      AtSplitAt(data, pos, MetaEntry(k, v), EncodeMeta(meta, order[1..]), next);
      MetaEntryRead(data, pos, k, v, next);
      EncodedMetaLaidOut(data, next, meta, order[1..], end);
    }
  }

  /** One step of the metadata loop over an entry that reads back. */
  lemma DecodeMetaStep(data: seq<byte>, pos: nat, remaining: nat, rest: nat, acc: map<seq<byte>, seq<byte>>,
                       key: seq<byte>, value: seq<byte>, next: nat)
    requires remaining == rest + 1 && MetaEntryAt(data, pos) == Done((key, value), next)
    ensures DecodeMeta(data, pos, remaining, acc) == DecodeMeta(data, next, rest, acc[key := value])
  {
  }

  /** The metadata loop reads laid-out entries back into `acc`, ending just after them. */
  lemma {:induction false} DecodeLaidOutMeta(data: seq<byte>, pos: nat, meta: map<seq<byte>, seq<byte>>,
                                             order: seq<seq<byte>>, acc: map<seq<byte>, seq<byte>>, end: nat)
    requires Within(order, meta)
    requires MetaLaidOut(data, pos, meta, order, end)
    ensures DecodeMeta(data, pos, |order|, acc) == Done(Collect(meta, order, acc), end)
    decreases |order|
  {
    if order == [] {
      assert DecodeMeta(data, pos, 0, acc) == Done(acc, pos);
    } else {
      var k := order[0];
      var v := meta[k];
      var e := MetaEntryAt(data, pos);
      DecodeMetaStep(data, pos, |order|, |order[1..]|, acc, k, v, e.next);
      DecodeLaidOutMeta(data, e.next, meta, order[1..], acc[k := v], end);
    }
  }

  /** A note's 12 bytes read back as the note. */
  lemma NoteOfBytes(n: FluxNote)
    ensures NoteOf(NoteBytes(n)) == n
  {
    var b := NoteBytes(n);
    assert b[..4] == BE(n.time, 4);
    assert b[4..8] == BE(n.x, 4);
    assert b[8..] == BE(n.y, 4);
    Pow256Values();
    FromBEOfBEFits(n.time, 4);
    FromBEOfBEFits(n.x, 4);
    FromBEOfBEFits(n.y, 4);
  }

  /** The note block `save` writes parses back as the notes. */
  lemma {:induction false} ParseNotesBytes(notes: seq<FluxNote>)
    ensures |NotesBytes(notes)| % 12 == 0 && ParseNotes(NotesBytes(notes)) == notes
    decreases |notes|
  {
    NotesBytesSize(notes);
    if notes != [] {
      var b := NotesBytes(notes);
      assert b[..12] == NoteBytes(notes[0]);
      assert b[12..] == NotesBytes(notes[1..]);
      NoteOfBytes(notes[0]);
      ParseNotesBytes(notes[1..]);
    }
  }

  lemma NotesBlockAt(data: seq<byte>, pos: nat, notes: seq<FluxNote>, next: nat)
    requires At(data, pos, NotesBytes(notes)) && next == pos + 12 * |notes|
    ensures NotesBlock(data, pos, |notes|) == Got(notes, next)
  {
    NotesBytesSize(notes);
    ParseNotesBytes(notes);
    NotesBlockOfAt(data, pos, |notes|, NotesBytes(notes), notes, next);
  }

  lemma NotesBlockOfAt(data: seq<byte>, pos: nat, count: nat, bytes: seq<byte>, notes: seq<FluxNote>, next: nat)
    requires At(data, pos, bytes) && |bytes| == 12 * count && next == pos + 12 * count
    requires |bytes| % 12 == 0 && ParseNotes(bytes) == notes
    ensures NotesBlock(data, pos, count) == Got(notes, next)
  {
    AtSlice(data, pos, bytes, next);
    NotesBlockOf(data, pos, count, bytes, notes, next);
  }

  lemma NotesBlockOf(data: seq<byte>, pos: nat, count: nat, bytes: seq<byte>, notes: seq<FluxNote>, next: nat)
    requires next == pos + 12 * count && next <= |data| && data[pos..next] == bytes
    requires |bytes| % 12 == 0 && ParseNotes(bytes) == notes
    ensures NotesBlock(data, pos, count) == Got(notes, next)
  {
  }

  /** A written chart reads back as that chart, ending at `next`. */
  lemma ChartRead(data: seq<byte>, pos: nat, k: seq<byte>, notes: seq<FluxNote>, next: nat)
    requires |k| < TWO16 && IsUtf8(k) && |notes| < TWO64
    requires At(data, pos, DiffEntry(k, notes)) && next == pos + |DiffEntry(k, notes)|
    ensures ChartAt(data, pos) == Done((k, notes), next)
  {
    var p1 := pos + 2 + |k|;
    var p2 := p1 + 8;
    ChartFields(data, pos, k, notes, p1, p2, next);
    ChartOf(data, pos, k, p1, p2, |notes|, notes, next);
  }

  lemma ChartFields(data: seq<byte>, pos: nat, k: seq<byte>, notes: seq<FluxNote>, p1: nat, p2: nat, next: nat)
    requires |k| < TWO16 && |notes| < TWO64
    requires At(data, pos, DiffEntry(k, notes))
    requires p1 == pos + 2 + |k| && p2 == p1 + 8 && next == pos + |DiffEntry(k, notes)|
    ensures ReadSized(data, pos, 2) == Got(k, p1)
    ensures p2 <= |data| && FromBE(data[p1..p2]) == |notes|
    ensures NotesBlock(data, p2, |notes|) == Got(notes, next)
  {
    Pow256Values();
    NotesBytesSize(notes);
    AtSplitAt(data, pos, BE(|k|, 2) + k, BE(|notes|, 8) + NotesBytes(notes), p1);
    AtSplitAt(data, p1, BE(|notes|, 8), NotesBytes(notes), p2);
    ReadSizedAt(data, pos, 2, k, p1);
    ReadBEAt(data, p1, 8, |notes|, p2);
    NotesBlockAt(data, p2, notes, next);
  }

  lemma ChartOf(data: seq<byte>, pos: nat, k: seq<byte>, p1: nat, p2: nat, count: nat, notes: seq<FluxNote>,
                next: nat)
    requires ReadSized(data, pos, 2) == Got(k, p1) && IsUtf8(k) && p2 == p1 + 8
    requires p2 <= |data| && FromBE(data[p1..p2]) == count && NotesBlock(data, p2, count) == Got(notes, next)
    ensures ChartAt(data, pos) == Done((k, notes), next)
  {
  }

  /** The charts of `order` sit one after another from `pos` to `end`, as the decoder reads them. */
  ghost predicate DiffsLaidOut(data: seq<byte>, pos: nat, diffs: map<seq<byte>, seq<FluxNote>>,
                               order: seq<seq<byte>>, end: nat)
    requires Within(order, diffs)
    decreases |order|
  {
    if order == [] then end == pos
    else
      var c := ChartAt(data, pos);
      && c.Done? && c.value == (order[0], diffs[order[0]])
      && DiffsLaidOut(data, c.next, diffs, order[1..], end)
  }

  lemma {:induction false} EncodedDiffsLaidOut(data: seq<byte>, pos: nat, diffs: map<seq<byte>, seq<FluxNote>>,
                                               order: seq<seq<byte>>, end: nat)
    requires Within(order, diffs)
    requires forall k | k in diffs :: |k| < TWO16 && IsUtf8(k) && |diffs[k]| < TWO64
    requires At(data, pos, EncodeDiffs(diffs, order)) && end == pos + |EncodeDiffs(diffs, order)|
    ensures DiffsLaidOut(data, pos, diffs, order, end)
    decreases |order|
  {
    if order != [] {
      var k := order[0];
      var notes := diffs[k];
      var next := pos + |DiffEntry(k, notes)|;
      AtSplitAt(data, pos, DiffEntry(k, notes), EncodeDiffs(diffs, order[1..]), next);
      ChartRead(data, pos, k, notes, next);
      EncodedDiffsLaidOut(data, next, diffs, order[1..], end);
    }
  }

  /** One step of the chart loop over a chart that reads back. */
  lemma DecodeDiffsStep(data: seq<byte>, pos: nat, remaining: nat, rest: nat, acc: map<seq<byte>, seq<FluxNote>>,
                        name: seq<byte>, notes: seq<FluxNote>, next: nat)
    requires remaining == rest + 1 && ChartAt(data, pos) == Done((name, notes), next)
    ensures DecodeDiffs(data, pos, remaining, acc) == DecodeDiffs(data, next, rest, acc[name := notes])
  {
  }

  /** The chart loop reads laid-out charts back into `acc`, ending just after them. */
  lemma {:induction false} DecodeLaidOutDiffs(data: seq<byte>, pos: nat, diffs: map<seq<byte>, seq<FluxNote>>,
                                              order: seq<seq<byte>>, acc: map<seq<byte>, seq<FluxNote>>, end: nat)
    requires Within(order, diffs)
    requires DiffsLaidOut(data, pos, diffs, order, end)
    ensures DecodeDiffs(data, pos, |order|, acc) == Done(Collect(diffs, order, acc), end)
    decreases |order|
  {
    if order == [] {
      assert DecodeDiffs(data, pos, 0, acc) == Done(acc, pos);
    } else {
      var k := order[0];
      var notes := diffs[k];
      var c := ChartAt(data, pos);
      DecodeDiffsStep(data, pos, |order|, |order[1..]|, acc, k, notes, c.next);
      DecodeLaidOutDiffs(data, c.next, diffs, order[1..], acc[k := notes], end);
    }
  }

  /** What decoding gives back for a stored image: `Some` of an empty image is written as length 0 and read as `None`. */
  function StoredImage(image: Option<seq<byte>>): Option<seq<byte>> {
    if image == Some([]) then None else image
  }

  lemma ImageRead(data: seq<byte>, pos: nat, image: Option<seq<byte>>)
    requires image.Some? ==> |image.value| < TWO32
    requires At(data, pos, ImageBytes(image))
    ensures pos + 4 <= |data| && FromBE(data[pos..pos + 4]) == |ImageBytes(image)| - 4
    ensures image.Some? ==> data[pos + 4..pos + 4 + |image.value|] == image.value
  {
    Pow256Values();
    match image {
      case None =>
        ReadBEAt(data, pos, 4, 0, pos + 4);
      case Some(img) =>
        AtSplit(data, pos, BE(|img|, 4), img);
        ReadBEAt(data, pos, 4, |img|, pos + 4);
    }
  }

  lemma DecodeTailOfEncoded(data: seq<byte>, pos: nat, meta: map<seq<byte>, seq<byte>>,
                            diffs: map<seq<byte>, seq<FluxNote>>, image: Option<seq<byte>>, music: seq<byte>)
    requires (image.Some? ==> |image.value| < TWO32) && |music| < TWO32
    requires At(data, pos, ImageBytes(image) + (BE(|music|, 4) + music))
    ensures DecodeTail(data, pos, meta, diffs) == Ok(MapValue(1, meta, diffs, music, StoredImage(image)))
  {
    var len, next := TailLayout(data, pos, image, music);
    DecodeTailOf(data, pos, meta, diffs, len, StoredImage(image), music, next);
  }

  /** The image and music fields of an encoded tail, stated without the encoder. */
  lemma TailLayout(data: seq<byte>, pos: nat, image: Option<seq<byte>>, music: seq<byte>) returns (len: nat, next: nat)
    requires (image.Some? ==> |image.value| < TWO32) && |music| < TWO32
    requires At(data, pos, ImageBytes(image) + (BE(|music|, 4) + music))
    ensures pos + 4 <= |data| && FromBE(data[pos..pos + 4]) == len
    ensures len == 0 ==> StoredImage(image) == None
    ensures len != 0 ==> pos + 4 + len <= |data| && StoredImage(image) == Some(data[pos + 4..pos + 4 + len])
    ensures ReadSized(data, pos + 4 + len, 4) == Got(music, next)
  {
    AtSplit(data, pos, ImageBytes(image), BE(|music|, 4) + music);
    ImageRead(data, pos, image);
    len := FromBE(data[pos..pos + 4]);
    assert pos + |ImageBytes(image)| == pos + 4 + len;
    Pow256Values();
    next := pos + 4 + len + 4 + |music|;
    ReadSizedAt(data, pos + 4 + len, 4, music, next);
  }

  lemma DecodeTailOf(data: seq<byte>, pos: nat, meta: map<seq<byte>, seq<byte>>, diffs: map<seq<byte>, seq<FluxNote>>,
                     len: nat, image: Option<seq<byte>>, music: seq<byte>, next: nat)
    requires pos + 4 <= |data| && FromBE(data[pos..pos + 4]) == len
    requires len == 0 ==> image == None
    requires len != 0 ==> pos + 4 + len <= |data| && image == Some(data[pos + 4..pos + 4 + len])
    requires ReadSized(data, pos + 4 + len, 4) == Got(music, next)
    ensures DecodeTail(data, pos, meta, diffs) == Ok(MapValue(1, meta, diffs, music, image))
  {
  }

  /** Where each section of `Encode(m, ..)` sits in the output: the charts' count at `p`, the charts at `p2`, the tail at `q`. */
  lemma EncodedSections(m: MapValue, metaOrder: seq<seq<byte>>, diffOrder: seq<seq<byte>>, rest: seq<byte>,
                        data: seq<byte>, p: nat, p2: nat, q: nat)
    requires Enumerates(metaOrder, m.meta.Keys) && Enumerates(diffOrder, m.difficulties.Keys)
    requires data == Encode(m, metaOrder, diffOrder) + rest
    requires p == 7 + |EncodeMeta(m.meta, metaOrder)| && p2 == p + 2
    requires q == p2 + |EncodeDiffs(m.difficulties, diffOrder)|
    ensures |data| >= 7 && data[..4] == FLUX_SIG && data[4] == m.version
    ensures At(data, 5, BE(|m.meta|, 2)) && At(data, 7, EncodeMeta(m.meta, metaOrder))
    ensures At(data, p, BE(|m.difficulties|, 2)) && At(data, p2, EncodeDiffs(m.difficulties, diffOrder))
    ensures At(data, q, ImageBytes(m.image) + (BE(|m.music|, 4) + m.music))
  {
    Layout(data, FLUX_SIG + [m.version], BE(|m.meta|, 2), EncodeMeta(m.meta, metaOrder),
           BE(|m.difficulties|, 2), EncodeDiffs(m.difficulties, diffOrder),
           ImageBytes(m.image), BE(|m.music|, 4) + m.music, rest, p, p2, q);
  }

  /** Where the parts of a concatenation sit in it. */
  lemma Layout(data: seq<byte>, h: seq<byte>, a1: seq<byte>, a2: seq<byte>, b1: seq<byte>, b2: seq<byte>,
               t1: seq<byte>, t2: seq<byte>, rest: seq<byte>, p: nat, p2: nat, q: nat)
    requires |h| == 5 && |a1| == 2 && |b1| == 2
    requires data == h + (a1 + a2) + (b1 + b2) + t1 + t2 + rest
    requires p == 7 + |a2| && p2 == p + 2 && q == p2 + |b2|
    ensures |data| >= 7 && data[..4] == h[..4] && data[4] == h[4]
    ensures At(data, 5, a1) && At(data, 7, a2)
    ensures At(data, p, b1) && At(data, p2, b2) && At(data, q, t1 + t2)
  {
    assert data[..4] == h[..4];
    assert data[5..7] == a1;
    assert data[7..p] == a2;
    assert data[p..p2] == b1;
    assert data[p2..q] == b2;
    assert data[q..q + |t1 + t2|] == t1 + t2;
  }

  /** `Decode` once both map sections have been read. */
  lemma DecodeAfterSections(data: seq<byte>, meta: map<seq<byte>, seq<byte>>, p: nat,
                            diffs: map<seq<byte>, seq<FluxNote>>, q: nat)
    requires SignatureOk(data) && |data| >= 7 && data[4] == 1
    requires DecodeMeta(data, 7, FromBE(data[5..7]), map[]) == Done(meta, p) && p + 2 <= |data|
    requires DecodeDiffs(data, p + 2, FromBE(data[p..p + 2]), map[]) == Done(diffs, q)
    ensures Decode(data) == DecodeTail(data, q, meta, diffs)
  {
    DecodeThenMeta(data);
    AfterMetaDone(data, meta, p, diffs, q);
  }

  lemma DecodeThenMeta(data: seq<byte>)
    requires SignatureOk(data) && |data| >= 7 && data[4] == 1
    ensures Decode(data) == AfterMeta(data, DecodeMeta(data, 7, FromBE(data[5..7]), map[]))
  {
  }

  lemma AfterMetaDone(data: seq<byte>, meta: map<seq<byte>, seq<byte>>, p: nat,
                      diffs: map<seq<byte>, seq<FluxNote>>, q: nat)
    requires p + 2 <= |data| && DecodeDiffs(data, p + 2, FromBE(data[p..p + 2]), map[]) == Done(diffs, q)
    ensures AfterMeta(data, Done(meta, p)) == DecodeTail(data, q, meta, diffs)
  {
  }

  /** The chart section's reading with its start `p2` written as `p + 2`. */
  lemma DiffsFrom(data: seq<byte>, p: nat, p2: nat, diffs: map<seq<byte>, seq<FluxNote>>, q: nat)
    requires p2 == p + 2 && p2 <= |data| && DecodeDiffs(data, p2, FromBE(data[p..p2]), map[]) == Done(diffs, q)
    ensures p + 2 <= |data| && DecodeDiffs(data, p + 2, FromBE(data[p..p + 2]), map[]) == Done(diffs, q)
  {
  }

  /** The metadata section written at offset 5 reads back as the whole map, ending at `p`. */
  lemma MetaSectionRead(data: seq<byte>, meta: map<seq<byte>, seq<byte>>, order: seq<seq<byte>>, p: nat)
    requires Enumerates(order, meta.Keys) && |meta| < TWO16
    requires forall k | k in meta :: |k| < TWO16 && IsUtf8(k) && |meta[k]| < TWO32
    requires At(data, 5, BE(|meta|, 2)) && At(data, 7, EncodeMeta(meta, order)) && p == 7 + |EncodeMeta(meta, order)|
    ensures |data| >= 7 && DecodeMeta(data, 7, FromBE(data[5..7]), map[]) == Done(meta, p)
  {
    Pow256Values();
    EnumerationSize(order, meta.Keys);
    ReadBEAt(data, 5, 2, |meta|, 7);
    EncodedMetaLaidOut(data, 7, meta, order, p);
    DecodeLaidOutMeta(data, 7, meta, order, map[], p);
    CollectAll(meta, order);
  }

  /** The chart section whose count is written at `p` reads back as the whole map, ending at `q`. */
  lemma DiffsSectionRead(data: seq<byte>, p: nat, p2: nat, diffs: map<seq<byte>, seq<FluxNote>>,
                         order: seq<seq<byte>>, q: nat)
    requires Enumerates(order, diffs.Keys) && |diffs| < TWO16
    requires forall k | k in diffs :: |k| < TWO16 && IsUtf8(k) && |diffs[k]| < TWO64
    requires At(data, p, BE(|diffs|, 2)) && At(data, p2, EncodeDiffs(diffs, order))
    requires p2 == p + 2 && q == p2 + |EncodeDiffs(diffs, order)|
    ensures p2 <= |data| && DecodeDiffs(data, p2, FromBE(data[p..p2]), map[]) == Done(diffs, q)
  {
    Pow256Values();
    EnumerationSize(order, diffs.Keys);
    ReadBEAt(data, p, 2, |diffs|, p2);
    EncodedDiffsLaidOut(data, p2, diffs, order, q);
    DecodeLaidOutDiffs(data, p2, diffs, order, map[], q);
    CollectAll(diffs, order);
  }

  /**
    `parse_data` reads back what `save` wrote, whatever the `HashMap`
    iteration orders were and whatever follows the music: version-1 maps
    whose counts and lengths fit their fields come back equal, except that an
    empty image comes back as no image.
  */
  lemma DecodeEncoded(m: MapValue, metaOrder: seq<seq<byte>>, diffOrder: seq<seq<byte>>, rest: seq<byte>)
    requires m.version == 1 && Encodable(m)
    requires Enumerates(metaOrder, m.meta.Keys) && Enumerates(diffOrder, m.difficulties.Keys)
    ensures Decode(Encode(m, metaOrder, diffOrder) + rest) == Ok(m.(image := StoredImage(m.image)))
  {
    var data := Encode(m, metaOrder, diffOrder) + rest;
    var p := 7 + |EncodeMeta(m.meta, metaOrder)|;
    var p2 := p + 2;
    var q := p2 + |EncodeDiffs(m.difficulties, diffOrder)|;
    EncodedSections(m, metaOrder, diffOrder, rest, data, p, p2, q);
    MetaSectionRead(data, m.meta, metaOrder, p);
    DiffsSectionRead(data, p, p2, m.difficulties, diffOrder, q);
    DecodeSections(data, m.meta, p, p2, m.difficulties, q, m.image, m.music);
  }

  /** Both sections read, the tail read: the whole decode of laid-out sections. */
  lemma DecodeSections(data: seq<byte>, meta: map<seq<byte>, seq<byte>>, p: nat, p2: nat,
                       diffs: map<seq<byte>, seq<FluxNote>>, q: nat, image: Option<seq<byte>>, music: seq<byte>)
    requires SignatureOk(data) && |data| >= 7 && data[4] == 1
    requires DecodeMeta(data, 7, FromBE(data[5..7]), map[]) == Done(meta, p)
    requires p2 == p + 2 && p2 <= |data| && DecodeDiffs(data, p2, FromBE(data[p..p2]), map[]) == Done(diffs, q)
    requires (image.Some? ==> |image.value| < TWO32) && |music| < TWO32
    requires At(data, q, ImageBytes(image) + (BE(|music|, 4) + music))
    ensures Decode(data) == Ok(MapValue(1, meta, diffs, music, StoredImage(image)))
  {
    DiffsFrom(data, p, p2, diffs, q);
    DecodeAfterSections(data, meta, p, diffs, q);
    DecodeTailOfEncoded(data, q, meta, diffs, image, music);
  }

  /** Round trip: a map in range, version 1, whose image is absent or nonempty, decodes back to itself. */
  lemma RoundTrip(m: MapValue, metaOrder: seq<seq<byte>>, diffOrder: seq<seq<byte>>)
    requires m.version == 1 && Encodable(m) && m.image != Some([])
    requires Enumerates(metaOrder, m.meta.Keys) && Enumerates(diffOrder, m.difficulties.Keys)
    ensures Decode(Encode(m, metaOrder, diffOrder)) == Ok(m)
  {
    DecodeEncoded(m, metaOrder, diffOrder, []);
    assert Encode(m, metaOrder, diffOrder) + [] == Encode(m, metaOrder, diffOrder);
  }

  // ---------------------------------------------------------------------
  // convert_ss_to_flux

  /**
    One `x|y|time` entry of the legacy note track: fewer than three fields,
    or a field that does not parse, panics (`None`); fields after the third
    are ignored. `parseF32` stands for Rust's `f32::from_str`.
  */
  function SsNote(entry: seq<byte>, parseF32: seq<byte> -> Option<F32>): Option<FluxNote> {
    var fields := Split(entry, [PIPE]);
    if |fields| < 3 then None
    else match (parseF32(fields[0]), parseF32(fields[1]), ParseUnsigned(fields[2], TWO32))
      case (Some(x), Some(y), Some(t)) => Some(FluxNote(t, x, y))
      case _ => None
  }

  /** The note track `id,x|y|t,x|y|t,...`: every entry after the first becomes one note, in order; a bad entry panics (`None`). */
  function SsToFlux(ssmap: seq<byte>, parseF32: seq<byte> -> Option<F32>): Option<seq<FluxNote>> {
    if !IsUtf8(ssmap) then None
    else
      var entries := Split(ssmap, [COMMA])[1..];
      if forall i | 0 <= i < |entries| :: SsNote(entries[i], parseF32).Some?
      then Some(seq(|entries|, i requires 0 <= i < |entries| => SsNote(entries[i], parseF32).value))
      else None
  }

  /** `convert_ss_to_flux`: splits the track and pushes one note per entry after the first. */
  method ConvertSsToFlux(ssmap: seq<byte>, parseF32: seq<byte> -> Option<F32>) returns (r: Option<seq<FluxNote>>)
    ensures r == SsToFlux(ssmap, parseF32)
  {
    if !IsUtf8(ssmap) {
      return None;
    }
    var entries := Split(ssmap, [COMMA])[1..];
    var notes := [];
    var i := 0;
    while i < |entries|
      invariant 0 <= i <= |entries|
      invariant |notes| == i
      invariant forall j | 0 <= j < i :: SsNote(entries[j], parseF32) == Some(notes[j])
    {
      var note := SsNote(entries[i], parseF32);
      if note.None? {
        return None;
      }
      notes := notes + [note.value];
      i := i + 1;
    }
    assert notes == seq(|entries|, j requires 0 <= j < |entries| => SsNote(entries[j], parseF32).value);
    return Some(notes);
  }

  /** The track yields exactly one note per comma, each from the entry after that comma. */
  lemma SsToFluxCount(ssmap: seq<byte>, parseF32: seq<byte> -> Option<F32>)
    requires SsToFlux(ssmap, parseF32).Some?
    ensures |SsToFlux(ssmap, parseF32).value| == Count(ssmap, COMMA)
    ensures forall i | 0 <= i < Count(ssmap, COMMA)
              :: Some(SsToFlux(ssmap, parseF32).value[i]) == SsNote(Split(ssmap, [COMMA])[i + 1], parseF32)
  {
    SplitOnOne(ssmap, COMMA);
  }
}
