/**
  The SS+m version 1 map parser of flux-map (flux-map/src/convert/sspmv1.rs)
  and its conversion to a FLUX map.

  Layout from the cursor's starting position:
    three text lines (id, name, creator), each kept with its newline,
    then, little-endian, u32 last_ms, u32 note_count, u8 difficulty, u8 img_type,
    the image (type 2: u64 length and bytes; type 1: u16, u16, u8, u8, then
    u64 length and bytes; any other type: nothing),
    u8 has_audio (must be 1), u64 music length and the music,
    and note_count notes, each u32 time, u8 type, then two f32 (type 1)
    or two u8 (any other type).

  A failed read reports `BadFormat` at the position where the item that
  could not be read starts: binrw puts the cursor back where the read
  began, and `Cursor::read_exact` leaves it there on a short read.
*/
module SspmV1 {
  import opened Bytes
  import opened Text
  import opened Results
  import opened StableSort
  import opened F32Bits
  import FluxFormat

  /** `SSPM1Note`: a note with float coordinates (carried as bit patterns) or byte coordinates. */
  datatype Sspm1Note = Float(time: u32, x: u32, y: u32) | Int(time: u32, x8: byte, y8: byte)

  /** `SSPM1Note::time`, the sort key. */
  function NoteTime(n: Sspm1Note): int {
    n.time
  }

  /** `SSPM1`: a parsed map. `id`, `name` and `creator` are the header lines with their newline. */
  datatype Sspm1 = Sspm1(
    music: seq<byte>,
    notes: seq<Sspm1Note>,
    id: seq<byte>,
    name: seq<byte>,
    creator: seq<byte>,
    image: Option<seq<byte>>)

  /** `MapParseErrorV1`. */
  datatype V1Error = BadFormat(pos: nat) | NoAudio

  /**
    A value read up to `next`, the error that stopped the parser, or the
    panic of `vec![0; len as usize]` for a u64 length of 2^63 or more, which
    exceeds `isize::MAX` on a 64-bit target ("capacity overflow").
  */
  datatype Parsed<T> = Parsed(value: T, next: nat) | Failed(error: V1Error) | Overflow

  /** A length field the allocation refuses: u64 little-endian at `pos`, at least 2^63. */
  predicate TooLong(data: seq<byte>, pos: nat) {
    pos + 8 <= |data| && FromLE(data[pos..pos + 8]) >= TWO63
  }

  const NEWLINE: byte := 0x0A

  // ---------------------------------------------------------------------
  // The parser, as a function of the bytes and the starting position

  /**
    Where `read_line` from `pos` stops: just after the first newline at or
    after `pos`, or at the end of the data.
  */
  function LineEnd(data: seq<byte>, pos: nat): (e: nat)
    ensures pos >= |data| ==> e == pos
    ensures pos < |data| ==> pos < e <= |data| && (data[e - 1] == NEWLINE || e == |data|)
    ensures pos < |data| ==> forall i | pos <= i < e - 1 :: data[i] != NEWLINE
    decreases |data| - pos
  {
    if pos >= |data| then pos
    else if data[pos] == NEWLINE then pos + 1
    else LineEnd(data, pos + 1)
  }

  /**
    `BufRead::read_line` into an empty `String`: the bytes through the next
    newline, which must be UTF-8; if they are not, the bytes are consumed
    and the parser reports `BadFormat` at the stream position after them.
  */
  function LineAt(data: seq<byte>, pos: nat): (r: Parsed<seq<byte>>)
    ensures r.Parsed? ==> r.next == pos + |r.value| && IsUtf8(r.value)
    ensures r.Parsed? && pos <= |data| ==> r.next <= |data|
    ensures r.Parsed? && pos <= |data| ==> r.value == data[pos..r.next]
    ensures r.Failed? ==> pos < |data| && r.error == BadFormat(LineEnd(data, pos))
    ensures !r.Overflow?
  {
    var e := LineEnd(data, pos);
    var line := if pos < |data| then data[pos..e] else [];
    if IsUtf8(line) then Parsed(line, e) else Failed(BadFormat(e))
  }

  /**
    The three header lines from `start`. On success `next` is the absolute
    position just after the third line, where the binary section starts.
  */
  function HeaderAt(data: seq<byte>, start: nat): (r: Parsed<(seq<byte>, seq<byte>, seq<byte>)>)
    ensures r.Parsed? ==> r.next == start + |r.value.0| + |r.value.1| + |r.value.2|
    ensures r.Parsed? && start <= |data| ==> r.next <= |data|
    ensures r.Parsed? && start <= |data| ==> r.value.0 + r.value.1 + r.value.2 == data[start..r.next]
    ensures !r.Overflow?
  {
    match LineAt(data, start)
    case Failed(e) => Failed(e)
    case Parsed(id, p1) =>
      match LineAt(data, p1)
      case Failed(e) => Failed(e)
      case Parsed(name, p2) =>
        match LineAt(data, p2)
        case Failed(e) => Failed(e)
        case Parsed(creator, p3) =>
          assert start <= |data| ==> data[start..p3] == data[start..p1] + data[p1..p2] + data[p2..p3];
          Parsed((id, name, creator), p3)
  }

  /** binrw's `read_le` of a `w`-byte unsigned integer at `pos`. */
  function LEAt(data: seq<byte>, pos: nat, w: nat): (r: Parsed<nat>)
    ensures r.Parsed? <==> pos + w <= |data|
    ensures r.Parsed? ==> r.next == pos + w && r.value == FromLE(data[pos..pos + w]) < Pow256(w)
    ensures r.Failed? ==> r.error == BadFormat(pos)
    ensures !r.Overflow?
  {
    if pos + w <= |data| then Parsed(FromLE(data[pos..pos + w]), pos + w) else Failed(BadFormat(pos))
  }

  /**
    `vec![0; len as usize]` and `read_exact` into it at `pos`: a length of
    2^63 or more panics before anything is read; otherwise exactly `len`
    bytes are taken, or the read fails where it started.
  */
  function BlobAt(data: seq<byte>, pos: nat, len: nat): (r: Parsed<seq<byte>>)
    ensures r.Overflow? <==> len >= TWO63
    ensures r.Parsed? <==> len < TWO63 && pos + len <= |data|
    ensures r.Parsed? ==> r.next == pos + len && r.value == data[pos..pos + len]
    ensures r.Failed? ==> r.error == BadFormat(pos)
  {
    if len >= TWO63 then Overflow
    else if pos + len <= |data| then Parsed(data[pos..pos + len], pos + len) else Failed(BadFormat(pos))
  }

  /** A u64 length, then that many bytes. */
  function SizedAt(data: seq<byte>, pos: nat): (r: Parsed<seq<byte>>)
    ensures r.Overflow? <==> TooLong(data, pos)
    ensures r.Parsed? ==> r.next == pos + 8 + |r.value| <= |data| && r.value == data[pos + 8..r.next]
    ensures r.Parsed? ==> FromLE(data[pos..pos + 8]) == |r.value|
    ensures r.Failed? ==> r.error == BadFormat(if pos + 8 <= |data| then pos + 8 else pos)
  {
    match LEAt(data, pos, 8)
    case Failed(e) => Failed(e)
    case Parsed(len, p) => BlobAt(data, p, len)
  }

  function SomeOf(r: Parsed<seq<byte>>): Parsed<Option<seq<byte>>> {
    match r
    case Failed(e) => Failed(e)
    case Overflow => Overflow
    case Parsed(d, p) => Parsed(Some(d), p)
  }

  /**
    The image, by `img_type`: type 2 is a sized blob right away, type 1 a
    sized blob after six bytes of height, width, mipmaps and format, and any
    other type reads nothing and leaves no image.
  */
  function ImageAt(data: seq<byte>, pos: nat, imgType: byte): (r: Parsed<Option<seq<byte>>>)
    ensures imgType != 1 && imgType != 2 ==> r == Parsed(None, pos)
    ensures imgType == 2 ==> r == SomeOf(SizedAt(data, pos))
    ensures imgType == 1 && pos + 6 <= |data| ==> r == SomeOf(SizedAt(data, pos + 6))
    ensures imgType == 1 && pos + 6 > |data| ==> r.Failed? && r.error.BadFormat? && pos <= r.error.pos < pos + 6
  {
    if imgType == 2 then SomeOf(SizedAt(data, pos))
    else if imgType == 1 then
      match LEAt(data, pos, 2)
      case Failed(e) => Failed(e)
      case Parsed(_, p1) =>
        match LEAt(data, p1, 2)
        case Failed(e) => Failed(e)
        case Parsed(_, p2) =>
          match LEAt(data, p2, 1)
          case Failed(e) => Failed(e)
          case Parsed(_, p3) =>
            match LEAt(data, p3, 1)
            case Failed(e) => Failed(e)
            case Parsed(_, p4) => SomeOf(SizedAt(data, p4))
    else Parsed(None, pos)
  }

  /** The audio flag and the music: a flag other than 1 stops the parser with `NoAudio`. */
  function AudioAt(data: seq<byte>, pos: nat): (r: Parsed<seq<byte>>)
    ensures r == Failed(NoAudio) <==> pos < |data| && data[pos] != 1
    ensures pos >= |data| ==> r == Failed(BadFormat(pos))
    ensures pos < |data| && data[pos] == 1 ==> r == SizedAt(data, pos + 1)
  {
    match LEAt(data, pos, 1)
    case Failed(e) => Failed(e)
    case Parsed(hasAudio, p) =>
      assert hasAudio == data[pos] by { assert data[pos..pos + 1] == [data[pos]]; }
      if hasAudio != 1 then Failed(NoAudio) else SizedAt(data, p)
  }

  /** One note: a u32 time and a u8 type, then two f32 (type 1) or two u8. */
  function NoteAt(data: seq<byte>, pos: nat): (r: Parsed<Sspm1Note>)
    ensures r.Parsed? ==> r.next == pos + (if r.value.Float? then 13 else 7) <= |data|
    ensures r.Parsed? ==> r.value.time == FromLE(data[pos..pos + 4])
    ensures r.Parsed? ==> (r.value.Float? <==> data[pos + 4] == 1)
    ensures r.Failed? ==> r.error.BadFormat? && pos <= r.error.pos < pos + 13
    ensures !r.Overflow?
  {
    Pow256Values();
    match LEAt(data, pos, 4)
    case Failed(e) => Failed(e)
    case Parsed(time, p1) =>
      match LEAt(data, p1, 1)
      case Failed(e) => Failed(e)
      case Parsed(ntype, p2) =>
        assert ntype == data[pos + 4] by { assert data[p1..p1 + 1] == [data[p1]]; }
        if ntype == 1 then
          match LEAt(data, p2, 4)
          case Failed(e) => Failed(e)
          case Parsed(x, p3) =>
            match LEAt(data, p3, 4)
            case Failed(e) => Failed(e)
            case Parsed(y, p4) => Parsed(Float(time, x, y), p4)
        else
          match LEAt(data, p2, 1)
          case Failed(e) => Failed(e)
          case Parsed(x, p3) =>
            match LEAt(data, p3, 1)
            case Failed(e) => Failed(e)
            case Parsed(y, p4) => Parsed(Int(time, x, y), p4)
  }

  /** The note loop from `pos`, with `remaining` notes still to read after those in `acc`. */
  function NotesFrom(data: seq<byte>, pos: nat, remaining: nat, acc: seq<Sspm1Note>): (r: Parsed<seq<Sspm1Note>>)
    ensures r.Parsed? ==> |r.value| == |acc| + remaining && r.value[..|acc|] == acc
    ensures !r.Overflow?
    decreases remaining
  {
    if remaining == 0 then Parsed(acc, pos)
    else match NoteAt(data, pos)
      case Failed(e) => Failed(e)
      case Parsed(note, next) => NotesFrom(data, next, remaining - 1, acc + [note])
  }

  /** The fixed header: last_ms, note_count, difficulty and img_type; the value is (note_count, img_type). */
  function FixedAt(data: seq<byte>, pos: nat): (r: Parsed<(nat, byte)>)
    ensures r.Parsed? ==> r.next == pos + 10 <= |data|
    ensures r.Parsed? ==> r.value == (FromLE(data[pos + 4..pos + 8]), data[pos + 9])
    ensures !r.Overflow?
  {
    Pow256Values();
    match LEAt(data, pos, 4)
    case Failed(e) => Failed(e)
    case Parsed(_, p1) =>
      match LEAt(data, p1, 4)
      case Failed(e) => Failed(e)
      case Parsed(noteCount, p2) =>
        match LEAt(data, p2, 1)
        case Failed(e) => Failed(e)
        case Parsed(_, p3) =>
          match LEAt(data, p3, 1)
          case Failed(e) => Failed(e)
          case Parsed(imgType, p4) =>
            assert data[p3..p3 + 1] == [data[p3]];
            Parsed((noteCount, imgType), p4)
  }

  /** Everything after the header lines, from the absolute position `offset`. */
  function BodyAt(data: seq<byte>, offset: nat, id: seq<byte>, name: seq<byte>, creator: seq<byte>)
    : (r: Outcome<Sspm1, V1Error>)
    ensures r.Panic? ==> exists p :: TooLong(data, p)
  {
    match FixedAt(data, offset)
    case Failed(e) => Err(e)
    case Parsed(fixed, p1) =>
      match ImageAt(data, p1, fixed.1)
      case Failed(e) => Err(e)
      case Overflow => Panic
      case Parsed(image, p2) =>
        match AudioAt(data, p2)
        case Failed(e) => Err(e)
        case Overflow => Panic
        case Parsed(music, p3) =>
          match NotesFrom(data, p3, fixed.0, [])
          case Failed(e) => Err(e)
          case Parsed(notes, _) => Ok(Sspm1(music, SortBy(notes, NoteTime), id, name, creator, image))
  }

  /**
    An image of type 2 whose u64 length is 2^63 or more panics in the
    allocation, whatever follows it.
  */
  lemma ImageTooLongPanics(data: seq<byte>, offset: nat, id: seq<byte>, name: seq<byte>, creator: seq<byte>)
    requires offset + 10 <= |data| && data[offset + 9] == 2 && TooLong(data, offset + 10)
    ensures BodyAt(data, offset, id, name, creator) == Panic
  {
    assert FixedAt(data, offset).value.1 == 2;
  }

  /**
    With no image, a music length of 2^63 or more panics in the allocation
    right after the audio flag.
  */
  lemma MusicTooLongPanics(data: seq<byte>, offset: nat, id: seq<byte>, name: seq<byte>, creator: seq<byte>)
    requires offset + 11 <= |data| && data[offset + 9] != 1 && data[offset + 9] != 2
    requires data[offset + 10] == 1 && TooLong(data, offset + 11)
    ensures BodyAt(data, offset, id, name, creator) == Panic
  {
    assert FixedAt(data, offset).value.1 == data[offset + 9];
    assert ImageAt(data, offset + 10, data[offset + 9]) == Parsed(None, offset + 10);
  }

  /** `SSPM1::try_from` a cursor at `start`. */
  function Parse(data: seq<byte>, start: nat): (r: Outcome<Sspm1, V1Error>)
    ensures r.Panic? ==> exists p :: TooLong(data, p)
  {
    match HeaderAt(data, start)
    case Failed(e) => Err(e)
    case Parsed(h, offset) => BodyAt(data, offset, h.0, h.1, h.2)
  }

  // ---------------------------------------------------------------------
  // The parser as the source runs it

  /** `SSPM1::try_from(Vec<u8>)`: the cursor version from position 0. */
  method TryFromBytes(data: seq<byte>) returns (r: Outcome<Sspm1, V1Error>)
    ensures r == Parse(data, 0)
  {
    r := TryFromCursor(data, 0);
  }

  /** `SSPM1::try_from(Cursor)`: the header lines, then the binary section read field by field. */
  method TryFromCursor(data: seq<byte>, start: nat) returns (r: Outcome<Sspm1, V1Error>)
    ensures r == Parse(data, start)
  {
    var id := LineAt(data, start);
    if id.Failed? {
      return Err(id.error);
    }
    var name := LineAt(data, id.next);
    if name.Failed? {
      return Err(name.error);
    }
    var creator := LineAt(data, name.next);
    if creator.Failed? {
      return Err(creator.error);
    }
    var offset := creator.next;
    r := ReadBody(data, offset, id.value, name.value, creator.value);
  }

  /** The binary section from the position after the header lines. */
  method ReadBody(data: seq<byte>, offset: nat, id: seq<byte>, name: seq<byte>, creator: seq<byte>)
    returns (r: Outcome<Sspm1, V1Error>)
    ensures r == BodyAt(data, offset, id, name, creator)
  {
    var fixed := FixedAt(data, offset);
    if fixed.Failed? {
      return Err(fixed.error);
    }
    var image := ImageAt(data, fixed.next, fixed.value.1);
    if image.Failed? {
      return Err(image.error);
    } else if image.Overflow? {
      return Panic;
    }
    var music := AudioAt(data, image.next);
    if music.Failed? {
      return Err(music.error);
    } else if music.Overflow? {
      return Panic;
    }
    var notes := ReadNotes(data, music.next, fixed.value.0);
    if notes.Failed? {
      return Err(notes.error);
    }
    var sorted := SortNotes(notes.value);
    return Ok(Sspm1(music.value, sorted, id, name, creator, image.value));
  }

  /** The note loop: `count` notes pushed in the order they are read. */
  method ReadNotes(data: seq<byte>, start: nat, count: nat) returns (r: Parsed<seq<Sspm1Note>>)
    ensures r == NotesFrom(data, start, count, [])
  {
    var pos := start;
    var notes := [];
    var remaining := count;
    while remaining > 0
      invariant NotesFrom(data, start, count, []) == NotesFrom(data, pos, remaining, notes)
    {
      var note := NoteAt(data, pos);
      if note.Failed? {
        return Failed(note.error);
      }
      var next, rest, notes' := note.next, remaining - 1, notes + [note.value];
      assert NotesFrom(data, pos, remaining, notes) == NotesFrom(data, next, rest, notes');
      notes, pos, remaining := notes', next, rest;
    }
    return Parsed(notes, pos);
  }

  /**
    `notes.sort_by(|x, y| x.time().cmp(&y.time()))`: the notes ascending by
    time, a permutation of the input in which notes with the same time keep
    their input order.
  */
  method SortNotes(notes: seq<Sspm1Note>) returns (sorted: seq<Sspm1Note>)
    ensures SortedBy(sorted, NoteTime)
    ensures multiset(sorted) == multiset(notes)
    ensures forall t :: WithKey(sorted, NoteTime, t) == WithKey(notes, NoteTime, t)
    ensures sorted == SortBy(notes, NoteTime)
  {
    sorted := SortBy(notes, NoteTime);
    SortBySortedPermutation(notes, NoteTime);
    forall t ensures WithKey(sorted, NoteTime, t) == WithKey(notes, NoteTime, t) {
      SortByStable(notes, NoteTime, t);
    }
  }

  // ---------------------------------------------------------------------
  // Into<FluxMap>

  /** One note of the canonical chart: float coordinates copied, byte coordinates widened with `as f32`. */
  function FluxNoteOf(n: Sspm1Note): (f: FluxFormat.FluxNote)
    ensures f.time == n.time
    ensures n.Float? ==> f.x == n.x && f.y == n.y
    ensures n.Int? ==> Denotes(f.x, n.x8) && Denotes(f.y, n.y8)
  {
    match n
    case Float(t, x, y) => FluxFormat.FluxNote(t, x, y)
    case Int(t, x, y) =>
      U8AsF32Exact(x);
      U8AsF32Exact(y);
      FluxFormat.FluxNote(t, U8AsF32(x), U8AsF32(y))
  }

  /** The map `into` builds. */
  function ToFlux(s: Sspm1): FluxFormat.MapValue {
    FluxFormat.MapValue(
      1,
      map[FluxFormat.MAPPER := s.creator, FluxFormat.SONG_NAME := s.name],
      map[FluxFormat.DEFAULT := seq(|s.notes|, i requires 0 <= i < |s.notes| => FluxNoteOf(s.notes[i]))],
      s.music,
      s.image)
  }

  /**
    The converted map holds exactly the two metadata entries and the one
    chart, whose notes are the parsed notes in the same order; music and
    image are copied and the id is dropped.
  */
  lemma ToFluxContents(s: Sspm1)
    ensures ToFlux(s).meta.Keys == {FluxFormat.MAPPER, FluxFormat.SONG_NAME}
    ensures ToFlux(s).meta[FluxFormat.MAPPER] == s.creator && ToFlux(s).meta[FluxFormat.SONG_NAME] == s.name
    ensures ToFlux(s).difficulties.Keys == {FluxFormat.DEFAULT}
    ensures |ToFlux(s).difficulties[FluxFormat.DEFAULT]| == |s.notes|
    ensures forall i | 0 <= i < |s.notes| :: ToFlux(s).difficulties[FluxFormat.DEFAULT][i] == FluxNoteOf(s.notes[i])
    ensures ToFlux(s).music == s.music && ToFlux(s).image == s.image
    ensures forall id :: ToFlux(s.(id := id)) == ToFlux(s)
  {
    assert FluxFormat.MAPPER != FluxFormat.SONG_NAME by { assert FluxFormat.MAPPER[0] != FluxFormat.SONG_NAME[0]; }
  }

  /** `into`: converts the notes one by one, then fills a new `FluxMap` through its builders. */
  method IntoFluxMap(s: Sspm1) returns (m: FluxFormat.FluxMap)
    ensures fresh(m) && m.Value() == ToFlux(s)
  {
    var normalised := [];
    var i := 0;
    while i < |s.notes|
      invariant 0 <= i <= |s.notes|
      invariant |normalised| == i
      invariant forall j | 0 <= j < i :: normalised[j] == FluxNoteOf(s.notes[j])
    {
      normalised := normalised + [FluxNoteOf(s.notes[i])];
      i := i + 1;
    }
    m := new FluxFormat.FluxMap();
    m.AddMetadata(FluxFormat.MAPPER, s.creator);
    m.AddMetadata(FluxFormat.SONG_NAME, s.name);
    m.AddDifficulty(FluxFormat.DEFAULT, normalised);
    m.AddMusic(s.music);
    if s.image.Some? {
      m.AddImage(s.image.value);
    }
    assert normalised == ToFlux(s).difficulties[FluxFormat.DEFAULT];
  }
}
