/**
  map-creator's own SS+m version 1 reader (map-creator/src/convert/sspmv1.rs),
  an older variant of flux-map's, and its conversion to map-creator's legacy
  map with a text note track.

  Differences from flux-map's reader:
    - the three header lines are read with their errors ignored, so a line
      that is not UTF-8 is consumed and kept as the empty string;
    - the binary section is copied out and read from its own offset 0;
    - only image type 2 is understood, and its bytes are skipped with a
      relative `seek` (which may land past the end) rather than read;
      type 1 consumes nothing;
    - byte coordinates are widened to `f32` while reading;
    - every failure is the same `Err(())`, modelled as `None`.
*/
module CreatorSspmV1 {
  import opened Bytes
  import opened Text
  import opened Results
  import opened StableSort
  import opened F32Bits
  import SspmV1
  import FluxFormat
  import FluxLegacy
  import CreatorFormat

  type F32 = FluxFormat.F32

  /** `SSPM1Note`: both kinds carry `f32` coordinates (bit patterns). */
  datatype OldNote = Float(time: u32, x: F32, y: F32) | Int(time: u32, x: F32, y: F32)

  /** `SSPM1Note::time`, the sort key. */
  function OldNoteTime(n: OldNote): int {
    n.time
  }

  /** `SSPM1`: the music, the sorted notes and the three header lines. */
  datatype OldSspm1 = OldSspm1(music: seq<byte>, notes: seq<OldNote>, id: seq<byte>, name: seq<byte>, creator: seq<byte>)

  // ---------------------------------------------------------------------
  // The header lines

  /**
    `read_line` into an empty `String` with its result ignored: the bytes
    through the next newline are consumed either way, and kept only when
    they are UTF-8.
  */
  function ReadLine(data: seq<byte>, pos: nat): (r: (seq<byte>, nat))
    ensures r.1 == SspmV1.LineEnd(data, pos)
    ensures pos <= |data| ==> r.1 <= |data|
    ensures IsUtf8(r.0)
    ensures r.0 == [] || (pos < |data| && r.0 == data[pos..r.1])
    ensures pos < |data| && IsUtf8(data[pos..r.1]) ==> r.0 == data[pos..r.1]
  {
    var e := SspmV1.LineEnd(data, pos);
    var line := if pos < |data| then data[pos..e] else [];
    (if IsUtf8(line) then line else [], e)
  }

  /** A complete line: it ends with its only newline. */
  predicate IsLine(l: seq<byte>) {
    l != [] && l[|l| - 1] == SspmV1.NEWLINE && SspmV1.NEWLINE !in l[..|l| - 1]
  }

  /** `read_line` stops right after a complete line written at `pos`. */
  lemma {:induction false} LineEndAt(data: seq<byte>, pos: nat, l: seq<byte>)
    requires IsLine(l) && pos + |l| <= |data| && data[pos..pos + |l|] == l
    ensures SspmV1.LineEnd(data, pos) == pos + |l|
    decreases |l|
  {
    assert data[pos] == l[0];
    if |l| > 1 {
      assert l[0] in l[..|l| - 1];
      var t := l[1..];
      assert t[..|t| - 1] == l[1..|l| - 1];
      assert data[pos + 1..pos + 1 + |t|] == t;
      LineEndAt(data, pos + 1, t);
    }
  }

  // ---------------------------------------------------------------------
  // The binary section, read from its own offset 0

  /** A little-endian `w`-byte read at `pos`; `None` when the bytes run out. */
  function Read(body: seq<byte>, pos: nat, w: nat): (r: Option<(nat, nat)>)
    ensures r.Some? <==> pos + w <= |body|
    ensures r.Some? ==> r.value == (FromLE(body[pos..pos + w]), pos + w)
  {
    match SspmV1.LEAt(body, pos, w)
    case Failed(_) => None
    case Parsed(v, p) => Some((v, p))
  }

  /** The fixed header: u32 last_ms, u32 note_count, u8 difficulty, u8 img_type; the value is (note_count, img_type). */
  function Fixed(body: seq<byte>): (r: Option<(nat, byte)>)
    ensures r.Some? <==> |body| >= 10
    ensures r.Some? ==> r.value == (FromLE(body[4..8]), body[9])
  {
    match Read(body, 0, 4)
    case None => None
    case Some((_, p1)) =>
      match Read(body, p1, 4)
      case None => None
      case Some((noteCount, p2)) =>
        match Read(body, p2, 1)
        case None => None
        case Some((_, p3)) =>
          match Read(body, p3, 1)
          case None => None
          case Some((imgType, _)) =>
            assert body[9..10] == [body[9]];
            Some((noteCount, imgType))
  }

  /** `len as i64`: the u64 reinterpreted in two's complement. */
  function AsI64(len: u64): (v: int)
    ensures -0x8000_0000_0000_0000 <= v < 0x8000_0000_0000_0000
    ensures (v - len) % TWO64 == 0
    ensures len < 0x8000_0000_0000_0000 <==> v == len
  {
    if len < 0x8000_0000_0000_0000 then len else len - TWO64
  }

  /**
    `Cursor::seek(SeekFrom::Current(offset))`: the new position must be a
    u64, neither negative nor overflowing; past the end is allowed.
  */
  function SeekCurrent(pos: nat, offset: int): (r: Option<nat>)
    ensures r.Some? <==> 0 <= pos + offset < TWO64
    ensures r.Some? ==> r.value == pos + offset
  {
    if 0 <= pos + offset < TWO64 then Some(pos + offset) else None
  }

  /** The image: type 2 is a u64 length and a seek over that many bytes; any other type consumes nothing. */
  function SkipImage(body: seq<byte>, pos: nat, imgType: byte): (r: Option<nat>)
    ensures imgType != 2 ==> r == Some(pos)
    ensures imgType == 2 && pos + 8 > |body| ==> r.None?
    ensures imgType == 2 && r.Some? ==> var len := FromLE(body[pos..pos + 8]);
      r.value + (if len < 0x8000_0000_0000_0000 then 0 else TWO64) == pos + 8 + len
  {
    if imgType != 2 then Some(pos)
    else
      match Read(body, pos, 8)
      case None => None
      case Some((len, p)) =>
        Pow256Values();
        SeekCurrent(p, AsI64(len))
  }

  /**
    Inside a buffer of fewer than 2^63 bytes (every Rust `Vec<u8>`) the seek
    never overflows: an image length below 2^63 moves the cursor forward by
    exactly that much, even past the end; a larger one is a negative offset
    that moves the cursor back by 2^64 - length, and fails only when that
    would go before the start of the section.
  */
  lemma SkipImageInBuffer(body: seq<byte>, pos: nat)
    requires pos + 8 <= |body| < 0x8000_0000_0000_0000
    ensures var len := FromLE(body[pos..pos + 8]);
      && (len < 0x8000_0000_0000_0000 ==> SkipImage(body, pos, 2) == Some(pos + 8 + len))
      && (len >= 0x8000_0000_0000_0000 ==>
            if TWO64 - len <= pos + 8 then SkipImage(body, pos, 2) == Some(pos + 8 - (TWO64 - len))
            else SkipImage(body, pos, 2).None?)
  {
    Pow256Values();
  }

  /**
    The audio flag, which must be 1, then a u64 length and that many bytes
    of music. `vec![0; len as usize]` panics for a length of 2^63 or more,
    beyond `isize::MAX` on a 64-bit target, before anything is read.
  */
  function AudioAt(body: seq<byte>, pos: nat): (r: Outcome<(seq<byte>, nat), ()>)
    ensures pos < |body| && body[pos] != 1 ==> r.Err?
    ensures r.Panic? <==> pos + 9 <= |body| && body[pos] == 1 && FromLE(body[pos + 1..pos + 9]) >= TWO63
    ensures r.Ok? ==> pos < |body| && body[pos] == 1 && pos + 9 <= |body|
    ensures r.Ok? ==> var len := FromLE(body[pos + 1..pos + 9]);
      r.value.1 == pos + 9 + len <= |body| && r.value.0 == body[pos + 9..r.value.1]
  {
    match Read(body, pos, 1)
    case None => Err(())
    case Some((hasAudio, p1)) =>
      assert body[pos..pos + 1] == [body[pos]];
      if hasAudio != 1 then Err(())
      else
        match Read(body, p1, 8)
        case None => Err(())
        case Some((len, p2)) =>
          if len >= TWO63 then Panic
          else if p2 + len <= |body| then Ok((body[p2..p2 + len], p2 + len)) else Err(())
  }

  /** One note: a u32 time and a u8 type, then two f32 (type 1) or two u8 widened with `as f32`. */
  function NoteAt(body: seq<byte>, pos: nat): (r: Option<(OldNote, nat)>)
    ensures r.Some? ==> r.value.1 == pos + (if r.value.0.Float? then 13 else 7) <= |body|
    ensures r.Some? ==> r.value.0.time == FromLE(body[pos..pos + 4])
    ensures r.Some? ==> (r.value.0.Float? <==> body[pos + 4] == 1)
    ensures r.Some? && r.value.0.Int? ==>
      r.value.0.x == U8AsF32(body[pos + 5]) && r.value.0.y == U8AsF32(body[pos + 6])
    ensures r.Some? && r.value.0.Int? ==>
      Denotes(r.value.0.x, body[pos + 5]) && Denotes(r.value.0.y, body[pos + 6])
    ensures pos + 13 <= |body| ==> r.Some?
    ensures pos + 7 <= |body| && body[pos + 4] != 1 ==> r.Some?
  {
    Pow256Values();
    match Read(body, pos, 4)
    case None => None
    case Some((time, p1)) =>
      match Read(body, p1, 1)
      case None => None
      case Some((ntype, p2)) =>
        assert ntype == body[pos + 4] by { assert body[p1..p1 + 1] == [body[p1]]; }
        if ntype == 1 then
          match Read(body, p2, 4)
          case None => None
          case Some((x, p3)) =>
            match Read(body, p3, 4)
            case None => None
            case Some((y, p4)) => Some((Float(time, x, y), p4))
        else
          match Read(body, p2, 1)
          case None => None
          case Some((x, p3)) =>
            match Read(body, p3, 1)
            case None => None
            case Some((y, p4)) =>
              assert x == body[pos + 5] by { assert body[p2..p2 + 1] == [body[p2]]; }
              assert y == body[pos + 6] by { assert body[p3..p3 + 1] == [body[p3]]; }
              U8AsF32Exact(x);
              U8AsF32Exact(y);
              Some((Int(time, U8AsF32(x), U8AsF32(y)), p4))
  }

  /** The note loop from `pos`, with `remaining` notes still to read after those in `acc`. */
  function NotesFrom(body: seq<byte>, pos: nat, remaining: nat, acc: seq<OldNote>): (r: Option<seq<OldNote>>)
    ensures r.Some? ==> |r.value| == |acc| + remaining && r.value[..|acc|] == acc
    decreases remaining
  {
    if remaining == 0 then Some(acc)
    else match NoteAt(body, pos)
      case None => None
      case Some((note, next)) => NotesFrom(body, next, remaining - 1, acc + [note])
  }

  /** The binary section: the music and the notes sorted by time; `Err(())` for any failed read. */
  function Body(body: seq<byte>): (r: Outcome<(seq<byte>, seq<OldNote>), ()>)
  {
    match Fixed(body)
    case None => Err(())
    case Some((count, imgType)) =>
      match SkipImage(body, 10, imgType)
      case None => Err(())
      case Some(p1) =>
        match AudioAt(body, p1)
        case Err(_) => Err(())
        case Panic => Panic
        case Ok((music, p2)) =>
          match NotesFrom(body, p2, count, [])
          case None => Err(())
          case Some(notes) => Ok((music, SortBy(notes, OldNoteTime)))
  }

  /** `SSPM1::try_from(Vec<u8>)`: three lines, then the rest of the bytes as the binary section. */
  function Parse(data: seq<byte>): (r: Outcome<OldSspm1, ()>)
  {
    var (id, p1) := ReadLine(data, 0);
    var (name, p2) := ReadLine(data, p1);
    var (creator, p3) := ReadLine(data, p2);
    match Body(data[p3..])
    case Err(_) => Err(())
    case Panic => Panic
    case Ok((music, notes)) => Ok(OldSspm1(music, notes, id, name, creator))
  }

  /**
    A body whose fixed header has no image and whose music length is 2^63
    or more panics in the music allocation, whatever follows.
  */
  lemma MusicTooLongPanics(body: seq<byte>)
    requires |body| >= 19 && body[9] != 2 && body[10] == 1
    requires FromLE(body[11..19]) >= TWO63
    ensures Body(body) == Panic
  {
  }

  // ---------------------------------------------------------------------
  // Properties of the reader

  /**
    With three complete lines in front, the binary section is exactly the
    bytes after them, and each line is kept with its newline when it is
    UTF-8 and dropped when it is not.
  */
  lemma ParseAfterLines(l1: seq<byte>, l2: seq<byte>, l3: seq<byte>, body: seq<byte>)
    requires IsLine(l1) && IsLine(l2) && IsLine(l3)
    ensures var r := Parse(l1 + l2 + l3 + body);
      && (r.Ok? <==> Body(body).Ok?)
      && (r.Panic? <==> Body(body).Panic?)
      && (r.Ok? ==>
        && (r.value.music, r.value.notes) == Body(body).value
        && r.value.id == (if IsUtf8(l1) then l1 else [])
        && r.value.name == (if IsUtf8(l2) then l2 else [])
        && r.value.creator == (if IsUtf8(l3) then l3 else []))
  {
    var data := l1 + l2 + l3 + body;
    var p1, p2, p3 := |l1|, |l1| + |l2|, |l1| + |l2| + |l3|;
    ThreeLines(data, l1, l2, l3, body, p1, p2, p3);
    assert ReadLine(data, 0) == (if IsUtf8(l1) then l1 else [], p1);
    assert ReadLine(data, p1) == (if IsUtf8(l2) then l2 else [], p2);
    assert ReadLine(data, p2) == (if IsUtf8(l3) then l3 else [], p3);
    var b := Body(data[p3..]);
    assert b == Body(body);
    assert Parse(data) == match b
      case Err(_) => Err(())
      case Panic => Panic
      case Ok((music, notes)) =>
        Ok(OldSspm1(music, notes, if IsUtf8(l1) then l1 else [], if IsUtf8(l2) then l2 else [], if IsUtf8(l3) then l3 else []));
  }

  lemma ThreeLines(data: seq<byte>, l1: seq<byte>, l2: seq<byte>, l3: seq<byte>, body: seq<byte>, p1: nat, p2: nat, p3: nat)
    requires IsLine(l1) && IsLine(l2) && IsLine(l3)
    requires data == l1 + l2 + l3 + body
    requires p1 == |l1| && p2 == p1 + |l2| && p3 == p2 + |l3|
    ensures SspmV1.LineEnd(data, 0) == p1 && data[0..p1] == l1
    ensures SspmV1.LineEnd(data, p1) == p2 && data[p1..p2] == l2
    ensures SspmV1.LineEnd(data, p2) == p3 && data[p2..p3] == l3
    ensures data[p3..] == body
  {
    assert data[0..p1] == l1;
    assert data[p1..p2] == l2;
    assert data[p2..p3] == l3;
    assert data[p3..] == body;
    LineEndAt(data, 0, l1);
    LineEndAt(data, p1, l2);
    LineEndAt(data, p2, l3);
  }


  /**
    A successful read holds the notes in ascending time order, as a
    permutation of the notes in the file in which equal times keep their
    file order.
  */
  lemma BodySorted(body: seq<byte>)
    requires Body(body).Ok?
    ensures var count, imgType := Fixed(body).value.0, Fixed(body).value.1;
      var p1 := SkipImage(body, 10, imgType).value;
      var p2 := AudioAt(body, p1).value.1;
      var read := NotesFrom(body, p2, count, []).value;
      var notes := Body(body).value.1;
      && |read| == count
      && SortedBy(notes, OldNoteTime)
      && multiset(notes) == multiset(read)
      && forall t :: WithKey(notes, OldNoteTime, t) == WithKey(read, OldNoteTime, t)
  {
    var count, imgType := Fixed(body).value.0, Fixed(body).value.1;
    var p1 := SkipImage(body, 10, imgType).value;
    var p2 := AudioAt(body, p1).value.1;
    var read := NotesFrom(body, p2, count, []).value;
    SortBySortedPermutation(read, OldNoteTime);
    forall t ensures WithKey(SortBy(read, OldNoteTime), OldNoteTime, t) == WithKey(read, OldNoteTime, t) {
      SortByStable(read, OldNoteTime, t);
    }
  }

  // ---------------------------------------------------------------------
  // The reader as the source runs it

  /** `SSPM1::try_from`: the header lines, `read_to_end`, then the binary section through a new cursor. */
  method TryFrom(data: seq<byte>) returns (r: Outcome<OldSspm1, ()>)
    ensures r == Parse(data)
  {
    var id := ReadLine(data, 0);
    var name := ReadLine(data, id.1);
    var creator := ReadLine(data, name.1);
    var body := data[creator.1..];
    var parsed := ReadBody(body);
    if parsed.Err? {
      return Err(());
    } else if parsed.Panic? {
      return Panic;
    }
    return Ok(OldSspm1(parsed.value.0, parsed.value.1, id.0, name.0, creator.0));
  }

  /** The binary section, read with a cursor from 0. */
  method ReadBody(body: seq<byte>) returns (r: Outcome<(seq<byte>, seq<OldNote>), ()>)
    ensures r == Body(body)
  {
    var fixed := Fixed(body);
    if fixed.None? {
      return Err(());
    }
    var pos := 10;
    var imgType := fixed.value.1;
    if imgType == 2 {
      var len := Read(body, pos, 8);
      if len.None? {
        return Err(());
      }
      Pow256Values();
      var next := SeekCurrent(len.value.1, AsI64(len.value.0));
      if next.None? {
        return Err(());
      }
      pos := next.value;
    }
    assert SkipImage(body, 10, imgType) == Some(pos);
    var audio := AudioAt(body, pos);
    if audio.Err? {
      return Err(());
    } else if audio.Panic? {
      return Panic;
    }
    var notes := ReadNotes(body, audio.value.1, fixed.value.0);
    if notes.None? {
      return Err(());
    }
    var sorted := SortNotes(notes.value);
    return Ok((audio.value.0, sorted));
  }

  /** The note loop: `count` notes pushed in the order they are read. */
  method ReadNotes(body: seq<byte>, start: nat, count: nat) returns (r: Option<seq<OldNote>>)
    ensures r == NotesFrom(body, start, count, [])
  {
    var pos := start;
    var notes := [];
    var remaining := count;
    while remaining > 0
      invariant NotesFrom(body, start, count, []) == NotesFrom(body, pos, remaining, notes)
    {
      var note := NoteAt(body, pos);
      if note.None? {
        return None;
      }
      var next, rest, notes' := note.value.1, remaining - 1, notes + [note.value.0];
      assert NotesFrom(body, pos, remaining, notes) == NotesFrom(body, next, rest, notes');
      notes, pos, remaining := notes', next, rest;
    }
    return Some(notes);
  }

  /** `notes.sort_by(|x, y| x.time().cmp(&y.time()))`: ascending by time, stable. */
  method SortNotes(notes: seq<OldNote>) returns (sorted: seq<OldNote>)
    ensures SortedBy(sorted, OldNoteTime)
    ensures multiset(sorted) == multiset(notes)
    ensures forall t :: WithKey(sorted, OldNoteTime, t) == WithKey(notes, OldNoteTime, t)
    ensures sorted == SortBy(notes, OldNoteTime)
  {
    sorted := SortBy(notes, OldNoteTime);
    SortBySortedPermutation(notes, OldNoteTime);
    forall t ensures WithKey(sorted, OldNoteTime, t) == WithKey(notes, OldNoteTime, t) {
      SortByStable(notes, OldNoteTime, t);
    }
  }

  // ---------------------------------------------------------------------
  // Into<FluxMap>: the text note track

  const ZERO: byte := 0x30

  /**
    One note as `format!("{}|{}|{}", x, y, time)`. `showF32` stands for
    Rust's `Display` of an `f32`; the time is a u32 in decimal.
  */
  function Entry(n: OldNote, showF32: F32 -> seq<byte>): seq<byte> {
    showF32(n.x) + [FluxFormat.PIPE] + showF32(n.y) + [FluxFormat.PIPE] + Decimal(n.time)
  }

  /** A comma and the entry, for each note in order. */
  function Entries(notes: seq<OldNote>, showF32: F32 -> seq<byte>): seq<byte> {
    if notes == [] then [] else [FluxFormat.COMMA] + Entry(notes[0], showF32) + Entries(notes[1..], showF32)
  }

  /** The track `into` builds: `0`, then `,x|y|time` per note. */
  function Track(notes: seq<OldNote>, showF32: F32 -> seq<byte>): seq<byte> {
    [ZERO] + Entries(notes, showF32)
  }

  lemma {:induction false} EntriesSnoc(notes: seq<OldNote>, i: nat, showF32: F32 -> seq<byte>)
    requires i < |notes|
    ensures Entries(notes[..i + 1], showF32) == Entries(notes[..i], showF32) + [FluxFormat.COMMA] + Entry(notes[i], showF32)
    decreases i
  {
    if i == 0 {
      assert notes[..1] == [notes[0]];
    } else {
      assert notes[..i + 1][1..] == notes[1..][..i];
      assert notes[..i][1..] == notes[1..][..i - 1];
      EntriesSnoc(notes[1..], i - 1, showF32);
    }
  }

  /** The loop of `into`: push `'0'`, then for each note push `','` and the formatted note. */
  method EmitTrack(notes: seq<OldNote>, showF32: F32 -> seq<byte>) returns (track: seq<byte>)
    ensures track == Track(notes, showF32)
  {
    track := [ZERO];
    var i := 0;
    while i < |notes|
      invariant 0 <= i <= |notes|
      invariant track == [ZERO] + Entries(notes[..i], showF32)
    {
      EntriesSnoc(notes, i, showF32);
      track := track + [FluxFormat.COMMA];
      track := track + Entry(notes[i], showF32);
      i := i + 1;
    }
    assert notes[..i] == notes;
  }

  /** `Display` of `v` is ASCII text without a comma or a pipe that `parseF32` reads back as `v`. */
  predicate ShowsAs(showF32: F32 -> seq<byte>, parseF32: seq<byte> -> Option<F32>, v: F32) {
    && IsAscii(showF32(v))
    && FluxFormat.COMMA !in showF32(v) && FluxFormat.PIPE !in showF32(v)
    && parseF32(showF32(v)) == Some(v)
  }

  /** Every coordinate of `notes` formats and parses back as itself. */
  predicate AllShow(notes: seq<OldNote>, showF32: F32 -> seq<byte>, parseF32: seq<byte> -> Option<F32>) {
    forall i | 0 <= i < |notes| :: ShowsAs(showF32, parseF32, notes[i].x) && ShowsAs(showF32, parseF32, notes[i].y)
  }

  lemma DecimalPlain(n: nat)
    ensures IsAscii(Decimal(n)) && FluxFormat.COMMA !in Decimal(n) && FluxFormat.PIPE !in Decimal(n)
  {
    var d := Decimal(n);
    forall i | 0 <= i < |d| ensures d[i] < 0x80 && d[i] != FluxFormat.COMMA && d[i] != FluxFormat.PIPE {
      assert IsDigit(d[i]);
    }
  }

  /** One entry is ASCII and holds no comma. */
  lemma EntryPlain(n: OldNote, showF32: F32 -> seq<byte>, parseF32: seq<byte> -> Option<F32>)
    requires ShowsAs(showF32, parseF32, n.x) && ShowsAs(showF32, parseF32, n.y)
    ensures IsAscii(Entry(n, showF32)) && FluxFormat.COMMA !in Entry(n, showF32)
  {
    DecimalPlain(n.time);
    var p: seq<byte> := [FluxFormat.PIPE];
    AsciiAppend(showF32(n.x), p);
    AsciiAppend(showF32(n.x) + p, showF32(n.y));
    AsciiAppend(showF32(n.x) + p + showF32(n.y), p);
    AsciiAppend(showF32(n.x) + p + showF32(n.y) + p, Decimal(n.time));
  }

  /** The entries are ASCII and hold exactly one comma per note. */
  lemma {:induction false} EntriesPlain(notes: seq<OldNote>, showF32: F32 -> seq<byte>, parseF32: seq<byte> -> Option<F32>)
    requires AllShow(notes, showF32, parseF32)
    ensures IsAscii(Entries(notes, showF32))
    ensures Count(Entries(notes, showF32), FluxFormat.COMMA) == |notes|
    decreases |notes|
  {
    if notes != [] {
      var e := Entry(notes[0], showF32);
      var rest := Entries(notes[1..], showF32);
      assert AllShow(notes[1..], showF32, parseF32) by {
        forall i | 0 <= i < |notes| - 1
          ensures ShowsAs(showF32, parseF32, notes[1..][i].x) && ShowsAs(showF32, parseF32, notes[1..][i].y)
        {
          assert notes[1..][i] == notes[i + 1];
        }
      }
      EntriesPlain(notes[1..], showF32, parseF32);
      EntryPlain(notes[0], showF32, parseF32);
      CountAbsent(e, FluxFormat.COMMA);
      CountAppend([FluxFormat.COMMA] + e, rest, FluxFormat.COMMA);
      CountAppend([FluxFormat.COMMA], e, FluxFormat.COMMA);
      AsciiAppend([FluxFormat.COMMA], e);
      AsciiAppend([FluxFormat.COMMA] + e, rest);
    }
  }

  /** The track holds one comma per note: the number of notes the legacy reader will find. */
  lemma TrackCommas(notes: seq<OldNote>, showF32: F32 -> seq<byte>, parseF32: seq<byte> -> Option<F32>)
    requires AllShow(notes, showF32, parseF32)
    ensures Count(Track(notes, showF32), FluxFormat.COMMA) == |notes|
    ensures IsUtf8(Track(notes, showF32))
  {
    EntriesPlain(notes, showF32, parseF32);
    CountAppend([ZERO], Entries(notes, showF32), FluxFormat.COMMA);
    AsciiAppend([ZERO], Entries(notes, showF32));
    AsciiIsUtf8(Track(notes, showF32));
  }

  /** The entries of `notes`, one per note. */
  function EntryList(notes: seq<OldNote>, showF32: F32 -> seq<byte>): (r: seq<seq<byte>>)
    ensures |r| == |notes|
    ensures forall i | 0 <= i < |notes| :: r[i] == Entry(notes[i], showF32)
  {
    seq(|notes|, i requires 0 <= i < |notes| => Entry(notes[i], showF32))
  }

  lemma {:induction false} JoinEntries(notes: seq<OldNote>, head: seq<byte>, showF32: F32 -> seq<byte>)
    ensures Join([head] + EntryList(notes, showF32), [FluxFormat.COMMA]) == head + Entries(notes, showF32)
    decreases |notes|
  {
    var parts := [head] + EntryList(notes, showF32);
    if notes == [] {
      assert parts == [head];
    } else {
      var e, more := Entry(notes[0], showF32), Entries(notes[1..], showF32);
      var tail := [e] + EntryList(notes[1..], showF32);
      assert parts[1..] == tail;
      assert Join(parts, [FluxFormat.COMMA]) == head + [FluxFormat.COMMA] + Join(tail, [FluxFormat.COMMA]);
      JoinEntries(notes[1..], e, showF32);
      assert Entries(notes, showF32) == [FluxFormat.COMMA] + e + more;
      Assoc(head, [FluxFormat.COMMA], e + more);
      Assoc([FluxFormat.COMMA], e, more);
    }
  }

  /** The legacy reader splits the track back into `0` and one entry per note. */
  lemma SplitTrack(notes: seq<OldNote>, showF32: F32 -> seq<byte>, parseF32: seq<byte> -> Option<F32>)
    requires AllShow(notes, showF32, parseF32)
    ensures Split(Track(notes, showF32), [FluxFormat.COMMA]) == [[ZERO]] + EntryList(notes, showF32)
  {
    var parts := [[ZERO]] + EntryList(notes, showF32);
    JoinEntries(notes, [ZERO], showF32);
    forall i | 0 <= i < |parts| ensures NoMatchBefore(parts[i], [FluxFormat.COMMA]) && NoMatch(parts[i], [FluxFormat.COMMA]) {
      if i > 0 {
        EntryPlain(notes[i - 1], showF32, parseF32);
      }
      Absent(parts[i], FluxFormat.COMMA);
    }
    SplitJoin(parts, [FluxFormat.COMMA]);
  }

  /** The note a formatted entry reads back as. */
  function AsFlux(n: OldNote): FluxFormat.FluxNote {
    FluxFormat.FluxNote(n.time, n.x, n.y)
  }

  /** The chart the track of `notes` reads back as: the same times and coordinates, in the same order. */
  function FluxNotes(notes: seq<OldNote>): (r: seq<FluxFormat.FluxNote>)
    ensures |r| == |notes|
    ensures forall i | 0 <= i < |notes| :: r[i] == AsFlux(notes[i])
  {
    seq(|notes|, i requires 0 <= i < |notes| => AsFlux(notes[i]))
  }

  /** The legacy reader reads one entry back as the note it came from. */
  lemma EntryRead(n: OldNote, showF32: F32 -> seq<byte>, parseF32: seq<byte> -> Option<F32>)
    requires ShowsAs(showF32, parseF32, n.x) && ShowsAs(showF32, parseF32, n.y)
    ensures FluxFormat.SsNote(Entry(n, showF32), parseF32) == Some(AsFlux(n))
  {
    var fields := [showF32(n.x), showF32(n.y), Decimal(n.time)];
    DecimalPlain(n.time);
    forall i | 0 <= i < 3 ensures NoMatchBefore(fields[i], [FluxFormat.PIPE]) && NoMatch(fields[i], [FluxFormat.PIPE]) {
      Absent(fields[i], FluxFormat.PIPE);
    }
    var sep: seq<byte> := [FluxFormat.PIPE];
    assert fields[1..] == [showF32(n.y), Decimal(n.time)] && fields[1..][1..] == [Decimal(n.time)];
    assert Join(fields[1..][1..], sep) == Decimal(n.time);
    assert Join(fields[1..], sep) == showF32(n.y) + sep + Decimal(n.time);
    assert Join(fields, sep) == Entry(n, showF32);
    SplitJoin(fields, [FluxFormat.PIPE]);
    ParseDecimal(n.time, TWO32);
  }

  /**
    Round trip of the text track: flux-map's `convert_ss_to_flux` reads the
    track back as the notes in the same order, with the same times and
    coordinates, provided each coordinate's `Display` text parses back to it.
  */
  lemma TrackRoundTrip(notes: seq<OldNote>, showF32: F32 -> seq<byte>, parseF32: seq<byte> -> Option<F32>)
    requires AllShow(notes, showF32, parseF32)
    ensures FluxFormat.SsToFlux(Track(notes, showF32), parseF32)
      == Some(FluxNotes(notes))
  {
    var track := Track(notes, showF32);
    TrackCommas(notes, showF32, parseF32);
    SplitTrack(notes, showF32, parseF32);
    var entries := Split(track, [FluxFormat.COMMA])[1..];
    assert entries == EntryList(notes, showF32);
    forall i | 0 <= i < |entries| ensures FluxFormat.SsNote(entries[i], parseF32) == Some(AsFlux(notes[i])) {
      EntryRead(notes[i], showF32, parseF32);
    }
    var got := seq(|entries|, i requires 0 <= i < |entries| => FluxFormat.SsNote(entries[i], parseF32).value);
    assert got == FluxNotes(notes);
    assert FluxFormat.SsToFlux(track, parseF32) == Some(got);
  }

  /** The artist map-creator gives a converted map. */
  const UNKNOWN_ARTIST: seq<byte> := Ascii("<unknown>")

  /** `into`: artist `<unknown>`, mapper the creator line, song name the name line, the text track and the music. */
  function IntoCreator(s: OldSspm1, showF32: F32 -> seq<byte>): (m: CreatorFormat.CreatorMap) {
    CreatorFormat.CreatorMap(UNKNOWN_ARTIST, s.name, s.creator, Track(s.notes, showF32), s.music)
  }

  /** `into` as written: the track built by its loop, then the fields moved into the new map. */
  method Into(s: OldSspm1, showF32: F32 -> seq<byte>) returns (m: CreatorFormat.CreatorMap)
    ensures m == IntoCreator(s, showF32)
  {
    var track := EmitTrack(s.notes, showF32);
    m := CreatorFormat.CreatorMap(UNKNOWN_ARTIST, s.name, s.creator, track, s.music);
  }

  /**
    End to end: a map this reader produced, converted and saved by
    map-creator, then opened by flux-map's legacy reader and converted, has
    artist `<unknown>`, mapper the creator line, song name the name line,
    the notes in the order they were sorted into, and the music.
  */
  lemma ConvertSaveLoad(s: OldSspm1, showF32: F32 -> seq<byte>, parseF32: seq<byte> -> Option<F32>)
    requires IsUtf8(s.name) && IsUtf8(s.creator)
    requires AllShow(s.notes, showF32, parseF32)
    requires CreatorFormat.Fits(IntoCreator(s, showF32))
    ensures var saved := CreatorFormat.Saved(IntoCreator(s, showF32));
      && FluxLegacy.Decode(saved, 0).Ok?
      && FluxLegacy.ToFlux(FluxLegacy.Decode(saved, 0).value, parseF32) == Some(FluxFormat.MapValue(
        1,
        map[FluxFormat.MAPPER := s.creator, FluxFormat.ARTIST := UNKNOWN_ARTIST, FluxFormat.SONG_NAME := s.name],
        map[FluxFormat.DEFAULT := FluxNotes(s.notes)],
        s.music,
        None))
  {
    var m := IntoCreator(s, showF32);
    var track := Track(s.notes, showF32);
    var notes := FluxNotes(s.notes);
    var l := FluxLegacy.Legacy(UNKNOWN_ARTIST, s.name, s.creator, track, s.music);
    SavedReadBack(s, showF32, parseF32);
    TrackRoundTrip(s.notes, showF32, parseF32);
    assert FluxFormat.SsToFlux(l.mapData, parseF32) == Some(notes);
  }

  /** The saved conversion reads back through the legacy reader as the fields it was made of. */
  lemma SavedReadBack(s: OldSspm1, showF32: F32 -> seq<byte>, parseF32: seq<byte> -> Option<F32>)
    requires IsUtf8(s.name) && IsUtf8(s.creator)
    requires AllShow(s.notes, showF32, parseF32)
    requires CreatorFormat.Fits(IntoCreator(s, showF32))
    ensures FluxLegacy.Decode(CreatorFormat.Saved(IntoCreator(s, showF32)), 0)
      == Ok(FluxLegacy.Legacy(UNKNOWN_ARTIST, s.name, s.creator, Track(s.notes, showF32), s.music))
  {
    TrackCommas(s.notes, showF32, parseF32);
    AsciiIsUtf8(UNKNOWN_ARTIST);
    CreatorFormat.SaveThenLoad(IntoCreator(s, showF32));
  }

}
