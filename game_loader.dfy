/**
  The game's own older map file (src/maploader.rs): UTF-8 text cut into
  sections by the separator `⁜` (U+205C, bytes E2 81 9C). Section 0 is the
  metadata, a comma-separated list whose first three fields are the artist,
  the song name and the mapper; section 1 is the note track; section 2, taken
  as bytes, is the audio; later sections and later metadata fields are
  ignored. Every failure of the source is a panic, here `None`.
*/
module GameLoader {
  import opened Bytes
  import opened Text
  import opened Results
  import FluxFormat

  /** The game's `FluxMap`. */
  datatype GameMap = GameMap(
    artist: seq<byte>,
    songName: seq<byte>,
    mapper: seq<byte>,
    mapData: seq<byte>,
    mp3Data: seq<byte>)

  /** `SUPER_SPECIAL_SEP`, the UTF-8 encoding of U+205C. */
  const SEP: seq<byte> := [0xE2, 0x81, 0x9C]

  const COMMA: byte := FluxFormat.COMMA

  /** `FluxMap::empty`. */
  function Empty(): (m: GameMap)
    ensures m.artist == [] && m.songName == [] && m.mapper == []
    ensures m.mapData == [] && m.mp3Data == []
  {
    GameMap([], [], [], [], [])
  }

  /**
    What `load_map` makes of the file's bytes: not UTF-8, fewer than three
    sections or fewer than three metadata fields panics (`None`).
  */
  function Load(file: seq<byte>): (r: Option<GameMap>)
    ensures r.Some? ==> IsUtf8(file)
    ensures r.Some? ==> |Split(file, SEP)| >= 3 && |Split(Split(file, SEP)[0], [COMMA])| >= 3
  {
    if !IsUtf8(file) then None
    else
      var sections := Split(file, SEP);
      if |sections| < 3 then None
      else
        var meta := Split(sections[0], [COMMA]);
        if |meta| < 3 then None
        else Some(GameMap(meta[0], meta[1], meta[2], sections[1], sections[2]))
  }

  /** `load_map` without the file read: an empty map whose fields are assigned from the split text. */
  method LoadMap(file: seq<byte>) returns (r: Option<GameMap>)
    ensures r == Load(file)
  {
    if !IsUtf8(file) {
      return None;
    }
    var loaded := Empty();
    var sections := Split(file, SEP);
    if |sections| < 3 {
      return None;
    }
    var meta := sections[0];
    loaded := loaded.(mapData := sections[1]);
    loaded := loaded.(mp3Data := sections[2]);
    var metaSections := Split(meta, [COMMA]);
    if |metaSections| < 3 {
      return None;
    }
    loaded := loaded.(artist := metaSections[0]);
    loaded := loaded.(songName := metaSections[1]);
    loaded := loaded.(mapper := metaSections[2]);
    return Some(loaded);
  }

  /** Bytes that are not UTF-8 never load. */
  lemma NotUtf8Panics(file: seq<byte>)
    requires !IsUtf8(file)
    ensures Load(file).None?
  {
  }

  /**
    A loaded map loses nothing but what follows its fields: the file is its
    metadata (the three fields, then any further ones) and its two other
    sections, then any further sections, joined back with their separators,
    and no metadata field holds a comma.
  */
  lemma {:induction false} LoadKeepsText(file: seq<byte>)
    requires Load(file).Some?
    ensures var m := Load(file).value;
      var sections := Split(file, SEP);
      var meta := Split(sections[0], [COMMA]);
      && file == Join([Join([m.artist, m.songName, m.mapper] + meta[3..], [COMMA]), m.mapData, m.mp3Data] + sections[3..], SEP)
      && COMMA !in m.artist && COMMA !in m.songName && COMMA !in m.mapper
  {
    var sections := Split(file, SEP);
    var meta := Split(sections[0], [COMMA]);
    JoinSplit(file, SEP);
    JoinSplit(sections[0], [COMMA]);
    SplitOnOne(sections[0], COMMA);
    assert meta == [meta[0], meta[1], meta[2]] + meta[3..];
    assert sections == [Join(meta, [COMMA]), sections[1], sections[2]] + sections[3..];
  }

  // ---------------------------------------------------------------------
  // The layout load_map expects

  /** `f` can stand as a section: well-formed text holding no `⁜`. */
  predicate Plain(f: seq<byte>) {
    IsUtf8(f) && NoMatch(f, SEP)
  }

  /** A file in the layout `load_map` reads, with any further metadata fields and sections. */
  function Layout(m: GameMap, moreMeta: seq<seq<byte>>, moreSections: seq<seq<byte>>): seq<byte> {
    Join([Join([m.artist, m.songName, m.mapper] + moreMeta, [COMMA]), m.mapData, m.mp3Data] + moreSections, SEP)
  }

  /**
    Round trip: a map written in the layout is loaded back field for field,
    whatever further metadata fields and sections follow, as long as the
    three metadata fields hold no comma and no field holds `⁜`.
  */
  lemma LoadLayout(m: GameMap, moreMeta: seq<seq<byte>>, moreSections: seq<seq<byte>>)
    requires COMMA !in m.artist && COMMA !in m.songName && COMMA !in m.mapper
    requires Plain(m.artist) && Plain(m.songName) && Plain(m.mapper)
    requires Plain(m.mapData) && Plain(m.mp3Data)
    requires forall i | 0 <= i < |moreMeta| :: Plain(moreMeta[i])
    requires forall i | 0 <= i < |moreSections| :: Plain(moreSections[i])
    ensures Load(Layout(m, moreMeta, moreSections)) == Some(m)
  {
    var fields := [m.artist, m.songName, m.mapper] + moreMeta;
    assert forall i | 0 <= i < |fields| :: Plain(fields[i]) by {
      forall i | 0 <= i < |fields| ensures Plain(fields[i]) {
        if i >= 3 {
          assert fields[i] == moreMeta[i - 3];
        }
      }
    }
    MetaFields(m.artist, m.songName, m.mapper, moreMeta);
    PlainJoin(fields);
    Sections([Join(fields, [COMMA]), m.mapData, m.mp3Data], moreSections);
  }

  /** Plain sections joined with `⁜` split back into themselves, and the file is UTF-8. */
  lemma Sections(first: seq<seq<byte>>, more: seq<seq<byte>>)
    requires |first| == 3
    requires forall i | 0 <= i < 3 :: Plain(first[i])
    requires forall i | 0 <= i < |more| :: Plain(more[i])
    ensures Split(Join(first + more, SEP), SEP) == first + more
    ensures IsUtf8(Join(first + more, SEP))
  {
    var parts := first + more;
    forall i | 0 <= i < |parts| ensures IsUtf8(parts[i]) && NoMatch(parts[i], SEP) {
      if i >= 3 {
        assert parts[i] == more[i - 3];
      }
    }
    SplitSections(parts);
    Utf8Join(parts, SEP);
  }

  lemma SplitSections(parts: seq<seq<byte>>)
    requires |parts| >= 1
    requires forall i | 0 <= i < |parts| :: NoMatch(parts[i], SEP)
    ensures Split(Join(parts, SEP), SEP) == parts
  {
    forall i | 0 <= i < |parts| - 1 ensures NoMatchBefore(parts[i], SEP) {
      SepNoOverlap(parts[i]);
    }
    SplitJoin(parts, SEP);
  }

  /** Splitting the metadata text finds the three fields first. */
  lemma MetaFields(a: seq<byte>, s: seq<byte>, mp: seq<byte>, more: seq<seq<byte>>)
    requires COMMA !in a && COMMA !in s && COMMA !in mp
    ensures var meta := Split(Join([a, s, mp] + more, [COMMA]), [COMMA]);
      |meta| >= 3 && meta[0] == a && meta[1] == s && meta[2] == mp
  {
    var tail := Join([mp] + more, [COMMA]);
    assert ([a, s, mp] + more)[1..] == [s, mp] + more;
    assert ([s, mp] + more)[1..] == [mp] + more;
    assert Join([a, s, mp] + more, [COMMA]) == a + [COMMA] + (s + [COMMA] + tail);
    Absent(a, COMMA);
    Absent(s, COMMA);
    Absent(mp, COMMA);
    SplitPiece(a, [COMMA], s + [COMMA] + tail);
    SplitPiece(s, [COMMA], tail);
    if more == [] {
      SplitLast(mp, [COMMA]);
    } else {
      assert ([mp] + more)[1..] == more;
      SplitPiece(mp, [COMMA], Join(more, [COMMA]));
    }
  }

  /** No `⁜` can straddle a comma, so comma-joined plain fields are plain. */
  lemma {:induction false} PlainJoin(fields: seq<seq<byte>>)
    requires |fields| >= 1
    requires forall i | 0 <= i < |fields| :: Plain(fields[i])
    ensures Plain(Join(fields, [COMMA]))
    decreases |fields|
  {
    if |fields| > 1 {
      var tail := fields[1..];
      forall i | 0 <= i < |tail| ensures Plain(tail[i]) {
        assert tail[i] == fields[i + 1];
      }
      PlainJoin(tail);
      var rest := Join(tail, [COMMA]);
      PlainComma(fields[0], rest);
      AsciiIsUtf8([COMMA]);
      Utf8Three(fields[0], [COMMA], rest);
    }
  }

  lemma PlainComma(a: seq<byte>, b: seq<byte>)
    requires NoMatch(a, SEP) && NoMatch(b, SEP)
    ensures NoMatch(a + [COMMA] + b, SEP)
  {
    var s := a + [COMMA] + b;
    forall k | 0 <= k < |s| ensures !MatchAt(s, k, SEP) {
      if k + 3 <= |s| {
        if k + 3 <= |a| {
          assert s[k..k + 3] == a[k..k + 3];
          assert !MatchAt(a, k, SEP);
        } else if k <= |a| {
          assert s[|a|] == COMMA;
          assert s[k..k + 3][|a| - k] == COMMA;
        } else {
          assert s[k..k + 3] == b[k - |a| - 1..k - |a| + 2];
          assert !MatchAt(b, k - |a| - 1, SEP);
        }
      }
    }
  }

  /**
    `⁜` has no border (no proper prefix of it is also a suffix), so a match
    can never begin inside a piece and run on into the separator after it.
  */
  lemma SepNoOverlap(p: seq<byte>)
    requires NoMatch(p, SEP)
    ensures NoMatchBefore(p, SEP)
  {
    var s := p + SEP;
    forall k | 0 <= k < |p| ensures !MatchAt(s, k, SEP) {
      if k + 3 <= |p| {
        assert s[k..k + 3] == p[k..k + 3];
        assert !MatchAt(p, k, SEP);
      } else if k + 1 == |p| {
        assert s[k..k + 3][1] == 0xE2;
      } else {
        assert s[k..k + 3][2] == 0xE2;
      }
    }
  }
}
