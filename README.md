# Flux beatmap formats in Dafny

Flux is a rhythm game. Its maps travel in several byte formats, and this project models them and proves properties about them:

- **FLUX container** (`flux-map`). A versioned, big-endian container with:
  - a signature and a version byte;
  - a metadata table and a table of charts (each chart a list of notes);
  - an optional jacket image;
  - the music.

  The model covers its builders, its decoder `parse_data`, the byte-building half of `save`, and `convert_ss_to_flux`. That last one reads the legacy text note track `id,x|y|time,x|y|time,…`.
- **C reader of the FLUX container** (`src/loaders/map.c`). It walks the same layout with hand-written big-endian helpers.
- **Legacy single-file map.**
  - Written by map-creator's `save`.
  - Read by flux-map's `FluxLegacy`.
  - Also read by the game's older separator-based loader (`src/maploader.rs`).
- **Foreign SS+m format.**
  - Its version-1 parser and its conversion to a FLUX map, as flux-map has them.
  - The signature and version dispatch of map-creator.
  - map-creator's older version-1 parser, which emits the legacy text track.
- **Runtime note queue of the game** (`src/managers/notes_manager.rs`):
  - `load_maps` turns the text track into notes;
  - `update_index` queues due notes;
  - `move_notes` retires at most one note per frame and counts it as a hit or a miss (`src/managers/stats_manager.rs`).
- **Map menu** (`src/ui/map_menu.rs`). Its search filter, and the extension filter of `init`.

Conventions used throughout:

- **Bytes.** Bytes are `byte` values from 0 to 255.
- **Floats.** An `f32` travels as its 32-bit pattern, because the codecs only copy bits.
- **Strings.** A Rust `String` is a byte sequence that is well-formed UTF-8 (`Text.IsUtf8`).
- **Panics.** A Rust panic (`unwrap`, `expect`, an index out of range) is an explicit `Panic`, `None` or `false` outcome.
- **C reads.** A C read past the end of the buffer is the outcome `Overrun`. `flux_err`, which ends the process, is `Exit`.
- **HashMap iteration.** The order in which `save` walks a `HashMap` is a parameter: any duplicate-free listing of the keys. Every property about `save` holds for all such orders.
- **Cursors.** A cursor is a position in the byte sequence. `map.c` reads through a class holding the buffer (`array<byte>`) and the index, as the C code does.
- **Flavour.** Each operation the source runs as a loop is a method with loop invariants. Each such method is proved equal to a function that states what the loop computes. Objects the source updates in place are classes: `FluxMap`, `FluxNotesManager`, `FluxStatsManager`, `FluxMapMenuUI`.

The modules are:
- Bytes (`bytes.dfy`, with `Results`);
- Text (`text.dfy`);
- F32Bits (`floats.dfy`);
- StableSort (`stable_sort.dfy`);
- FluxFormat (`flux_map.dfy`);
- FluxLegacy (`flux_legacy.dfy`);
- SspmV1 (`sspm_v1.dfy`);
- Sspm (`sspm.dfy`);
- CreatorSspmV1 (`creator_sspm_v1.dfy`);
- CreatorFormat (`creator_save.dfy`);
- CMapLoader (`c_map_loader.dfy`);
- GameLoader (`game_loader.dfy`);
- GameNotes (`game_notes.dfy`);
- MapMenu (`map_menu.dfy`).

## Model

| member | source | states |
|---|---|---|
| FluxFormat.FluxMap.constructor | flux-map/src/lib.rs:54-62 | A new map has version 1, no metadata, no charts, empty music and no image. |
| FluxFormat.FluxMap.AddMetadata | flux-map/src/lib.rs:63-65 | Sets the value under the key, replacing any earlier one; the rest of the map is unchanged. |
| FluxFormat.FluxMap.AddDifficulty | flux-map/src/lib.rs:66-68 | Sets the chart under the name, replacing any earlier one; the rest of the map is unchanged. |
| FluxFormat.FluxMap.AddMusic | flux-map/src/lib.rs:69-71 | Replaces the music; the rest of the map is unchanged. |
| FluxFormat.FluxMap.AddImage | flux-map/src/lib.rs:72-74 | Sets the image to `Some(data)`; the rest of the map is unchanged. |
| FluxFormat.FluxMap.FromValue | flux-map/src/lib.rs:117-123 | The map `parse_data` builds holds exactly the decoded fields. |
| FluxFormat.FluxMap.Save | flux-map/src/lib.rs:128-169 | The buffer built field by field equals the documented layout (`Encode`) for the given iteration orders of the two maps. |
| FluxFormat.FluxMap.WriteMetadata | flux-map/src/lib.rs:139-146 | The metadata loop appends one entry per key in iteration order: u16 key length, key, u32 value length, value. |
| FluxFormat.FluxMap.WriteCharts | flux-map/src/lib.rs:148-159 | The chart loop appends one chart per name in iteration order: u16 name length, name, u64 note count, notes. |
| FluxFormat.WriteNotes | flux-map/src/lib.rs:154-158 | The note loop appends time, x and y of each note, four big-endian bytes each, in order. |
| FluxFormat.EnumerationSize | flux-map/src/lib.rs:139-141 | An iteration order lists as many keys as the map has, so the count written matches the entries written. |
| FluxFormat.NotesBytesSize | flux-map/src/lib.rs:154-158 | Every note takes exactly 12 bytes. |
| FluxFormat.EncodedLength | flux-map/src/lib.rs:136-169 | The output length is 5 + 2 + Σ(6 + key + value) + 2 + Σ(10 + name + 12·notes) + 4 + image + 4 + music. |
| FluxFormat.ReadSized | flux-map/src/lib.rs:33-46 | A `SizedString`/`SizedVec` read yields the bytes right after the length prefix, and the cursor ends after them. |
| FluxFormat.ParseNotes | flux-map/src/lib.rs:101-107 | A block of 12-byte records reads as one note per record. |
| FluxFormat.NotesBlock | flux-map/src/lib.rs:99-107 | `count` notes are read, ending 12·count bytes on; the read fails exactly when the block does not fit. |
| FluxFormat.MetaEntryAt | flux-map/src/lib.rs:91-93 | A metadata entry spans at least its two length prefixes and lies within the data. |
| FluxFormat.DecodeMeta | flux-map/src/lib.rs:88-94 | The metadata loop only moves forward and stays within the data. |
| FluxFormat.ChartAt | flux-map/src/lib.rs:98-108 | A chart spans at least its name prefix and note count and lies within the data. |
| FluxFormat.DecodeDiffs | flux-map/src/lib.rs:95-109 | The chart loop only moves forward and stays within the data. |
| FluxFormat.DecodeTail | flux-map/src/lib.rs:110-123 | Image-length and music errors are `BadDifficulty`; the result keeps both tables; a decoded image is never `Some` of nothing. |
| FluxFormat.AfterMeta | flux-map/src/lib.rs:95-123 | After the metadata loop the only errors are `BadMetadata` (the loop ran out) and `BadDifficulty`. |
| FluxFormat.AfterDiffs | flux-map/src/lib.rs:110-123 | After the chart loop every error is `BadDifficulty` and the metadata is kept. |
| FluxFormat.Decode | flux-map/src/lib.rs:79-127 | `BadSignature` exactly when the first four bytes are missing or are not `FLUX`, before anything else is read. `BadVersion` exactly when a good signature has no version byte or a version other than 1. `BadImage` and `BadMusic` never occur. A decoded map has version 1. |
| FluxFormat.DecodeErrorSections | flux-map/src/lib.rs:89-116 | `BadMetadata` exactly when the metadata count or an entry runs out; once the metadata is read, every error is `BadDifficulty`. |
| FluxFormat.ParseData | flux-map/src/lib.rs:79-127 | The cursor-walking decoder returns exactly what `Decode` specifies: a fresh map, the same error, or a panic. |
| FluxFormat.ReadMetadata | flux-map/src/lib.rs:88-94 | The metadata loop computes `DecodeMeta`. |
| FluxFormat.ReadMetaEntry | flux-map/src/lib.rs:91-93 | One key and value read computes `MetaEntryAt`. |
| FluxFormat.ReadDifficulties | flux-map/src/lib.rs:95-109 | The chart loop computes `DecodeDiffs`. |
| FluxFormat.ReadChart | flux-map/src/lib.rs:98-108 | One chart read computes `ChartAt`. |
| FluxFormat.ReadNotes | flux-map/src/lib.rs:101-107 | The note loop computes `NotesBlock`. |
| FluxFormat.ReadTail | flux-map/src/lib.rs:110-116 | The image and music reads compute `DecodeTail`. |
| FluxFormat.CollectAll | flux-map/src/lib.rs:90-94 | Inserting every entry of a map, in any iteration order, rebuilds the map. |
| FluxFormat.NoteOfBytes | flux-map/src/lib.rs:102-105 | A written note reads back as itself. |
| FluxFormat.ParseNotesBytes | flux-map/src/lib.rs:101-107 | A written note block reads back as the same notes, in order. |
| FluxFormat.MetaEntryRead | flux-map/src/lib.rs:91-93 | A written metadata entry whose lengths fit and whose key is UTF-8 reads back as itself. |
| FluxFormat.ChartRead | flux-map/src/lib.rs:98-108 | A written chart whose lengths fit and whose name is UTF-8 reads back as itself. |
| FluxFormat.DecodeLaidOutMeta | flux-map/src/lib.rs:88-94 | The metadata loop reads written entries back in order and ends right after them. |
| FluxFormat.DecodeLaidOutDiffs | flux-map/src/lib.rs:95-109 | The chart loop reads written charts back in order and ends right after them. |
| FluxFormat.MetaSectionRead | flux-map/src/lib.rs:89-94 | The written metadata section decodes back to the whole metadata table. |
| FluxFormat.DiffsSectionRead | flux-map/src/lib.rs:96-109 | The written chart section decodes back to the whole chart table. |
| FluxFormat.TailLayout | flux-map/src/lib.rs:110-116 | The written image length is 0 exactly for no image or an empty one; otherwise the image bytes follow it; the music reads back. |
| FluxFormat.DecodeEncoded | flux-map/src/lib.rs:79-169 | For any iteration orders and any trailing bytes, decoding the output of `save` gives back the map, provided it has version 1 and its counts and lengths fit their fields. The one exception: `Some` of an empty image comes back as no image. |
| FluxFormat.RoundTrip | flux-map/src/lib.rs:79-127 | `parse_data` of the bytes `save` writes is the map itself, for a version-1 map whose lengths fit and whose image is absent or nonempty. |
| FluxFormat.ConvertSsToFlux | flux-map/src/lib.rs:173-185 | The loop over the track's entries computes `SsToFlux`; it panics on non-UTF-8 text and on the first entry that is short or does not parse. |
| FluxFormat.SsToFluxCount | flux-map/src/lib.rs:173-185 | An accepted track yields one note per comma: note i comes from entry i + 1, in input order, so the first entry is skipped. |
| FluxLegacy.FieldAt | flux-map/src/convert/fluxlegacy.rs:18-21 | A short read of a prefixed field fails with `BadFormat` at the field's start; a successful read returns the bytes after the prefix and the position after them. |
| FluxLegacy.TryFromCursor | flux-map/src/convert/fluxlegacy.rs:15-33 | The cursor reader computes `Decode`: three u16-prefixed strings, a u32-prefixed track, the rest as audio. A track that is not UTF-8 fails with `BadFormat` at the end of the data. |
| FluxLegacy.TryFromBytes | flux-map/src/convert/fluxlegacy.rs:34-39 | Reading a byte slice is reading a cursor from position 0. |
| FluxLegacy.DecodeFields | flux-map/src/convert/fluxlegacy.rs:18-24 | A successful read found the four prefixed fields one after another. The audio is every byte after the track, possibly none. All four texts are UTF-8. |
| FluxLegacy.ToFluxContents | flux-map/src/convert/fluxlegacy.rs:46-56 | The conversion has metadata exactly `mapper`, `artist` and `song_name`, and one chart `default` read from the track. The audio becomes the music and there is no image. It fails exactly when the track conversion panics. |
| FluxLegacy.IntoFluxMap | flux-map/src/convert/fluxlegacy.rs:46-56 | The builder calls produce a fresh map equal to `ToFlux`. |
| SspmV1.LineEnd | flux-map/src/convert/sspmv1.rs:62-64 | `read_line` stops right after the first newline, or at the end of the data. |
| SspmV1.LineAt | flux-map/src/convert/sspmv1.rs:62-64 | A line is kept with its newline and must be UTF-8; otherwise `BadFormat` at the position after it. |
| SspmV1.HeaderAt | flux-map/src/convert/sspmv1.rs:59-71 | The three header lines are consecutive in the data, and the binary section starts at the absolute position right after the third. |
| SspmV1.LEAt | flux-map/src/convert/sspmv1.rs:72-75 | A little-endian read succeeds exactly when the bytes are there; it fails with `BadFormat` at its own start. |
| SspmV1.BlobAt | flux-map/src/convert/sspmv1.rs:79-80 | `vec![0; len as usize]` panics (`Overflow`) exactly when the length is 2^63 or more. Otherwise `read_exact` takes exactly `len` bytes, or fails with `BadFormat` at its start. |
| SspmV1.SizedAt | flux-map/src/convert/sspmv1.rs:78-81 | A u64 little-endian length, then exactly that many bytes. It panics (`Overflow`) exactly when the length field is present and at least 2^63. |
| SspmV1.FixedAt | flux-map/src/convert/sspmv1.rs:72-75 | The fixed header is 10 bytes; the note count is bytes 4 to 8 read little-endian, and the image type is byte 9. |
| SspmV1.ImageAt | flux-map/src/convert/sspmv1.rs:76-94 | Image type 2 is a sized blob. Type 1 is a sized blob after six bytes of height, width, mipmaps and format. Both carry the sized read's panic for a length of 2^63 or more. Any other type consumes nothing and leaves no image. |
| SspmV1.AudioAt | flux-map/src/convert/sspmv1.rs:95-101 | `NoAudio` exactly when the flag byte is present and is not 1. Otherwise the sized music follows, with its panic for a length of 2^63 or more. |
| SspmV1.NoteAt | flux-map/src/convert/sspmv1.rs:104-125 | A note is a u32 time and a type byte, then two f32 (type 1, 13 bytes) or two u8 (any other type, 7 bytes). |
| SspmV1.NotesFrom | flux-map/src/convert/sspmv1.rs:102-126 | Exactly `note_count` notes are read, in file order. |
| SspmV1.ImageTooLongPanics | flux-map/src/convert/sspmv1.rs:77-79 | An image of type 2 with a length of 2^63 or more panics, whatever follows it. |
| SspmV1.MusicTooLongPanics | flux-map/src/convert/sspmv1.rs:95-100 | With no image, a music length of 2^63 or more panics right after the audio flag. |
| SspmV1.TryFromCursor | flux-map/src/convert/sspmv1.rs:52-139 | The cursor parser computes `Parse`, its panic included. |
| SspmV1.TryFromBytes | flux-map/src/convert/sspmv1.rs:46-51 | Parsing a byte vector is parsing a cursor from position 0. |
| SspmV1.Parse | flux-map/src/convert/sspmv1.rs:52-139 | The version-1 parser panics only on a u64 length field of 2^63 or more; every other short or malformed input is a `BadFormat` or `NoAudio` error. |
| SspmV1.ReadBody | flux-map/src/convert/sspmv1.rs:70-137 | The binary section, read field by field, computes `BodyAt`: errors where `BodyAt` fails, and a panic where the image or music length is 2^63 or more. |
| SspmV1.ReadNotes | flux-map/src/convert/sspmv1.rs:102-126 | The note loop computes `NotesFrom`. |
| SspmV1.SortNotes | flux-map/src/convert/sspmv1.rs:127 | The notes come out ascending by time and are a permutation of the input; notes with equal times keep their input order. |
| SspmV1.FluxNoteOf | flux-map/src/convert/sspmv1.rs:144-153 | Float coordinates are copied; byte coordinates are widened to an f32 that denotes exactly the byte's value. |
| SspmV1.ToFluxContents | flux-map/src/convert/sspmv1.rs:141-163 | The metadata is exactly `mapper` = creator and `song_name` = name. There is one chart, `default`, with the notes converted in the same order. Music and image are copied, and the id plays no part. |
| SspmV1.IntoFluxMap | flux-map/src/convert/sspmv1.rs:141-166 | The conversion loop and builder calls produce a fresh map equal to `ToFlux`. |
| Sspm.TryFrom | map-creator/src/convert/sspm.rs:14-35 | Outcomes of the dispatch: fewer than 4 bytes gives `BadFormat` at the length. A wrong signature gives `UnknownSig` with those 4 bytes. A missing version gives `BadFormat(4)`. Version 1 gives the version-1 parse from offset 6, with its errors wrapped and its panic passed on. Version 2 gives `V2`. Any other version gives `UnknownVer`. `V2Failed` is never produced. |
| Sspm.TryFromBytes | map-creator/src/convert/sspm.rs:16-34 | The cursor reads compute `TryFrom`. |
| Sspm.ReadSignature | map-creator/src/convert/sspm.rs:18 | The 4-byte signature read succeeds exactly when 4 bytes exist, else fails at the length. |
| Sspm.TryFromHeader | map-creator/src/convert/sspm.rs:23-33 | Whatever the body, the little-endian version alone selects the branch: 1, 2, or unknown. |
| Sspm.IntoFlux | map-creator/src/convert/sspm.rs:36-43 | A version-1 map converts; a version-2 map panics. |
| Sspm.IntoFluxContents | map-creator/src/convert/sspm.rs:36-43 | A converted version-1 map has exactly the creator and name metadata, one `default` chart of the same length, the music and the image. |
| Sspm.IntoFluxMap | map-creator/src/convert/sspm.rs:36-43 | Conversion delegates to the version-1 conversion and is refused exactly for `V2`. |
| CreatorSspmV1.ReadLine | map-creator/src/convert/sspmv1.rs:46-48 | A line is consumed through its newline whether or not it is UTF-8, and kept only when it is. |
| CreatorSspmV1.ParseAfterLines | map-creator/src/convert/sspmv1.rs:43-54 | With three complete lines in front, the binary section is exactly the bytes after them, read from offset 0: the parse succeeds or panics exactly when that section does. |
| CreatorSspmV1.Read | map-creator/src/convert/sspmv1.rs:55-58 | A little-endian read succeeds exactly when its bytes are present. |
| CreatorSspmV1.Fixed | map-creator/src/convert/sspmv1.rs:55-58 | The fixed header needs 10 bytes and yields the note count and the image type. |
| CreatorSspmV1.AsI64 | map-creator/src/convert/sspmv1.rs:62 | `len as i64` is the two's-complement reinterpretation of the u64. |
| CreatorSspmV1.SeekCurrent | map-creator/src/convert/sspmv1.rs:62 | A relative seek fails exactly when the new position would be negative or overflow u64. |
| CreatorSspmV1.SkipImage | map-creator/src/convert/sspmv1.rs:59-65 | Only type 2 reads a u64 length and seeks over the image; type 1 and other types consume nothing. |
| CreatorSspmV1.SkipImageInBuffer | map-creator/src/convert/sspmv1.rs:59-65 | In a real buffer, a length below 2^63 moves the cursor forward by that much, even past the end. A larger length moves it back by 2^64 minus the length. |
| CreatorSspmV1.AudioAt | map-creator/src/convert/sspmv1.rs:66-72 | A flag other than 1 fails. Otherwise a u64 length and the music bytes follow. It panics exactly when the flag is 1 and the length is 2^63 or more. |
| CreatorSspmV1.NoteAt | map-creator/src/convert/sspmv1.rs:75-96 | A note is 13 bytes (type 1, two f32) or 7 bytes (two u8 widened exactly to f32 at parse time). |
| CreatorSspmV1.NotesFrom | map-creator/src/convert/sspmv1.rs:73-97 | Exactly `note_count` notes are read, in file order. |
| CreatorSspmV1.BodySorted | map-creator/src/convert/sspmv1.rs:73-98 | The parsed notes are ascending by time, a permutation of the notes in the file, with equal times in file order. |
| CreatorSspmV1.MusicTooLongPanics | map-creator/src/convert/sspmv1.rs:66-71 | A body with no image and a music length of 2^63 or more panics, whatever follows. |
| CreatorSspmV1.TryFrom | map-creator/src/convert/sspmv1.rs:37-109 | The parser as written computes `Parse`: three lines, `read_to_end`, then the binary section through a new cursor, with `Err(())` for a failed read and a panic for the music allocation. |
| CreatorSspmV1.ReadBody | map-creator/src/convert/sspmv1.rs:54-107 | The binary section read with a cursor from 0 computes `Body`, its music-allocation panic included. |
| CreatorSspmV1.ReadNotes | map-creator/src/convert/sspmv1.rs:73-97 | The note loop computes `NotesFrom`. |
| CreatorSspmV1.SortNotes | map-creator/src/convert/sspmv1.rs:98 | The result is the stable ascending sort by time. |
| CreatorSspmV1.EmitTrack | map-creator/src/convert/sspmv1.rs:112-124 | The loop builds `0`, then a comma and the formatted note for each note in order. |
| CreatorSspmV1.TrackCommas | map-creator/src/convert/sspmv1.rs:112-124 | The emitted track holds exactly one comma per note. |
| CreatorSspmV1.SplitTrack | map-creator/src/convert/sspmv1.rs:112-124 | Splitting the track on commas gives `0` and then one entry per note, in order. |
| CreatorSspmV1.EntryRead | map-creator/src/convert/sspmv1.rs:117-122 | One formatted entry reads back through `convert_ss_to_flux` as the same time and coordinates. |
| CreatorSspmV1.TrackRoundTrip | map-creator/src/convert/sspmv1.rs:112-124 | flux-map's `convert_ss_to_flux` reads the emitted track back as the notes in order, whenever each coordinate's decimal text parses back to it. |
| CreatorSspmV1.Into | map-creator/src/convert/sspmv1.rs:110-136 | The conversion sets artist `<unknown>`, mapper = creator line and song name = name line. It emits the text track and moves the music unchanged. |
| CreatorSspmV1.ConvertSaveLoad | map-creator/src/convert/sspmv1.rs:110-136 | End to end: convert, save with map-creator, read with flux-map's legacy reader and convert. The result has artist `<unknown>`, the creator and name lines, the sorted notes and the music. |
| CreatorSspmV1.SavedReadBack | map-creator/src/convert/sspmv1.rs:125-131 | The saved conversion reads back through the legacy reader as the fields it was made from. |
| CreatorFormat.Saved | map-creator/src/lib.rs:12-21 | The output length is 10 + artist + song name + mapper + track + music. |
| CreatorFormat.Save | map-creator/src/lib.rs:12-21 | Extending the buffer field by field, with `as u16`/`as u32` truncation, gives `Saved`. |
| CreatorFormat.BEMod | map-creator/src/lib.rs:13-19 | Writing a length through `as u16`/`as u32` writes it modulo 2^16 or 2^32. |
| CreatorFormat.SavedLayout | map-creator/src/lib.rs:13-21 | Each payload follows its length field unchanged. The length fields hold the payload lengths modulo 2^16 (strings) or 2^32 (track). The music comes last with no prefix. |
| CreatorFormat.SavedFields | map-creator/src/lib.rs:13-21 | When the lengths fit, the legacy reader's four field reads find the four payloads and end where the music starts. |
| CreatorFormat.SaveThenLoad | map-creator/src/lib.rs:13-21 | Round trip: when the lengths fit and the track is UTF-8, flux-map's `FluxLegacy::try_from` returns the same five fields. |
| CreatorFormat.SaveThenLoadBadTrack | map-creator/src/lib.rs:19-21 | A saved track that is not UTF-8 makes the legacy reader fail with `BadFormat` at the end of the data. |
| CMapLoader.MapCursor.constructor | src/loaders/map.c:62 | The index starts at 0 over the file buffer. |
| CMapLoader.MapCursor.ReadU8 | src/loaders/map.c:36-38 | Returns the byte at the index and advances it by 1. |
| CMapLoader.MapCursor.ReadU16 | src/loaders/map.c:29-34 | Returns the big-endian value of the next 2 bytes and advances by exactly 2. |
| CMapLoader.MapCursor.ReadU32 | src/loaders/map.c:20-27 | Returns the big-endian value of the next 4 bytes and advances by exactly 4. |
| CMapLoader.MapCursor.ReadU64 | src/loaders/map.c:7-18 | Returns the big-endian value of the next 8 bytes and advances by exactly 8. |
| CMapLoader.MapCursor.ReadFloat | src/loaders/map.c:40-45 | Yields the bit pattern `read_u32` returns, consuming 4 bytes. |
| CMapLoader.MapCursor.ReadBytes | src/loaders/map.c:96-98 | A loop of `read_u8` calls copies exactly the next `n` bytes. |
| CMapLoader.MapCursor.ReadSized | src/loaders/map.c:93-107 | A u16 or u32 length, then that many bytes: the same read as flux-map's `SizedString`/`SizedVec`. |
| CMapLoader.MapCursor.SkipNotes | src/loaders/map.c:144-153 | The note loop consumes exactly 12 bytes per note. |
| CMapLoader.Before | src/loaders/map.c:113 | The string is cut at its first CR or LF (and, as a C string, at its first NUL). |
| CMapLoader.StoreMeta | src/loaders/map.c:109-122 | Only `artist`, `song_name` and `mapper` are kept. `has_artist` is set exactly with the artist. Other keys change nothing. |
| CMapLoader.MetaWalk | src/loaders/map.c:92-123 | The metadata loop stays within the data, and `has_artist` keeps agreeing with whether an artist was seen. |
| CMapLoader.ChartWalk | src/loaders/map.c:130-153 | A chart consumes its u16-prefixed name, a u64 count and 12 bytes per note. |
| CMapLoader.DiffWalk | src/loaders/map.c:129-154 | The chart loop collects one cut name per chart, in order. |
| CMapLoader.LoadSpec | src/loaders/map.c:62-173 | The process exits exactly on a wrong signature or a version other than 1. A loaded map starts with `FLUX` and version 1. `has_artist` holds exactly when an artist was kept. `has_image` holds exactly when the image size is nonzero. |
| CMapLoader.LoadTail | src/loaders/map.c:158-173 | The image and music are u32-prefixed blobs, and `has_image` holds exactly when the image is nonempty. |
| CMapLoader.LoadMetadata | src/loaders/map.c:84-123 | The cursor loop computes `MetaWalk`. |
| CMapLoader.LoadChart | src/loaders/map.c:130-153 | One chart read by the cursor computes `ChartWalk`. |
| CMapLoader.LoadDifficulties | src/loaders/map.c:127-154 | The cursor loop computes `DiffWalk`. |
| CMapLoader.LoadMap | src/loaders/map.c:62-173 | The whole walk over a buffer computes `LoadSpec`. |
| CMapLoader.MetaWalkLaidOut | src/loaders/map.c:92-123 | Over entries written by `save`, the C loop stores each entry in turn and ends where they end. |
| CMapLoader.DiffWalkLaidOut | src/loaders/map.c:129-154 | Over charts written by `save`, the C loop collects their names in order and ends where they end. |
| CMapLoader.MetaSectionWalk | src/loaders/map.c:84-123 | The metadata section written by `save` (count, then entries) is walked to its end, storing the entries in iteration order. |
| CMapLoader.DiffsSectionWalk | src/loaders/map.c:127-154 | The chart section written by `save` is walked to its end, collecting the chart names in iteration order. |
| CMapLoader.LoadTailEncoded | src/loaders/map.c:158-173 | The image and music written by `save` read back, and the image is present exactly when it is nonempty. |
| CMapLoader.MetaFoldPlain | src/loaders/map.c:109-122 | When no key holds a NUL, the kept values are those of the keys themselves, whatever the entry order. |
| CMapLoader.LoadEncoded | src/loaders/map.c:62-173 | The C reader walks whatever `save` writes to its exact end, for any iteration order and trailing bytes. |
| CMapLoader.LoadEncodedPlain | src/loaders/map.c:62-173 | Cross-check of the two readers: `load_map` on `save`'s output keeps artist, song name and mapper cut at CR/LF. It sets `has_artist` exactly when there is an artist, names the charts in written order, has an image exactly when a nonempty one was written, and keeps the music. |
| GameLoader.Empty | src/maploader.rs:12-20 | Every string and the audio are empty. |
| GameLoader.Load | src/maploader.rs:26-47 | A load succeeds only on UTF-8 text with at least 3 sections and at least 3 metadata fields. |
| GameLoader.LoadMap | src/maploader.rs:26-47 | Filling the empty map from the split text computes `Load`. |
| GameLoader.NotUtf8Panics | src/maploader.rs:29-32 | A file that is not UTF-8 never loads. |
| GameLoader.LoadKeepsText | src/maploader.rs:34-42 | A loaded file is its metadata fields and sections joined back with commas and `⁜`, and no kept field holds a comma. |
| GameLoader.LoadLayout | src/maploader.rs:34-42 | Writing a map in the separator layout, with any extra fields or sections, loads back field for field. This needs the three metadata fields to hold no comma and no field to hold `⁜`. |
| GameLoader.Sections | src/maploader.rs:34-37 | Sections free of `⁜` split back into themselves, and the file is UTF-8. |
| GameLoader.MetaFields | src/maploader.rs:39-42 | Splitting the metadata on commas finds the three fields first. |
| GameNotes.StartZ | src/managers/notes_manager.rs:57 | Every note starts at the f32 pattern of 500.0. |
| GameNotes.Remove | src/managers/notes_manager.rs:49 | Removing a byte drops every occurrence of it and nothing else. |
| GameNotes.EntryResults | src/managers/notes_manager.rs:44-66 | Entry j of the track is parsed as entry number j. |
| GameNotes.Collect | src/managers/notes_manager.rs:44-66 | Entry 0 is skipped. The load panics exactly when a later entry does; otherwise note j − 1 comes from entry j. |
| GameNotes.LoadedNotes | src/managers/notes_manager.rs:44-66 | One note per comma. Note j has index j + 1 (as u32) and set indices j + 1 modulo each set size. It starts at depth 500 with no hitsound, spawning at `spawnOf` of its time. |
| GameNotes.EntryAgrees | src/managers/notes_manager.rs:49-56 | An entry the converter reads as a note gives the game the same time and coordinates. |
| GameNotes.ReadsLikeConverter | src/managers/notes_manager.rs:44-66 | The game accepts every track without line breaks that `convert_ss_to_flux` accepts, with the same notes in the same order. |
| GameNotes.NotesManager.constructor | src/managers/notes_manager.rs:29-35 | No notes, nothing queued, cursor 0. |
| GameNotes.NotesManager.Reset | src/managers/notes_manager.rs:37-41 | Empties the notes and the queue and sets the cursor to 0. |
| GameNotes.NotesManager.LoadMaps | src/managers/notes_manager.rs:43-67 | Appends the track's notes to the existing ones without clearing them, leaving the queue and cursor alone. Fails exactly where the source panics. |
| GameNotes.NotesManager.UpdateIndex | src/managers/notes_manager.rs:69-86 | Computes `Update`. It does nothing while paused, before the cursor note spawns, or on the last note. Otherwise it queues the cursor note and moves the cursor by one. It panics when no note is under the cursor. |
| GameNotes.UpdateStep | src/managers/notes_manager.rs:69-86 | One call moves the cursor by 0 or 1 and keeps it below the last note, queuing only the note it leaves. |
| GameNotes.RunQueuesInOrder | src/managers/notes_manager.rs:69-86 | Over any run of frames, notes are queued in order, each once, starting from the cursor, and the cursor never reaches the last note. |
| GameNotes.RunStopsBeforeLast | src/managers/notes_manager.rs:78-80 | Enough late frames queue everything but the last note, which is never queued. |
| GameNotes.OneNoteNeverQueued | src/managers/notes_manager.rs:78-80 | A one-note map never queues its note. |
| GameNotes.RunFixedInOrder | src/managers/notes_manager.rs:69-86 | With the bound test `index >= len` moved before the read (`UpdateFixed`), the queue still receives the notes in order, and no run panics, even on an empty map. |
| GameNotes.RunFixedQueuesAll | src/managers/notes_manager.rs:69-86 | With that corrected test, enough late frames queue every note, the last included. |
| GameNotes.Touched | src/managers/notes_manager.rs:92-102 | Each queued note takes its new depth and has its hitsound marked once it is within depth 1. |
| GameNotes.LastFlagged | src/managers/notes_manager.rs:92-110 | `remove` is the last flagged position, or −1 when none is flagged. |
| GameNotes.AnyHit | src/managers/notes_manager.rs:103-110 | `hit` is set exactly when some note was in the hit window under the cursor. |
| GameNotes.Hitsounds | src/managers/notes_manager.rs:99-102 | At most one hitsound per queued note. |
| GameNotes.HitFlagOutlivesItsNote | src/managers/notes_manager.rs:92-123 | A hit on an earlier note and a later missed note retire the later note and count a hit. |
| GameNotes.Scan | src/managers/notes_manager.rs:92-112 | The loop computes the touched notes, `remove`, `hit` and the hitsound count. |
| GameNotes.ScanNote | src/managers/notes_manager.rs:93-111 | One pass updates the note, `remove`, `hit` and the hitsound count. |
| GameNotes.NotesManager.MoveNotes | src/managers/notes_manager.rs:88-124 | At most one queued note is removed per call: the last flagged one. Its set indices are picked. The total rises by 1, and so does exactly one of hit and missed. total = hit + missed is preserved. |
| GameNotes.StatsManager.constructor | src/managers/stats_manager.rs:9-15 | All counters start at 0, so total = hit + missed. |
| GameNotes.StatsManager.Reset | src/managers/stats_manager.rs:17-21 | All counters are set back to 0. |
| MapMenu.Checks | src/ui/map_menu.rs:48-53 | The `contains` vector holds a `false` exactly when some non-empty word is missing from the path. |
| MapMenu.Matches | src/ui/map_menu.rs:48-56 | The render test shows a map exactly when the search is empty or every non-empty space-separated word occurs in its path. |
| MapMenu.Filter | src/ui/map_menu.rs:47-56 | The listed maps are exactly the stored maps that are shown. |
| MapMenu.FilterAppend | src/ui/map_menu.rs:47 | Filtering keeps the stored order. |
| MapMenu.SpacesShowAll | src/ui/map_menu.rs:49-54 | A search of spaces only has no non-empty word, so every map is shown. |
| MapMenu.SpacesListAll | src/ui/map_menu.rs:47-56 | With such a search, the list is every map, in order. |
| MapMenu.LastDot | src/ui/map_menu.rs:24 | The position of the last dot in the name. |
| MapMenu.FluxExtension | src/ui/map_menu.rs:24-25 | The extension is exactly `flux` when the name ends in `.flux` with something before the dot. |
| MapMenu.FluxNames | src/ui/map_menu.rs:22-29 | `init` keeps at most the entries it is given. |
| MapMenu.FluxNamesKept | src/ui/map_menu.rs:22-29 | The kept entries are exactly those whose extension is `flux`. |
| MapMenu.Paths | src/ui/map_menu.rs:26 | Each kept path is the maps directory, a slash and the entry name. |
| MapMenu.PathUtf8 | src/ui/map_menu.rs:26 | The path is UTF-8 exactly when the entry name is. |
| MapMenu.MapMenuUI.constructor | src/ui/map_menu.rs:14-19 | No maps and an empty search. |
| MapMenu.MapMenuUI.Keep | src/ui/map_menu.rs:23-28 | One entry is appended exactly when its extension is `flux`; it fails when that path is not UTF-8. |
| MapMenu.MapMenuUI.Init | src/ui/map_menu.rs:21-30 | Appends the path of every `.flux` entry, in directory order, to the maps already listed. It fails exactly when a kept path is not UTF-8. |
| MapMenu.MapMenuUI.Visible | src/ui/map_menu.rs:47-56 | The maps given a button are `Filter` of the stored maps by the search, in stored order. |
| StableSort.SortBySortedPermutation | flux-map/src/convert/sspmv1.rs:127 | The sort is ascending by key and a permutation of its input. |
| StableSort.SortByStable | flux-map/src/convert/sspmv1.rs:127 | Elements with equal keys keep their input order. |
| StableSort.StableSortIsSortBy | map-creator/src/convert/sspmv1.rs:98 | Any ascending rearrangement that keeps equal keys in input order is this sort, so the library's algorithm does not matter. |
| StableSort.SortedStableUnique | map-creator/src/convert/sspmv1.rs:98 | Two ascending lists holding the same elements under each key, in the same order, are equal: a stable sort has only one possible result. |
| F32Bits.U8AsF32Exact | flux-map/src/convert/sspmv1.rs:150 | `n as f32` for a byte is an f32 pattern denoting exactly n. |
| F32Bits.U8AsF32Injective | map-creator/src/convert/sspmv1.rs:92-93 | Distinct bytes widen to distinct f32 patterns. |
| Text.Split | flux-map/src/lib.rs:175 | `str::split` always yields at least one piece. |
| Text.JoinSplit | src/maploader.rs:34 | Splitting loses nothing: the pieces joined with the separator restore the text. |
| Text.SplitJoin | src/maploader.rs:34-39 | Pieces free of the separator, once joined, split back into themselves. |
| Text.SplitOnOne | flux-map/src/lib.rs:175 | Splitting on one byte gives one more piece than there are occurrences, and no piece holds the byte. |
| Text.ParseUnsigned | flux-map/src/lib.rs:181 | A parsed `uN` is below the type's bound. |
| Text.ParseDecimal | map-creator/src/convert/sspmv1.rs:118 | A formatted u32 parses back as itself. |
| Bytes.FromBEOfBE | flux-map/src/lib.rs:139-168 | A big-endian field reads back as the value modulo 256^n. |
| Bytes.FromLEOfLE | map-creator/src/convert/sspm.rs:23 | A little-endian field reads back as the value modulo 256^n. |
| Bytes.BEOfFromBE | src/loaders/map.c:7-34 | Every byte string is the big-endian encoding of its own value. |
| Bytes.FromBE2 | src/loaders/map.c:29-34 | `read_u16` computes the first byte times 2^8 plus the second. |
| Bytes.FromBE4 | src/loaders/map.c:20-27 | `read_u32` shifts four bytes into place, most significant first. |
| Bytes.FromBE8 | src/loaders/map.c:7-18 | `read_u64` is the first four bytes times 2^32 plus the last four. |

## Left out

- File and network I/O are not modelled; every reader and writer works on in-memory bytes. This covers `FluxMap::open`, the `fs::write` of both `save`s, `fopen`/`fread` in `map.c`, `fs::read` in `maploader.rs`, and `read_dir` in `init`. The directory listing is a parameter, in its iteration order, and a failed `read_dir` or entry is not modelled.
- Decimal floats are parameters, not modelled. This covers `f32::from_str` in `convert_ss_to_flux` and `load_maps`, and the `{}` formatting of `f32` in map-creator's converter (`parseF32`, `showF32`). It also covers the spawn time computed from the approach time and speed (`spawnOf`).
- The floating-point part of `move_notes` is a per-note `Verdict` parameter: the new depth, its comparisons with 0.5 and 1.0, and the hit-rectangle test. Playing the hitsound is counted, not performed.
- `FluxFormat.RoundTrip`: only version-1 maps whose counts and lengths fit their fields. Outside those bounds the `as u16`/`as u32` casts truncate and decoding does not return the map. `FluxFormat.DecodeEncoded` states what happens to an empty image.
- The SS+m parsers assume a 64-bit target, where `len as usize` is lossless and only lengths of 2^63 or more overflow the capacity. An allocation that is refused for a smaller length aborts the process; that abort is not modelled, and the model reads such a length like any other.
- FluxFormat.ParseData: an allocation failure for a huge note count (`Vec::with_capacity`) is not modelled; a block that does not fit reports `BadDifficulty`.
- The note store of `load_map` in `map.c` is not part of this model; only the cursor walk over the notes is. That store has several defects:
  - it writes `notes[i]` instead of `notes[j]`;
  - `note_len` is never set;
  - each difficulty holds a fixed array of `MAX_MAP_NOTES` notes, and the note count is never checked against it;
  - `mapper`, `artist` and `song_name` are left uninitialised when their keys are absent (`None` here);
  - no read is checked against the buffer (`Overrun` here).
- `flux_info`, `flux_log_none`, `println!` and all rendering are not modelled: the egui layout of the map menu, `render` of the notes manager, settings, HUD and cursor.
- GameNotes.NotesManager.LoadMaps and MapMenu.MapMenuUI.Init: after a panic (`false`) the state is not specified, since the source does not continue.
- GameNotes: `usize` counter overflow and `current_ms` as a song timer are not modelled; counters are unbounded naturals, times are naturals.
- The version-2 SS+m body is not parsed: the source recognises the version and reads nothing more.
- map-downloader (network, JSON, concurrency) and map-creator's command line are not modelled.
- The cross-crate type mismatch is not modelled: map-creator's dispatcher imports the version-1 error type that only flux-map defines, so the dispatcher is modelled over flux-map's version-1 parser.
- The `map.c` reader on its own file format is not modelled. It is checked against the Rust encoder's output (`CMapLoader.LoadEncodedPlain`).

## Findings

| source | as written | input that shows it | evidently intended | confidence | as-written member | corrected member |
|---|---|---|---|---|---|---|
| src/managers/notes_manager.rs:78-80 | `update_index` returns when `index + 1 >= notes.len()`, so the cursor stops on the last note and that note is never queued for rendering or hitting | a map with one note: however much time passes, nothing is ever queued | move the bound test before the read of `notes[index]` and make it `index >= notes.len()`, so the last note is queued and the frame after it does not index past the end (`UpdateFixed`) | high, not executed | GameNotes.OneNoteNeverQueued | GameNotes.RunFixedQueuesAll |
