/**
  The game's runtime note queue (src/managers/notes_manager.rs) and the hit
  counters it drives (src/managers/stats_manager.rs). `load_maps` turns the
  text note track into notes; `update_index` walks a cursor over them and
  queues each due note for rendering; `move_notes` retires at most one
  queued note per frame and counts it as hit or missed.

  Floating point stays outside: the `f32` coordinates are bit patterns read
  by a `parseF32` parameter, the spawn time is a `spawnOf` parameter, and
  what `move_notes` computes for each queued note (its new depth and how that
  depth and the cursor compare with the hit window) arrives as a `Verdict`.
*/
module GameNotes {
  import opened Bytes
  import opened Text
  import opened Results
  import F32Bits
  import FluxFormat

  type F32 = FluxFormat.F32

  /** `MAX_AR_AD as f32`: the binary32 pattern of 500.0, every note's starting depth. */
  const START_Z: F32 := 0x43FA_0000

  lemma StartZ()
    ensures F32Bits.Denotes(START_Z, 500)
  {
    F32Bits.Pow2Fraction();
    assert F32Bits.Pow2(8) == 256;
    assert F32Bits.Pow2(15) == 32768;
    assert START_Z / F32Bits.Pow2(F32Bits.FRACTION) == 135;
    assert START_Z % F32Bits.Pow2(F32Bits.FRACTION) == 0x7A_0000;
  }

  /** `FluxNote`. */
  datatype Note = Note(
    x: F32,
    y: F32,
    z: F32,
    index: u32,
    notesetIndex: nat,
    hitsetIndex: nat,
    cursorsetIndex: nat,
    spawnTime: u64,
    ms: u64,
    hitsoundPlayed: bool)

  /** The number of noteset textures, hitset sounds and cursorset textures. */
  datatype SetSizes = SetSizes(noteset: nat, hitset: nat, cursorset: nat)

  const CR: byte := 0x0D
  const LF: byte := 0x0A
  const COMMA: byte := FluxFormat.COMMA
  const PIPE: byte := FluxFormat.PIPE

  // ---------------------------------------------------------------------
  // load_maps

  /** `str::replace(c, "")` for a one-byte `c`: every `c` dropped, nothing else. */
  function Remove(s: seq<byte>, c: byte): (r: seq<byte>)
    ensures c !in r
    ensures |r| == |s| - Count(s, c)
    ensures c !in s ==> r == s
    decreases |s|
  {
    if s == [] then [] else (if s[0] == c then [] else [s[0]]) + Remove(s[1..], c)
  }

  /**
    Entry `i` of the track: `\r` and `\n` removed, split on `|`, field 2 a
    `u64` time, fields 0 and 1 the coordinates. A missing field, a field that
    does not parse, or an empty set (`i %` its length) panics (`None`).
  */
  function EntryNote(entry: seq<byte>, i: nat, parseF32: seq<byte> -> Option<F32>,
                     spawnOf: u64 -> u64, sizes: SetSizes): Option<Note>
  {
    var fields := Split(Remove(Remove(entry, CR), LF), [PIPE]);
    if |fields| < 3 then None
    else match (ParseUnsigned(fields[2], TWO64), parseF32(fields[0]), parseF32(fields[1]))
      case (Some(ms), Some(x), Some(y)) =>
        if sizes.noteset == 0 || sizes.hitset == 0 || sizes.cursorset == 0 then None
        else Some(Note(x, y, START_Z, i % TWO32, i % sizes.noteset, i % sizes.hitset,
                       i % sizes.cursorset, spawnOf(ms), ms, false))
      case _ => None
  }

  /** What each entry of the track gives, entry `j` as entry number `j`. */
  function EntryResults(entries: seq<seq<byte>>, parseF32: seq<byte> -> Option<F32>,
                        spawnOf: u64 -> u64, sizes: SetSizes): (rs: seq<Option<Note>>)
    ensures |rs| == |entries|
    ensures forall j | 0 <= j < |entries| :: rs[j] == EntryNote(entries[j], j, parseF32, spawnOf, sizes)
  {
    seq(|entries|, j requires 0 <= j < |entries| => EntryNote(entries[j], j, parseF32, spawnOf, sizes))
  }

  /**
    The notes of results 1 to `n - 1` (result 0, the track's id, is
    skipped): one note per entry in order, or `None` as soon as one entry
    panics.
  */
  function Collect(rs: seq<Option<Note>>, n: nat): (r: Option<seq<Note>>)
    requires n <= |rs|
    ensures r.Some? <==> forall j | 1 <= j < n :: rs[j].Some?
    ensures r.Some? ==> |r.value| == if n == 0 then 0 else n - 1
    ensures r.Some? ==> forall j | 1 <= j < n :: rs[j] == Some(r.value[j - 1])
  {
    if n <= 1 then Some([])
    else
      match Collect(rs, n - 1)
      case None => None
      case Some(ns) =>
        match rs[n - 1]
        case None => None
        case Some(note) => Some(ns + [note])
  }

  /** What `load_maps` appends for the track `mapData`; `None` where it panics. */
  function Loaded(mapData: seq<byte>, parseF32: seq<byte> -> Option<F32>,
                  spawnOf: u64 -> u64, sizes: SetSizes): Option<seq<Note>>
  {
    var entries := Split(mapData, [COMMA]);
    Collect(EntryResults(entries, parseF32, spawnOf, sizes), |entries|)
  }

  /**
    One note per comma of the track; note `j` comes from entry `j + 1`, so
    its `index` is `j + 1` (as `u32`) and its set indices are `j + 1` modulo
    the set sizes; it starts at depth `MAX_AR_AD`, with no hitsound played,
    spawning at `spawnOf` of its time.
  */
  lemma LoadedNotes(mapData: seq<byte>, parseF32: seq<byte> -> Option<F32>,
                    spawnOf: u64 -> u64, sizes: SetSizes)
    requires Loaded(mapData, parseF32, spawnOf, sizes).Some?
    ensures var ns := Loaded(mapData, parseF32, spawnOf, sizes).value;
      && |ns| == Count(mapData, COMMA)
      && forall j | 0 <= j < |ns| ::
           && ns[j].index == (j + 1) % TWO32
           && sizes.noteset > 0 && ns[j].notesetIndex == (j + 1) % sizes.noteset
           && sizes.hitset > 0 && ns[j].hitsetIndex == (j + 1) % sizes.hitset
           && sizes.cursorset > 0 && ns[j].cursorsetIndex == (j + 1) % sizes.cursorset
           && ns[j].z == START_Z && !ns[j].hitsoundPlayed
           && ns[j].spawnTime == spawnOf(ns[j].ms)
  {
    var entries := Split(mapData, [COMMA]);
    var ns := Loaded(mapData, parseF32, spawnOf, sizes).value;
    SplitOnOne(mapData, COMMA);
    forall j | 0 <= j < |ns|
      ensures && ns[j].index == (j + 1) % TWO32
              && sizes.noteset > 0 && ns[j].notesetIndex == (j + 1) % sizes.noteset
              && sizes.hitset > 0 && ns[j].hitsetIndex == (j + 1) % sizes.hitset
              && sizes.cursorset > 0 && ns[j].cursorsetIndex == (j + 1) % sizes.cursorset
              && ns[j].z == START_Z && !ns[j].hitsoundPlayed
              && ns[j].spawnTime == spawnOf(ns[j].ms)
    {
      assert EntryNote(entries[j + 1], j + 1, parseF32, spawnOf, sizes) == Some(ns[j]);
    }
  }

  /** A number that parses below one bound parses the same below a larger one. */
  lemma ParseWider(s: seq<byte>, small: nat, large: nat)
    requires small <= large && ParseUnsigned(s, small).Some?
    ensures ParseUnsigned(s, large) == ParseUnsigned(s, small)
  {
  }

  /** An entry the converter reads as a note, holding no line break, gives the game the same time and coordinates. */
  lemma EntryAgrees(entry: seq<byte>, i: nat, parseF32: seq<byte> -> Option<F32>,
                    spawnOf: u64 -> u64, sizes: SetSizes)
    requires CR !in entry && LF !in entry
    requires sizes.noteset > 0 && sizes.hitset > 0 && sizes.cursorset > 0
    requires FluxFormat.SsNote(entry, parseF32).Some?
    ensures var n := EntryNote(entry, i, parseF32, spawnOf, sizes);
      var f := FluxFormat.SsNote(entry, parseF32).value;
      n.Some? && n.value.ms == f.time && n.value.x == f.x && n.value.y == f.y
  {
    var fields := Split(entry, [PIPE]);
    assert Remove(Remove(entry, CR), LF) == entry;
    ParseWider(fields[2], TWO32, TWO64);
  }

  /**
    The game reads a legacy note track as the converter does: when
    `convert_ss_to_flux` accepts a track without line breaks and no set is
    empty, `load_maps` accepts it too, with one note per converted note and
    the same time and coordinates, in the same order.
  */
  lemma ReadsLikeConverter(mapData: seq<byte>, parseF32: seq<byte> -> Option<F32>,
                           spawnOf: u64 -> u64, sizes: SetSizes)
    requires CR !in mapData && LF !in mapData
    requires sizes.noteset > 0 && sizes.hitset > 0 && sizes.cursorset > 0
    requires FluxFormat.SsToFlux(mapData, parseF32).Some?
    ensures var fl := FluxFormat.SsToFlux(mapData, parseF32).value;
      && Loaded(mapData, parseF32, spawnOf, sizes).Some?
      && var ns := Loaded(mapData, parseF32, spawnOf, sizes).value;
      && |ns| == |fl|
      && forall j | 0 <= j < |fl| :: ns[j].ms == fl[j].time && ns[j].x == fl[j].x && ns[j].y == fl[j].y
  {
    var entries := Split(mapData, [COMMA]);
    var fl := FluxFormat.SsToFlux(mapData, parseF32).value;
    FluxFormat.SsToFluxCount(mapData, parseF32);
    SplitOnOne(mapData, COMMA);
    SplitKeepsOut(mapData, [COMMA], CR);
    SplitKeepsOut(mapData, [COMMA], LF);
    forall j | 1 <= j < |entries|
      ensures var n := EntryNote(entries[j], j, parseF32, spawnOf, sizes);
        n.Some? && n.value.ms == fl[j - 1].time && n.value.x == fl[j - 1].x && n.value.y == fl[j - 1].y
    {
      EntryAgrees(entries[j], j, parseF32, spawnOf, sizes);
    }
  }

  // ---------------------------------------------------------------------
  // update_index

  /** The queue's three fields: every note, the notes queued for rendering, and the cursor. */
  datatype Queue = Queue(notes: seq<Note>, toRender: seq<Note>, index: nat)

  /**
    `update_index` as written: nothing while paused or before the cursor
    note's spawn time, and nothing when the cursor is on the last note;
    otherwise the cursor note is queued and the cursor moves on by one.
    Reading `notes[index]` with no note there panics (`None`).
  */
  function Update(q: Queue, paused: bool, nowMs: nat): Option<Queue> {
    if paused then Some(q)
    else if q.index >= |q.notes| then None
    else if nowMs < q.notes[q.index].spawnTime then Some(q)
    else if q.index + 1 >= |q.notes| then Some(q)
    else Some(q.(toRender := q.toRender + [q.notes[q.index]], index := q.index + 1))
  }

  /** One call to `update_index` per frame: whether the song is paused and the song time. */
  datatype Tick = Tick(paused: bool, nowMs: nat)

  function Run(q: Queue, ticks: seq<Tick>): Option<Queue>
    decreases |ticks|
  {
    if ticks == [] then Some(q)
    else
      match Update(q, ticks[0].paused, ticks[0].nowMs)
      case None => None
      case Some(next) => Run(next, ticks[1..])
  }

  /** One call: the cursor stays or moves by one, staying below the last note, and only the note it leaves is queued. */
  lemma UpdateStep(q: Queue, paused: bool, nowMs: nat)
    requires q.index < |q.notes|
    ensures Update(q, paused, nowMs).Some?
    ensures var r := Update(q, paused, nowMs).value;
      && r.notes == q.notes
      && (r.index == q.index || r.index == q.index + 1)
      && r.index < |q.notes|
      && r.toRender == q.toRender + q.notes[q.index..r.index]
  {
    var r := Update(q, paused, nowMs).value;
    if r.index == q.index {
      assert q.notes[q.index..r.index] == [];
    } else {
      assert q.notes[q.index..r.index] == [q.notes[q.index]];
    }
  }

  /**
    Over any run of frames the queue receives the notes in order, each once,
    starting from the cursor, and the cursor never reaches the last note: the
    last note of a map is never queued.
  */
  lemma {:induction false} RunQueuesInOrder(q: Queue, ticks: seq<Tick>)
    requires q.index < |q.notes|
    ensures Run(q, ticks).Some?
    ensures var r := Run(q, ticks).value;
      && r.notes == q.notes
      && q.index <= r.index < |q.notes|
      && r.toRender == q.toRender + q.notes[q.index..r.index]
    decreases |ticks|
  {
    if ticks != [] {
      UpdateStep(q, ticks[0].paused, ticks[0].nowMs);
      var next := Update(q, ticks[0].paused, ticks[0].nowMs).value;
      RunQueuesInOrder(next, ticks[1..]);
      var r := Run(next, ticks[1..]).value;
      assert q.notes[q.index..r.index] == q.notes[q.index..next.index] + q.notes[next.index..r.index];
    }
  }

  /** The frame is not paused and every note's spawn time has passed. */
  predicate Late(notes: seq<Note>, t: Tick) {
    !t.paused && forall j | 0 <= j < |notes| :: notes[j].spawnTime <= t.nowMs
  }

  /**
    However many late frames pass, the cursor stops on the last note and
    everything before it is queued, the last note never.
  */
  lemma {:induction false} RunStopsBeforeLast(q: Queue, ticks: seq<Tick>)
    requires q.index < |q.notes|
    requires |ticks| >= |q.notes| - q.index
    requires forall k | 0 <= k < |ticks| :: Late(q.notes, ticks[k])
    ensures Run(q, ticks).Some?
    ensures Run(q, ticks).value.index == |q.notes| - 1
    ensures Run(q, ticks).value.toRender == q.toRender + q.notes[q.index..|q.notes| - 1]
    decreases |ticks|
  {
    RunQueuesInOrder(q, ticks);
    if q.index + 1 < |q.notes| {
      var next := Update(q, ticks[0].paused, ticks[0].nowMs).value;
      assert Late(q.notes, ticks[0]);
      assert next.index == q.index + 1;
      RunStopsBeforeLast(next, ticks[1..]);
    } else {
      assert Run(q, ticks).value.index == q.index;
    }
  }

  /** A map of one note never shows it: the cursor starts on the last note. */
  lemma {:induction false} OneNoteNeverQueued(n: Note, ticks: seq<Tick>)
    ensures Run(Queue([n], [], 0), ticks) == Some(Queue([n], [], 0))
    decreases |ticks|
  {
    if ticks != [] {
      OneNoteNeverQueued(n, ticks[1..]);
    }
  }

  /** `update_index` with the bound it evidently means: the cursor may run up to the end of the notes. */
  function UpdateFixed(q: Queue, paused: bool, nowMs: nat): Queue {
    if paused || q.index >= |q.notes| || nowMs < q.notes[q.index].spawnTime then q
    else q.(toRender := q.toRender + [q.notes[q.index]], index := q.index + 1)
  }

  function RunFixed(q: Queue, ticks: seq<Tick>): Queue
    decreases |ticks|
  {
    if ticks == [] then q else RunFixed(UpdateFixed(q, ticks[0].paused, ticks[0].nowMs), ticks[1..])
  }

  /** The corrected walk queues the notes in order from the cursor and never panics, even on an empty map. */
  lemma {:induction false} RunFixedInOrder(q: Queue, ticks: seq<Tick>)
    requires q.index <= |q.notes|
    ensures var r := RunFixed(q, ticks);
      && r.notes == q.notes
      && q.index <= r.index <= |q.notes|
      && r.toRender == q.toRender + q.notes[q.index..r.index]
    decreases |ticks|
  {
    if ticks != [] {
      var next := UpdateFixed(q, ticks[0].paused, ticks[0].nowMs);
      RunFixedInOrder(next, ticks[1..]);
      var r := RunFixed(next, ticks[1..]);
      assert q.notes[q.index..next.index] == if next.index == q.index then [] else [q.notes[q.index]];
      assert q.notes[q.index..r.index] == q.notes[q.index..next.index] + q.notes[next.index..r.index];
    }
  }

  /** With the corrected bound, enough late frames queue every note, the last one included. */
  lemma {:induction false} RunFixedQueuesAll(q: Queue, ticks: seq<Tick>)
    requires q.index <= |q.notes|
    requires |ticks| >= |q.notes| - q.index
    requires forall k | 0 <= k < |ticks| :: Late(q.notes, ticks[k])
    ensures RunFixed(q, ticks).index == |q.notes|
    ensures RunFixed(q, ticks).toRender == q.toRender + q.notes[q.index..]
    decreases |ticks|
  {
    RunFixedInOrder(q, ticks);
    if q.index < |q.notes| {
      var next := UpdateFixed(q, ticks[0].paused, ticks[0].nowMs);
      assert Late(q.notes, ticks[0]);
      assert next.index == q.index + 1;
      RunFixedQueuesAll(next, ticks[1..]);
    }
  }

  // ---------------------------------------------------------------------
  // move_notes

  /**
    What the floating-point part of `move_notes` decides for one queued
    note: its new depth `z`, the comparisons `z < 0.5`, `z >= 0.5` and
    `z <= 1.0`, and whether the note's hit rectangle holds the mouse.
  */
  datatype Verdict = Verdict(z: F32, belowHalf: bool, atLeastHalf: bool, atMostOne: bool, underCursor: bool)

  /** The note is in the hit window with the cursor on it. */
  predicate HitAt(v: Verdict) {
    v.atLeastHalf && v.atMostOne && v.underCursor
  }

  /** The loop sets `remove` to this note: it is past the window, or hit. */
  predicate Flagged(v: Verdict) {
    v.belowHalf || HitAt(v)
  }

  /** The note after the loop: its new depth, and its hitsound marked played once it is within depth 1. */
  function Touch(n: Note, v: Verdict): Note {
    n.(z := v.z, hitsoundPlayed := n.hitsoundPlayed || v.atMostOne)
  }

  function Touched(notes: seq<Note>, vs: seq<Verdict>): (r: seq<Note>)
    requires |notes| == |vs|
    ensures |r| == |notes|
    ensures forall j | 0 <= j < |notes| :: r[j] == Touch(notes[j], vs[j])
  {
    seq(|notes|, j requires 0 <= j < |notes| => Touch(notes[j], vs[j]))
  }

  /** `remove` after the loop: the last flagged position, or -1 when none is flagged. */
  function LastFlagged(vs: seq<Verdict>): (r: int)
    ensures -1 <= r < |vs|
    ensures r >= 0 ==> Flagged(vs[r])
    ensures forall j | r < j < |vs| :: !Flagged(vs[j])
    decreases |vs|
  {
    if vs == [] then -1
    else if Flagged(vs[|vs| - 1]) then |vs| - 1
    else LastFlagged(vs[..|vs| - 1])
  }

  /** `hit` after the loop: set by any note in the hit window and never cleared. */
  function AnyHit(vs: seq<Verdict>): (b: bool)
    ensures b <==> exists j | 0 <= j < |vs| :: HitAt(vs[j])
    decreases |vs|
  {
    if vs == [] then false
    else AnyHit(vs[..|vs| - 1]) || HitAt(vs[|vs| - 1])
  }

  /** The number of hitsounds the loop plays: one per note newly within depth 1. */
  function Hitsounds(notes: seq<Note>, vs: seq<Verdict>): (k: nat)
    requires |notes| == |vs|
    ensures k <= |notes|
    decreases |vs|
  {
    if vs == [] then 0
    else
      var last := |vs| - 1;
      Hitsounds(notes[..last], vs[..last]) + if vs[last].atMostOne && !notes[last].hitsoundPlayed then 1 else 0
  }

  /**
    The hit flag is not tied to the removed note: a note hit early in the
    queue and a later note past the window retire the later note and count
    a hit.
  */
  lemma HitFlagOutlivesItsNote(hitNote: Verdict, late: Verdict)
    requires HitAt(hitNote) && late.belowHalf && !HitAt(late)
    ensures LastFlagged([hitNote, late]) == 1 && AnyHit([hitNote, late])
  {
    assert [hitNote, late][..1] == [hitNote];
  }

  // ---------------------------------------------------------------------
  // The managers

  /** `FluxStatsManager`. */
  class StatsManager {
    var notesHit: nat
    var notesMissed: nat
    var noteTotal: nat

    /** Every retired note counted once, as hit or as missed. */
    predicate Balanced()
      reads this
    {
      noteTotal == notesHit + notesMissed
    }

    constructor()
      ensures notesHit == 0 && notesMissed == 0 && noteTotal == 0
      ensures Balanced()
    {
      notesHit, notesMissed, noteTotal := 0, 0, 0;
    }

    method Reset()
      modifies this
      ensures notesHit == 0 && notesMissed == 0 && noteTotal == 0
      ensures Balanced()
    {
      noteTotal := 0;
      notesHit := 0;
      notesMissed := 0;
    }
  }

  /** `FluxNotesManager`. */
  class NotesManager {
    var notes: seq<Note>
    var toRender: seq<Note>
    var index: nat

    function State(): Queue
      reads this
    {
      Queue(notes, toRender, index)
    }

    constructor()
      ensures notes == [] && toRender == [] && index == 0
    {
      notes, toRender, index := [], [], 0;
    }

    method Reset()
      modifies this
      ensures notes == [] && toRender == [] && index == 0
    {
      notes := [];
      toRender := [];
      index := 0;
    }

    /**
      `load_maps`: appends the track's notes to those already loaded and
      leaves the queue and the cursor alone; `false` where the source panics,
      with the notes before the bad entry already appended.
    */
    method LoadMaps(mapData: seq<byte>, parseF32: seq<byte> -> Option<F32>,
                    spawnOf: u64 -> u64, sizes: SetSizes) returns (ok: bool)
      modifies this
      ensures toRender == old(toRender) && index == old(index)
      ensures ok <==> Loaded(mapData, parseF32, spawnOf, sizes).Some?
      ensures ok ==> notes == old(notes) + Loaded(mapData, parseF32, spawnOf, sizes).value
    {
      var entries := Split(mapData, [COMMA]);
      ghost var rs := EntryResults(entries, parseF32, spawnOf, sizes);
      var i := 0;
      while i < |entries|
        invariant 0 <= i <= |entries|
        invariant Collect(rs, i).Some?
        invariant notes == old(notes) + Collect(rs, i).value
        invariant toRender == old(toRender) && index == old(index)
      {
        if i < 1 {
          // entry 0 is the track's id
          i := i + 1;
          continue;
        }
        var note := EntryNote(entries[i], i, parseF32, spawnOf, sizes);
        if note.None? {
          return false;
        }
        notes := notes + [note.value];
        i := i + 1;
      }
      return true;
    }

    /** `update_index`; `false` where reading `notes[index]` panics. */
    method UpdateIndex(paused: bool, nowMs: nat) returns (ok: bool)
      modifies this
      ensures ok <==> Update(old(State()), paused, nowMs).Some?
      ensures ok ==> State() == Update(old(State()), paused, nowMs).value
    {
      if paused {
        return true;
      }
      if index >= |notes| {
        return false;
      }
      if nowMs < notes[index].spawnTime {
        return true;
      }
      if index + 1 >= |notes| {
        return true;
      }
      toRender := toRender + [notes[index]];
      index := index + 1;
      return true;
    }

    /**
      The bookkeeping of `move_notes`: each queued note takes its verdict;
      the last flagged note, if any, leaves the queue and its cursorset and
      hitset indices are picked; the total rises by one and the hit count
      (when any note was in the hit window) or else the miss count by one.
    */
    method MoveNotes(verdicts: seq<Verdict>, stats: StatsManager) returns (picked: Option<(nat, nat)>, hitsounds: nat)
      requires |verdicts| == |toRender|
      modifies this, stats
      ensures notes == old(notes) && index == old(index)
      ensures hitsounds == Hitsounds(old(toRender), verdicts)
      ensures var upd := Touched(old(toRender), verdicts);
        var r := LastFlagged(verdicts);
        if r < 0 then
          && toRender == upd && picked.None?
          && stats.notesHit == old(stats.notesHit) && stats.notesMissed == old(stats.notesMissed)
          && stats.noteTotal == old(stats.noteTotal)
        else
          && toRender == upd[..r] + upd[r + 1..]
          && picked == Some((upd[r].cursorsetIndex, upd[r].hitsetIndex))
          && stats.noteTotal == old(stats.noteTotal) + 1
          && (AnyHit(verdicts) ==> stats.notesHit == old(stats.notesHit) + 1 && stats.notesMissed == old(stats.notesMissed))
          && (!AnyHit(verdicts) ==> stats.notesMissed == old(stats.notesMissed) + 1 && stats.notesHit == old(stats.notesHit))
      ensures old(stats.Balanced()) ==> stats.Balanced()
    {
      var rendered, remove, hit;
      rendered, remove, hit, hitsounds := Scan(toRender, verdicts);
      if remove != -1 {
        if hit {
          stats.notesHit := stats.notesHit + 1;
        } else {
          stats.notesMissed := stats.notesMissed + 1;
        }
        picked := Some((rendered[remove].cursorsetIndex, rendered[remove].hitsetIndex));
        stats.noteTotal := stats.noteTotal + 1;
        rendered := rendered[..remove] + rendered[remove + 1..];
      } else {
        picked := None;
      }
      toRender := rendered;
    }
  }

  /** The loop of `move_notes` over the queued notes. */
  method Scan(queued: seq<Note>, verdicts: seq<Verdict>) returns (rendered: seq<Note>, remove: int, hit: bool, hitsounds: nat)
    requires |verdicts| == |queued|
    ensures rendered == Touched(queued, verdicts)
    ensures remove == LastFlagged(verdicts)
    ensures hit == AnyHit(verdicts)
    ensures hitsounds == Hitsounds(queued, verdicts)
  {
    remove, hit, hitsounds := -1, false, 0;
    rendered := queued;
    var i := 0;
    while i < |rendered|
      invariant 0 <= i <= |rendered| == |queued|
      invariant forall j | 0 <= j < i :: rendered[j] == Touch(queued[j], verdicts[j])
      invariant forall j | i <= j < |rendered| :: rendered[j] == queued[j]
      invariant remove == LastFlagged(verdicts[..i])
      invariant hit == AnyHit(verdicts[..i])
      invariant hitsounds == Hitsounds(queued[..i], verdicts[..i])
    {
      var note, remove', hit', sounds' := ScanNote(rendered[i], verdicts[i], i, remove, hit, hitsounds);
      ScanStep(queued, verdicts, i);
      rendered := rendered[i := note];
      remove, hit, hitsounds := remove', hit', sounds';
      i := i + 1;
    }
    assert verdicts[..i] == verdicts && queued[..i] == queued;
  }

  /** One pass of the loop: the note at `i` takes its verdict and the three results are updated. */
  method ScanNote(note: Note, v: Verdict, i: nat, remove: int, hit: bool, hitsounds: nat)
    returns (touched: Note, remove': int, hit': bool, sounds': nat)
    ensures touched == Touch(note, v)
    ensures remove' == if Flagged(v) then i else remove
    ensures hit' == (hit || HitAt(v))
    ensures sounds' == hitsounds + if v.atMostOne && !note.hitsoundPlayed then 1 else 0
  {
    remove', hit', sounds' := remove, hit, hitsounds;
    touched := note.(z := v.z);
    if v.belowHalf {
      remove' := i;
    }
    if v.atMostOne && !touched.hitsoundPlayed {
      sounds' := sounds' + 1;
      touched := touched.(hitsoundPlayed := true);
    }
    if v.atLeastHalf && v.atMostOne {
      if v.underCursor {
        remove' := i;
        hit' := true;
      }
    }
  }

  /** How the three loop results grow by one note. */
  lemma ScanStep(queued: seq<Note>, vs: seq<Verdict>, i: nat)
    requires |queued| == |vs| && i < |vs|
    ensures LastFlagged(vs[..i + 1]) == if Flagged(vs[i]) then i else LastFlagged(vs[..i])
    ensures AnyHit(vs[..i + 1]) == (AnyHit(vs[..i]) || HitAt(vs[i]))
    ensures Hitsounds(queued[..i + 1], vs[..i + 1])
      == Hitsounds(queued[..i], vs[..i]) + if vs[i].atMostOne && !queued[i].hitsoundPlayed then 1 else 0
  {
    assert vs[..i + 1][..i] == vs[..i];
    assert queued[..i + 1][..i] == queued[..i];
  }
}
