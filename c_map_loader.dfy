/**
  The game's C reader of FLUX maps (src/loaders/map.c): `read_u8` …
  `read_float` advance an index into the file buffer, and `load_map` walks
  the same layout the Rust `save` writes, keeping the three well-known
  metadata values, the chart names, the image and the music.

  C does not check its reads against the buffer; a read past the end of the
  data is modelled as the outcome `Overrun`. `flux_err`, which ends the
  process, is the outcome `Exit`. The note store of `load_map` is not part
  of this model, but the walk over the notes is: every chart consumes its
  12-byte note records.
*/
module CMapLoader {
  import opened Bytes
  import opened Results
  import opened Text
  import FluxFormat

  const NUL: byte := 0
  const CR: byte := 0x0D
  const LF: byte := 0x0A

  // ---------------------------------------------------------------------
  // C strings

  /** The bytes of `s` before the first one in `stop`: its longest prefix free of `stop`. */
  function Before(s: seq<byte>, stop: set<byte>): (r: seq<byte>)
    ensures |r| <= |s| && r == s[..|r|]
    ensures forall i | 0 <= i < |r| :: r[i] !in stop
    ensures |r| < |s| ==> s[|r|] in stop
  {
    if s == [] || s[0] in stop then [] else [s[0]] + Before(s[1..], stop)
  }

  /** A buffer as a C string: `strcmp` and `strcpy` stop at the first NUL. */
  function CStr(s: seq<byte>): seq<byte> {
    Before(s, {NUL})
  }

  /** `s[strcspn(s, "\r\n")] = 0`: the string cut at its first CR or LF. */
  function CutLine(s: seq<byte>): seq<byte> {
    Before(s, {CR, LF})
  }

  /** What `load_map` keeps of a metadata value or chart name: copied as a C string, then cut at the line end. */
  function Line(s: seq<byte>): seq<byte> {
    CutLine(CStr(s))
  }

  /** A buffer without NUL reads as itself. */
  lemma CStrPlain(s: seq<byte>)
    requires NUL !in s
    ensures CStr(s) == s
  {
  }

  // ---------------------------------------------------------------------
  // The walk, as a function of the bytes

  /** A walk over part of the buffer: its result and the index after it, or a read past the end. */
  datatype Walk<T> = Walked(value: T, next: nat) | PastEnd

  /**
    The metadata `load_map` keeps: `artist`, `song_name` and `mapper`,
    `None` while their keys have not been seen (the C pointers are then
    uninitialised), and the `has_artist` flag.
  */
  datatype CMeta = CMeta(artist: Option<seq<byte>>, hasArtist: bool, songName: Option<seq<byte>>,
                         mapper: Option<seq<byte>>)

  const NO_META := CMeta(None, false, None, None)

  predicate FlagMatches(st: CMeta) {
    st.hasArtist == st.artist.Some?
  }

  /**
    One metadata entry: the key is compared as a C string, a later entry
    under the same key replaces an earlier one, and any other key is read
    and ignored.
  */
  function StoreMeta(st: CMeta, key: seq<byte>, value: seq<byte>): (r: CMeta)
    ensures FlagMatches(st) ==> FlagMatches(r)
  {
    var k := CStr(key);
    if k == FluxFormat.ARTIST then st.(artist := Some(Line(value)), hasArtist := true)
    else if k == FluxFormat.SONG_NAME then st.(songName := Some(Line(value)))
    else if k == FluxFormat.MAPPER then st.(mapper := Some(Line(value)))
    else st
  }

  /** The metadata loop from `pos` with `remaining` entries to go, each a u16-sized key and a u32-sized value. */
  function MetaWalk(data: seq<byte>, pos: nat, remaining: nat, st: CMeta): (r: Walk<CMeta>)
    ensures r.Walked? ==> pos <= r.next <= |data| || (remaining == 0 && r.next == pos)
    ensures r.Walked? && FlagMatches(st) ==> FlagMatches(r.value)
    decreases remaining
  {
    if remaining == 0 then Walked(st, pos)
    else match FluxFormat.ReadSized(data, pos, 2)
      case Short => PastEnd
      case Got(key, p1) =>
        match FluxFormat.ReadSized(data, p1, 4)
        case Short => PastEnd
        case Got(value, p2) => MetaWalk(data, p2, remaining - 1, StoreMeta(st, key, value))
  }

  /** One chart: a u16-sized name, a u64 note count, and 12 bytes per note. */
  function ChartWalk(data: seq<byte>, pos: nat): (r: Walk<seq<byte>>)
    ensures r.Walked? ==> pos + 10 <= r.next <= |data|
  {
    match FluxFormat.ReadSized(data, pos, 2)
    case Short => PastEnd
    case Got(name, p1) =>
      if p1 + 8 > |data| then PastEnd
      else
        var count := FromBE(data[p1..p1 + 8]);
        if p1 + 8 + 12 * count > |data| then PastEnd
        else Walked(Line(name), p1 + 8 + 12 * count)
  }

  /** The chart loop from `pos` with `remaining` charts to go, their names appended to `names`. */
  function DiffWalk(data: seq<byte>, pos: nat, remaining: nat, names: seq<seq<byte>>): (r: Walk<seq<seq<byte>>>)
    ensures r.Walked? ==> |r.value| == |names| + remaining && r.value[..|names|] == names
    ensures r.Walked? ==> pos <= r.next <= |data| || (remaining == 0 && r.next == pos)
    decreases remaining
  {
    if remaining == 0 then Walked(names, pos)
    else match ChartWalk(data, pos)
      case PastEnd => PastEnd
      case Walked(name, next) => DiffWalk(data, next, remaining - 1, names + [name])
  }

  /** Why `flux_err` ended the process. */
  datatype ExitReason = BadMagic | BadVersion

  /** The `flux_map` that `load_map` returns, without its notes. */
  datatype CMap = CMap(artist: Option<seq<byte>>, hasArtist: bool, songName: Option<seq<byte>>,
                       mapper: Option<seq<byte>>, difficulties: seq<seq<byte>>,
                       hasImage: bool, image: seq<byte>, music: seq<byte>)

  /** What `load_map` does with a file: exits, reads past the data, or returns the map, having read up to `end`. */
  datatype Load = Exit(reason: ExitReason) | Overrun | Loaded(flux: CMap, end: nat)

  /**
    `load_map` on the file's bytes. Only the signature and the version end
    the process; every later problem is a read past the data.
  */
  function LoadSpec(data: seq<byte>): (r: Load)
    ensures r.Exit? <==> |data| >= 4 && (data[..4] != FluxFormat.FLUX_SIG || (|data| >= 5 && data[4] != 1))
    ensures r.Exit? ==> (r.reason == BadMagic <==> data[..4] != FluxFormat.FLUX_SIG)
    ensures r.Loaded? ==> 17 <= r.end <= |data| && data[..4] == FluxFormat.FLUX_SIG && data[4] == 1
    ensures r.Loaded? ==> r.flux.hasArtist == r.flux.artist.Some? && r.flux.hasImage == (r.flux.image != [])
  {
    if |data| < 4 then Overrun
    else if data[..4] != FluxFormat.FLUX_SIG then Exit(BadMagic)
    else if |data| < 5 then Overrun
    else if data[4] != 1 then Exit(BadVersion)
    else if |data| < 7 then Overrun
    else match MetaWalk(data, 7, FromBE(data[5..7]), NO_META)
      case PastEnd => Overrun
      case Walked(meta, p) =>
        if p + 2 > |data| then Overrun
        else match DiffWalk(data, p + 2, FromBE(data[p..p + 2]), [])
          case PastEnd => Overrun
          case Walked(names, q) => LoadTail(data, q, meta, names)
  }

  /** The image and the music, each a u32-sized blob; the image is present exactly when its size is not zero. */
  function LoadTail(data: seq<byte>, pos: nat, meta: CMeta, names: seq<seq<byte>>): (r: Load)
    ensures r.Loaded? ==> pos + 8 <= r.end <= |data| && r.flux.hasImage == (r.flux.image != [])
    ensures r.Loaded? ==> r.flux.artist == meta.artist && r.flux.hasArtist == meta.hasArtist
    ensures !r.Exit?
  {
    match FluxFormat.ReadSized(data, pos, 4)
    case Short => Overrun
    case Got(image, p1) =>
      match FluxFormat.ReadSized(data, p1, 4)
      case Short => Overrun
      case Got(music, end) =>
        Loaded(CMap(meta.artist, meta.hasArtist, meta.songName, meta.mapper, names, image != [], image, music), end)
  }

  // ---------------------------------------------------------------------
  // The reader as the C code runs it

  /** The file buffer and the index the `read_*` helpers advance through it. */
  class MapCursor {
    const data: array<byte>
    var index: nat

    constructor (data: array<byte>)
      ensures this.data == data && index == 0
    {
      this.data := data;
      index := 0;
    }

    /** `read_u8`: the byte at the index; the index moves one on. */
    method ReadU8() returns (v: byte)
      requires index < data.Length
      modifies this
      ensures index == old(index) + 1 && v == data[old(index)]
    {
      v := data[index];
      index := index + 1;
    }

    /** `read_u16`: two bytes, most significant first. The shifts and `|` of disjoint bytes are sums. */
    method ReadU16() returns (v: u16)
      requires index + 2 <= data.Length
      modifies this
      ensures index == old(index) + 2 && v == FromBE(data[old(index)..index])
    {
      var b0 := ReadU8();
      var b1 := ReadU8();
      FromBE2(data[old(index)..index]);
      v := b0 as int * 0x100 + b1;
    }

    /** `read_u32`: four bytes, most significant first. */
    method ReadU32() returns (v: u32)
      requires index + 4 <= data.Length
      modifies this
      ensures index == old(index) + 4 && v == FromBE(data[old(index)..index])
    {
      var b0 := ReadU8();
      var b1 := ReadU8();
      var b2 := ReadU8();
      var b3 := ReadU8();
      FromBE4(data[old(index)..index]);
      v := b0 as int * 0x100_0000 + b1 as int * 0x1_0000 + b2 as int * 0x100 + b3;
    }

    /** `read_u64`: eight bytes, most significant first. */
    method ReadU64() returns (v: u64)
      requires index + 8 <= data.Length
      modifies this
      ensures index == old(index) + 8 && v == FromBE(data[old(index)..index])
    {
      var start := index;
      var b0 := ReadU8();
      var b1 := ReadU8();
      var b2 := ReadU8();
      var b3 := ReadU8();
      var b4 := ReadU8();
      var b5 := ReadU8();
      var b6 := ReadU8();
      var b7 := ReadU8();
      var s := data[start..index];
      FromBE8(s);
      FromBE4(s[..4]);
      FromBE4(s[4..]);
      var hi := b0 as int * 0x100_0000 + b1 as int * 0x1_0000 + b2 as int * 0x100 + b3;
      var lo := b4 as int * 0x100_0000 + b5 as int * 0x1_0000 + b6 as int * 0x100 + b7;
      v := hi * 0x1_0000_0000 + lo;
    }

    /** `read_float`: the bit pattern `read_u32` returns, copied into a `float`. */
    method ReadFloat() returns (bits: u32)
      requires index + 4 <= data.Length
      modifies this
      ensures index == old(index) + 4 && bits == FromBE(data[old(index)..index])
    {
      bits := ReadU32();
    }

    /** A `for` loop of `read_u8` calls filling a buffer of `n` bytes. */
    method ReadBytes(n: nat) returns (b: seq<byte>)
      requires index + n <= data.Length
      modifies this
      ensures index == old(index) + n && b == data[old(index)..index]
    {
      b := [];
      var j := 0;
      while j < n
        invariant 0 <= j <= n && index == old(index) + j
        invariant b == data[old(index)..index]
      {
        var x := ReadU8();
        b := b + [x];
        j := j + 1;
      }
    }

    /** A u16 (`w` = 2) or u32 (`w` = 4) size, then that many bytes. */
    method ReadSized(w: nat) returns (r: FluxFormat.Read<seq<byte>>)
      requires w == 2 || w == 4
      modifies this
      ensures r == FluxFormat.ReadSized(data[..], old(index), w)
      ensures r.Got? ==> index == r.next
    {
      if index + w > data.Length {
        return FluxFormat.Short;
      }
      var len;
      if w == 2 {
        len := ReadU16();
      } else {
        len := ReadU32();
      }
      if index + len > data.Length {
        return FluxFormat.Short;
      }
      var b := ReadBytes(len);
      return FluxFormat.Got(b, index);
    }

    /** The note loop of one chart: a u32 time and two floats per note, read and dropped. */
    method SkipNotes(count: nat)
      requires index + 12 * count <= data.Length
      modifies this
      ensures index == old(index) + 12 * count
    {
      var j := 0;
      while j < count
        invariant 0 <= j <= count && index == old(index) + 12 * j
      {
        var time := ReadU32();
        var x := ReadFloat();
        var y := ReadFloat();
        j := j + 1;
      }
    }
  }

  /** The metadata loop of `load_map`. */
  method LoadMetadata(cur: MapCursor, count: nat) returns (r: Walk<CMeta>)
    modifies cur
    ensures r == MetaWalk(cur.data[..], old(cur.index), count, NO_META)
    ensures r.Walked? ==> cur.index == r.next
  {
    ghost var data, pos, remaining := cur.data[..], cur.index, count;
    ghost var goal := MetaWalk(data, pos, remaining, NO_META);
    var st := NO_META;
    var i := 0;
    while i < count
      invariant 0 <= i <= count && remaining == count - i
      invariant cur.data[..] == data && cur.index == pos
      invariant goal == MetaWalk(data, pos, remaining, st)
    {
      var key := cur.ReadSized(2);
      if key.Short? {
        MetaWalkShort(data, pos, remaining, st);
        return PastEnd;
      }
      var value := cur.ReadSized(4);
      if value.Short? {
        MetaWalkShort(data, pos, remaining, st);
        return PastEnd;
      }
      ghost var next, rest := value.next, remaining - 1;
      var st' := StoreMeta(st, key.value, value.value);
      MetaWalkStep(data, pos, remaining, rest, st, key.value, key.next, value.value, next);
      st, i, pos, remaining := st', i + 1, next, rest;
    }
    return Walked(st, cur.index);
  }

  lemma MetaWalkShort(data: seq<byte>, pos: nat, remaining: nat, st: CMeta)
    requires remaining > 0
    ensures FluxFormat.ReadSized(data, pos, 2).Short? ==> MetaWalk(data, pos, remaining, st) == PastEnd
    ensures var k := FluxFormat.ReadSized(data, pos, 2);
      k.Got? && FluxFormat.ReadSized(data, k.next, 4).Short? ==> MetaWalk(data, pos, remaining, st) == PastEnd
  {
  }

  lemma MetaWalkStep(data: seq<byte>, pos: nat, remaining: nat, rest: nat, st: CMeta,
                     key: seq<byte>, p1: nat, value: seq<byte>, p2: nat)
    requires remaining == rest + 1
    requires FluxFormat.ReadSized(data, pos, 2) == FluxFormat.Got(key, p1)
    requires FluxFormat.ReadSized(data, p1, 4) == FluxFormat.Got(value, p2)
    ensures MetaWalk(data, pos, remaining, st) == MetaWalk(data, p2, rest, StoreMeta(st, key, value))
  {
    assert remaining != 0;
  }

  /** One chart of the difficulty loop. */
  method LoadChart(cur: MapCursor) returns (r: Walk<seq<byte>>)
    modifies cur
    ensures r == ChartWalk(cur.data[..], old(cur.index))
    ensures r.Walked? ==> cur.index == r.next
  {
    ghost var data := cur.data[..];
    var name := cur.ReadSized(2);
    if name.Short? {
      return PastEnd;
    }
    if cur.index + 8 > cur.data.Length {
      return PastEnd;
    }
    ghost var p1 := cur.index;
    var n := cur.ReadU64();
    assert cur.data[p1..cur.index] == data[p1..p1 + 8];
    var count: nat := n;
    if cur.index + 12 * count > cur.data.Length {
      return PastEnd;
    }
    cur.SkipNotes(count);
    return Walked(Line(name.value), cur.index);
  }

  /** The difficulty loop of `load_map`. */
  method LoadDifficulties(cur: MapCursor, count: nat) returns (r: Walk<seq<seq<byte>>>)
    modifies cur
    ensures r == DiffWalk(cur.data[..], old(cur.index), count, [])
    ensures r.Walked? ==> cur.index == r.next
  {
    ghost var data, pos, remaining := cur.data[..], cur.index, count;
    ghost var goal := DiffWalk(data, pos, remaining, []);
    var names: seq<seq<byte>> := [];
    var i := 0;
    while i < count
      invariant 0 <= i <= count && remaining == count - i
      invariant cur.data[..] == data && cur.index == pos
      invariant goal == DiffWalk(data, pos, remaining, names)
    {
      var name := LoadChart(cur);
      if name.PastEnd? {
        DiffWalkShort(data, pos, remaining, names);
        return PastEnd;
      }
      ghost var next, rest := name.next, remaining - 1;
      var names' := names + [name.value];
      DiffWalkStep(data, pos, remaining, rest, names, name.value, next);
      names, i, pos, remaining := names', i + 1, next, rest;
    }
    return Walked(names, cur.index);
  }

  lemma DiffWalkShort(data: seq<byte>, pos: nat, remaining: nat, names: seq<seq<byte>>)
    requires remaining > 0 && ChartWalk(data, pos) == PastEnd
    ensures DiffWalk(data, pos, remaining, names) == PastEnd
  {
  }

  lemma DiffWalkStep(data: seq<byte>, pos: nat, remaining: nat, rest: nat, names: seq<seq<byte>>,
                     name: seq<byte>, next: nat)
    requires remaining == rest + 1 && ChartWalk(data, pos) == Walked(name, next)
    ensures DiffWalk(data, pos, remaining, names) == DiffWalk(data, next, rest, names + [name])
  {
  }

  /** `load_map` on a buffer holding the file. */
  method LoadMap(data: array<byte>) returns (r: Load)
    ensures r == LoadSpec(data[..])
  {
    var cur := new MapCursor(data);
    if data.Length < 4 {
      return Overrun;
    }
    var m0 := cur.ReadU8();
    var m1 := cur.ReadU8();
    var m2 := cur.ReadU8();
    var m3 := cur.ReadU8();
    assert data[..][..4] == [m0, m1, m2, m3];
    if m0 != 0x46 || m1 != 0x4C || m2 != 0x55 || m3 != 0x58 {
      return Exit(BadMagic);
    }
    if data.Length < 5 {
      return Overrun;
    }
    var version := cur.ReadU8();
    if version != 1 {
      return Exit(BadVersion);
    }
    if data.Length < 7 {
      return Overrun;
    }
    var metaCount := cur.ReadU16();
    var meta := LoadMetadata(cur, metaCount);
    if meta.PastEnd? {
      return Overrun;
    }
    if cur.index + 2 > data.Length {
      return Overrun;
    }
    var p := cur.index;
    var diffCount := cur.ReadU16();
    var diffs := LoadDifficulties(cur, diffCount);
    if diffs.PastEnd? {
      return Overrun;
    }
    var image := cur.ReadSized(4);
    if image.Short? {
      return Overrun;
    }
    var music := cur.ReadSized(4);
    if music.Short? {
      return Overrun;
    }
    var m := CMap(meta.value.artist, meta.value.hasArtist, meta.value.songName, meta.value.mapper, diffs.value,
                  image.value != [], image.value, music.value);
    return Loaded(m, cur.index);
  }

  // ---------------------------------------------------------------------
  // The C reader against the Rust encoder

  /** The metadata state after the entries of `order` are stored one after another. */
  function MetaFold(meta: map<seq<byte>, seq<byte>>, order: seq<seq<byte>>, st: CMeta): CMeta
    requires FluxFormat.Within(order, meta)
    decreases |order|
  {
    if order == [] then st else MetaFold(meta, order[1..], StoreMeta(st, order[0], meta[order[0]]))
  }

  /** The chart names of `order` as the C reader keeps them. */
  function Lines(order: seq<seq<byte>>): (r: seq<seq<byte>>)
    ensures |r| == |order|
  {
    if order == [] then [] else [Line(order[0])] + Lines(order[1..])
  }

  lemma {:induction false} LinesAt(order: seq<seq<byte>>)
    ensures forall i | 0 <= i < |order| :: Lines(order)[i] == Line(order[i])
    decreases |order|
  {
    if order != [] {
      LinesAt(order[1..]);
      forall i | 0 < i < |order| ensures Lines(order)[i] == Line(order[i]) {
        assert Lines(order)[i] == Lines(order[1..])[i - 1];
      }
    }
  }

  /** The image buffer of `load_map`: the image's bytes, or nothing. */
  function ImageOf(image: Option<seq<byte>>): seq<byte> {
    if image.Some? then image.value else []
  }

  /** What the C reader keeps of the metadata value under `key`. */
  function Kept(meta: map<seq<byte>, seq<byte>>, key: seq<byte>): Option<seq<byte>> {
    if key in meta then Some(Line(meta[key])) else None
  }

  /** A metadata entry the Rust decoder reads is one step of the C metadata loop. */
  lemma MetaWalkStepAt(data: seq<byte>, pos: nat, remaining: nat, rest: nat, st: CMeta,
                       k: seq<byte>, v: seq<byte>, next: nat)
    requires remaining == rest + 1 && FluxFormat.MetaEntryAt(data, pos) == FluxFormat.Done((k, v), next)
    ensures MetaWalk(data, pos, remaining, st) == MetaWalk(data, next, rest, StoreMeta(st, k, v))
  {
    var key := FluxFormat.ReadSized(data, pos, 2);
    MetaWalkStep(data, pos, remaining, rest, st, k, key.next, v, next);
  }

  /** Over laid-out metadata entries the C loop stores each entry in turn and ends where they end. */
  lemma {:induction false} MetaWalkLaidOut(data: seq<byte>, pos: nat, meta: map<seq<byte>, seq<byte>>,
                                           order: seq<seq<byte>>, st: CMeta, end: nat)
    requires FluxFormat.Within(order, meta) && FluxFormat.MetaLaidOut(data, pos, meta, order, end)
    ensures MetaWalk(data, pos, |order|, st) == Walked(MetaFold(meta, order, st), end)
    decreases |order|
  {
    if order != [] {
      var k := order[0];
      var e := FluxFormat.MetaEntryAt(data, pos);
      var st' := StoreMeta(st, k, meta[k]);
      MetaWalkStepAt(data, pos, |order|, |order[1..]|, st, k, meta[k], e.next);
      MetaWalkLaidOut(data, e.next, meta, order[1..], st', end);
    }
  }

  /** A chart the Rust decoder reads is one chart of the C walk, ending at the same place. */
  lemma ChartWalkAt(data: seq<byte>, pos: nat, k: seq<byte>, notes: seq<FluxFormat.FluxNote>, next: nat)
    requires FluxFormat.ChartAt(data, pos) == FluxFormat.Done((k, notes), next)
    ensures ChartWalk(data, pos) == Walked(Line(k), next)
  {
  }

  /** Over laid-out charts the C loop collects their names in order and ends where they end. */
  lemma {:induction false} DiffWalkLaidOut(data: seq<byte>, pos: nat, diffs: map<seq<byte>, seq<FluxFormat.FluxNote>>,
                                           order: seq<seq<byte>>, names: seq<seq<byte>>, end: nat)
    requires FluxFormat.Within(order, diffs) && FluxFormat.DiffsLaidOut(data, pos, diffs, order, end)
    ensures DiffWalk(data, pos, |order|, names) == Walked(names + Lines(order), end)
    decreases |order|
  {
    if order == [] {
      assert names + Lines(order) == names;
    } else {
      var k := order[0];
      var c := FluxFormat.ChartAt(data, pos);
      var names' := names + [Line(k)];
      ChartWalkAt(data, pos, k, diffs[k], c.next);
      DiffWalkStep(data, pos, |order|, |order[1..]|, names, Line(k), c.next);
      DiffWalkLaidOut(data, c.next, diffs, order[1..], names', end);
      LinesCons(names, order, names');
    }
  }

  lemma LinesCons(names: seq<seq<byte>>, order: seq<seq<byte>>, names': seq<seq<byte>>)
    requires order != [] && names' == names + [Line(order[0])]
    ensures names' + Lines(order[1..]) == names + Lines(order)
  {
    var head, rest := Line(order[0]), Lines(order[1..]);
    assert Lines(order) == [head] + rest;
    Assoc(names, [head], rest);
  }

  /** The image and music that `save` writes, read by the C tail. */
  lemma LoadTailEncoded(data: seq<byte>, pos: nat, meta: CMeta, names: seq<seq<byte>>,
                        image: Option<seq<byte>>, music: seq<byte>, end: nat)
    requires (image.Some? ==> |image.value| < TWO32) && |music| < TWO32
    requires FluxFormat.At(data, pos, FluxFormat.ImageBytes(image) + (BE(|music|, 4) + music))
    requires end == pos + |FluxFormat.ImageBytes(image)| + 4 + |music|
    ensures LoadTail(data, pos, meta, names)
         == Loaded(CMap(meta.artist, meta.hasArtist, meta.songName, meta.mapper, names,
                        ImageOf(image) != [], ImageOf(image), music), end)
  {
    var q := ImageSizedRead(data, pos, image, music);
    FluxFormat.AtSplitAt(data, pos, FluxFormat.ImageBytes(image), BE(|music|, 4) + music, q);
    Pow256Values();
    FluxFormat.ReadSizedAt(data, q, 4, music, end);
    LoadTailOf(data, pos, meta, names, ImageOf(image), q, music, end);
  }

  /** The image that `save` writes reads back as a u32-sized blob. */
  lemma ImageSizedRead(data: seq<byte>, pos: nat, image: Option<seq<byte>>, music: seq<byte>) returns (q: nat)
    requires image.Some? ==> |image.value| < TWO32
    requires FluxFormat.At(data, pos, FluxFormat.ImageBytes(image) + (BE(|music|, 4) + music))
    ensures q == pos + |FluxFormat.ImageBytes(image)| && FromBE(data[pos..pos + 4]) + 4 == |FluxFormat.ImageBytes(image)|
    ensures FluxFormat.ReadSized(data, pos, 4) == FluxFormat.Got(ImageOf(image), q)
  {
    FluxFormat.AtSplit(data, pos, FluxFormat.ImageBytes(image), BE(|music|, 4) + music);
    FluxFormat.ImageRead(data, pos, image);
    q := pos + |FluxFormat.ImageBytes(image)|;
    FluxFormat.ReadSizedOf(data, pos, 4, pos + 4, ImageOf(image), q);
  }

  lemma LoadTailOf(data: seq<byte>, pos: nat, meta: CMeta, names: seq<seq<byte>>,
                   image: seq<byte>, q: nat, music: seq<byte>, end: nat)
    requires FluxFormat.ReadSized(data, pos, 4) == FluxFormat.Got(image, q)
    requires FluxFormat.ReadSized(data, q, 4) == FluxFormat.Got(music, end)
    ensures LoadTail(data, pos, meta, names)
         == Loaded(CMap(meta.artist, meta.hasArtist, meta.songName, meta.mapper, names, image != [], image, music), end)
  {
  }

  /** `load_map` once its two loops have ended. */
  lemma LoadAfterSections(data: seq<byte>, meta: CMeta, p: nat, p2: nat, names: seq<seq<byte>>, q: nat)
    requires |data| >= 7 && data[..4] == FluxFormat.FLUX_SIG && data[4] == 1
    requires MetaWalk(data, 7, FromBE(data[5..7]), NO_META) == Walked(meta, p)
    requires p2 == p + 2 && p2 <= |data| && DiffWalk(data, p2, FromBE(data[p..p2]), []) == Walked(names, q)
    ensures LoadSpec(data) == LoadTail(data, q, meta, names)
  {
  }

  /** Where the tail of `Encode(m, ..)` ends. */
  lemma EncodedEnd(m: FluxFormat.MapValue, metaOrder: seq<seq<byte>>, diffOrder: seq<seq<byte>>, q: nat)
    requires FluxFormat.Enumerates(metaOrder, m.meta.Keys) && FluxFormat.Enumerates(diffOrder, m.difficulties.Keys)
    requires q == 7 + |FluxFormat.EncodeMeta(m.meta, metaOrder)| + 2 + |FluxFormat.EncodeDiffs(m.difficulties, diffOrder)|
    ensures |FluxFormat.Encode(m, metaOrder, diffOrder)| == q + |FluxFormat.ImageBytes(m.image)| + 4 + |m.music|
  {
  }

  /**
    The C reader walks what the Rust `save` writes to its end, whatever
    follows: it keeps the metadata as the C key comparison meets the entries
    in the written order, the chart names in the written order, the image
    and the music.
  */
  lemma LoadEncoded(m: FluxFormat.MapValue, metaOrder: seq<seq<byte>>, diffOrder: seq<seq<byte>>, rest: seq<byte>)
    requires m.version == 1 && FluxFormat.Encodable(m)
    requires FluxFormat.Enumerates(metaOrder, m.meta.Keys) && FluxFormat.Enumerates(diffOrder, m.difficulties.Keys)
    ensures FluxFormat.Within(metaOrder, m.meta)
    ensures var meta := MetaFold(m.meta, metaOrder, NO_META);
      LoadSpec(FluxFormat.Encode(m, metaOrder, diffOrder) + rest)
      == Loaded(CMap(meta.artist, meta.hasArtist, meta.songName, meta.mapper, Lines(diffOrder),
                     ImageOf(m.image) != [], ImageOf(m.image), m.music),
                |FluxFormat.Encode(m, metaOrder, diffOrder)|)
  {
    var data := FluxFormat.Encode(m, metaOrder, diffOrder) + rest;
    var p := 7 + |FluxFormat.EncodeMeta(m.meta, metaOrder)|;
    var p2 := p + 2;
    var q := p2 + |FluxFormat.EncodeDiffs(m.difficulties, diffOrder)|;
    FluxFormat.EncodedSections(m, metaOrder, diffOrder, rest, data, p, p2, q);
    MetaSectionWalk(data, m.meta, metaOrder, p);
    DiffsSectionWalk(data, p, p2, m.difficulties, diffOrder, q);
    EncodedEnd(m, metaOrder, diffOrder, q);
    LoadSections(data, MetaFold(m.meta, metaOrder, NO_META), p, p2, Lines(diffOrder), q,
                 m.image, m.music, |FluxFormat.Encode(m, metaOrder, diffOrder)|);
  }

  /** Both loops walked, the tail read: the whole load of laid-out sections. */
  lemma LoadSections(data: seq<byte>, meta: CMeta, p: nat, p2: nat, names: seq<seq<byte>>, q: nat,
                     image: Option<seq<byte>>, music: seq<byte>, end: nat)
    requires |data| >= 7 && data[..4] == FluxFormat.FLUX_SIG && data[4] == 1
    requires MetaWalk(data, 7, FromBE(data[5..7]), NO_META) == Walked(meta, p)
    requires p2 == p + 2 && p2 <= |data| && DiffWalk(data, p2, FromBE(data[p..p2]), []) == Walked(names, q)
    requires (image.Some? ==> |image.value| < TWO32) && |music| < TWO32
    requires FluxFormat.At(data, q, FluxFormat.ImageBytes(image) + (BE(|music|, 4) + music))
    requires end == q + |FluxFormat.ImageBytes(image)| + 4 + |music|
    ensures LoadSpec(data)
         == Loaded(CMap(meta.artist, meta.hasArtist, meta.songName, meta.mapper, names,
                        ImageOf(image) != [], ImageOf(image), music), end)
  {
    LoadAfterSections(data, meta, p, p2, names, q);
    LoadTailEncoded(data, q, meta, names, image, music, end);
  }

  /** The C metadata loop over the section `save` writes at offset 5. */
  lemma MetaSectionWalk(data: seq<byte>, meta: map<seq<byte>, seq<byte>>, order: seq<seq<byte>>, p: nat)
    requires FluxFormat.Enumerates(order, meta.Keys) && |meta| < TWO16
    requires forall k | k in meta :: |k| < TWO16 && IsUtf8(k) && |meta[k]| < TWO32
    requires FluxFormat.At(data, 5, BE(|meta|, 2)) && FluxFormat.At(data, 7, FluxFormat.EncodeMeta(meta, order))
    requires p == 7 + |FluxFormat.EncodeMeta(meta, order)|
    ensures |data| >= 7 && MetaWalk(data, 7, FromBE(data[5..7]), NO_META) == Walked(MetaFold(meta, order, NO_META), p)
  {
    Pow256Values();
    FluxFormat.EnumerationSize(order, meta.Keys);
    FluxFormat.ReadBEAt(data, 5, 2, |meta|, 7);
    FluxFormat.EncodedMetaLaidOut(data, 7, meta, order, p);
    MetaWalkLaidOut(data, 7, meta, order, NO_META, p);
  }

  /** The C chart loop over the section whose count `save` writes at `p`. */
  lemma DiffsSectionWalk(data: seq<byte>, p: nat, p2: nat, diffs: map<seq<byte>, seq<FluxFormat.FluxNote>>,
                         order: seq<seq<byte>>, q: nat)
    requires FluxFormat.Enumerates(order, diffs.Keys) && |diffs| < TWO16
    requires forall k | k in diffs :: |k| < TWO16 && IsUtf8(k) && |diffs[k]| < TWO64
    requires FluxFormat.At(data, p, BE(|diffs|, 2)) && FluxFormat.At(data, p2, FluxFormat.EncodeDiffs(diffs, order))
    requires p2 == p + 2 && q == p2 + |FluxFormat.EncodeDiffs(diffs, order)|
    ensures p2 <= |data| && DiffWalk(data, p2, FromBE(data[p..p2]), []) == Walked(Lines(order), q)
  {
    Pow256Values();
    FluxFormat.EnumerationSize(order, diffs.Keys);
    FluxFormat.ReadBEAt(data, p, 2, |diffs|, p2);
    FluxFormat.EncodedDiffsLaidOut(data, p2, diffs, order, q);
    DiffWalkLaidOut(data, p2, diffs, order, [], q);
    assert [] + Lines(order) == Lines(order);
  }

  /**
    When no metadata key holds a NUL byte, C string comparison matches a
    key exactly when it is the key itself, so the order of the entries does
    not matter: the state keeps the value of every well-known key in `order`.
  */
  lemma {:induction false} MetaFoldPlain(meta: map<seq<byte>, seq<byte>>, order: seq<seq<byte>>, st: CMeta)
    requires FluxFormat.Within(order, meta) && forall k | k in meta :: NUL !in k
    ensures var r := MetaFold(meta, order, st);
      && r.artist == (if FluxFormat.ARTIST in order then Some(Line(meta[FluxFormat.ARTIST])) else st.artist)
      && r.hasArtist == (FluxFormat.ARTIST in order || st.hasArtist)
      && r.songName == (if FluxFormat.SONG_NAME in order then Some(Line(meta[FluxFormat.SONG_NAME])) else st.songName)
      && r.mapper == (if FluxFormat.MAPPER in order then Some(Line(meta[FluxFormat.MAPPER])) else st.mapper)
    decreases |order|
  {
    if order != [] {
      var k := order[0];
      CStrPlain(k);
      assert FluxFormat.MAPPER[0] != FluxFormat.ARTIST[0] && FluxFormat.MAPPER[0] != FluxFormat.SONG_NAME[0];
      assert FluxFormat.ARTIST[0] != FluxFormat.SONG_NAME[0];
      MetaFoldPlain(meta, order[1..], StoreMeta(st, k, meta[k]));
      assert order == [k] + order[1..];
    }
  }

  /**
    Cross-check of the two readers of one layout: for a map `save` can
    write whose metadata keys hold no NUL byte, `load_map` reaches the end
    of the written bytes and keeps `artist`, `song_name` and `mapper` as
    their values cut at the first CR or LF, sets `has_artist` exactly when
    there is an artist, names the charts in the order they were written,
    has an image exactly when a nonempty one was written, and keeps the
    music.
  */
  lemma LoadEncodedPlain(m: FluxFormat.MapValue, metaOrder: seq<seq<byte>>, diffOrder: seq<seq<byte>>, rest: seq<byte>)
    requires m.version == 1 && FluxFormat.Encodable(m) && forall k | k in m.meta :: NUL !in k
    requires FluxFormat.Enumerates(metaOrder, m.meta.Keys) && FluxFormat.Enumerates(diffOrder, m.difficulties.Keys)
    ensures var r := LoadSpec(FluxFormat.Encode(m, metaOrder, diffOrder) + rest);
      && r.Loaded? && r.end == |FluxFormat.Encode(m, metaOrder, diffOrder)|
      && r.flux.artist == Kept(m.meta, FluxFormat.ARTIST) && r.flux.hasArtist == (FluxFormat.ARTIST in m.meta)
      && r.flux.songName == Kept(m.meta, FluxFormat.SONG_NAME) && r.flux.mapper == Kept(m.meta, FluxFormat.MAPPER)
      && |r.flux.difficulties| == |diffOrder| == |m.difficulties|
      && (forall i | 0 <= i < |diffOrder| :: r.flux.difficulties[i] == Line(diffOrder[i]))
      && r.flux.hasImage == (m.image.Some? && m.image.value != [])
      && r.flux.image == ImageOf(m.image) && r.flux.music == m.music
  {
    LoadEncoded(m, metaOrder, diffOrder, rest);
    MetaFoldPlain(m.meta, metaOrder, NO_META);
    FluxFormat.EnumerationSize(diffOrder, m.difficulties.Keys);
    LinesAt(diffOrder);
  }
}
