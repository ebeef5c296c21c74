/**
  The map list of the game's menu (src/ui/map_menu.rs): `init` collects the
  `.flux` files of the maps directory, and each frame the list shows the
  maps whose path holds every word of the search text.
*/
module MapMenu {
  import opened Bytes
  import opened Text
  import opened Results

  const SPACE: byte := 0x20
  const DOT: byte := 0x2E
  const SLASH: byte := 0x2F

  /** `MAP_DIR`. */
  const MAP_DIR: seq<byte> := Ascii("data/maps")

  /** The extension `init` keeps. */
  const FLUX: seq<byte> := Ascii("flux")

  // ---------------------------------------------------------------------
  // The search filter

  /** `str::contains` with a string pattern: `t` occurs somewhere in `s`. */
  predicate Contains(s: seq<byte>, t: seq<byte>) {
    exists k | 0 <= k <= |s| :: MatchAt(s, k, t)
  }

  /** The words of the search: the pieces between single spaces; runs of spaces give empty words. */
  function Words(search: seq<byte>): seq<seq<byte>> {
    Split(search, [SPACE])
  }

  /** A map is listed when the search is empty or every non-empty word occurs in its path. */
  predicate Shown(path: seq<byte>, search: seq<byte>) {
    search == [] || forall t | t in Words(search) && t != [] :: Contains(path, t)
  }

  /** The `contains` vector for the words `tokens`: one entry per non-empty word, in order. */
  function Checks(path: seq<byte>, tokens: seq<seq<byte>>): (c: seq<bool>)
    ensures false in c <==> exists t | t in tokens :: t != [] && !Contains(path, t)
    decreases |tokens|
  {
    if tokens == [] then []
    else
      var last := tokens[|tokens| - 1];
      assert tokens == tokens[..|tokens| - 1] + [last];
      Checks(path, tokens[..|tokens| - 1]) + if last != [] then [Contains(path, last)] else []
  }

  /** The test in `render`: the `contains` vector built word by word, then checked for a `false`. */
  method Matches(path: seq<byte>, search: seq<byte>) returns (show: bool)
    ensures show == Shown(path, search)
  {
    var tokens := Words(search);
    var contains: seq<bool> := [];
    var j := 0;
    while j < |tokens|
      invariant 0 <= j <= |tokens|
      invariant contains == Checks(path, tokens[..j])
    {
      assert tokens[..j + 1][..j] == tokens[..j];
      if tokens[j] != [] {
        contains := contains + [Contains(path, tokens[j])];
      }
      j := j + 1;
    }
    assert tokens[..j] == tokens;
    show := !(false in contains && search != []);
  }

  /** The maps listed, in stored order. */
  function Filter(maps: seq<seq<byte>>, search: seq<byte>): (r: seq<seq<byte>>)
    ensures |r| <= |maps|
    ensures forall p :: p in r <==> p in maps && Shown(p, search)
    decreases |maps|
  {
    if maps == [] then []
    else
      var last := maps[|maps| - 1];
      assert maps == maps[..|maps| - 1] + [last];
      Filter(maps[..|maps| - 1], search) + if Shown(last, search) then [last] else []
  }

  /** Filtering keeps the stored order: the maps of a longer list come after those of its prefix. */
  lemma {:induction false} FilterAppend(a: seq<seq<byte>>, b: seq<seq<byte>>, search: seq<byte>)
    ensures Filter(a + b, search) == Filter(a, search) + Filter(b, search)
    decreases |b|
  {
    if b != [] {
      var front, last := b[..|b| - 1], b[|b| - 1];
      var keep := if Shown(last, search) then [last] else [];
      assert (a + b)[..|a + b| - 1] == a + front && (a + b)[|a + b| - 1] == last;
      assert Filter(a + b, search) == Filter(a + front, search) + keep;
      assert Filter(b, search) == Filter(front, search) + keep;
      FilterAppend(a, front, search);
    } else {
      assert a + b == a;
    }
  }

  /** A search made of spaces only has no non-empty word, so every map is shown. */
  lemma SpacesShowAll(path: seq<byte>, search: seq<byte>)
    requires forall i | 0 <= i < |search| :: search[i] == SPACE
    ensures Shown(path, search)
  {
    SplitOnOne(search, SPACE);
    forall t | t in Words(search) ensures t == [] {
      if t != [] {
        if t[0] != SPACE {
          SplitKeepsOut(search, [SPACE], t[0]);
        }
      }
    }
  }

  /** With such a search the list is every map, in order. */
  lemma {:induction false} SpacesListAll(maps: seq<seq<byte>>, search: seq<byte>)
    requires forall i | 0 <= i < |search| :: search[i] == SPACE
    ensures Filter(maps, search) == maps
    decreases |maps|
  {
    if maps != [] {
      SpacesShowAll(maps[|maps| - 1], search);
      SpacesListAll(maps[..|maps| - 1], search);
      assert maps == maps[..|maps| - 1] + [maps[|maps| - 1]];
    }
  }

  // ---------------------------------------------------------------------
  // The extension filter of init

  /** The position of the last dot in `name`. */
  function LastDot(name: seq<byte>): (d: Option<nat>)
    ensures d.Some? ==> d.value < |name| && name[d.value] == DOT
    ensures d.Some? ==> forall j | d.value < j < |name| :: name[j] != DOT
    ensures d.None? ==> DOT !in name
    decreases |name|
  {
    if name == [] then None
    else if name[|name| - 1] == DOT then Some(|name| - 1)
    else
      var d := LastDot(name[..|name| - 1]);
      assert forall j | 0 <= j < |name| - 1 :: name[..|name| - 1][j] == name[j];
      d
  }

  /**
    `Path::extension` of a directory entry's file name: the text after the
    last dot, unless there is no dot, the only dot starts the name, or the
    name is `..`.
  */
  function Extension(name: seq<byte>): Option<seq<byte>> {
    if name == [DOT, DOT] then None
    else
      match LastDot(name)
      case None => None
      case Some(d) => if d == 0 then None else Some(name[d + 1..])
  }

  /** The extension is exactly `flux` when the name ends in `.flux` with something before the dot. */
  lemma FluxExtension(name: seq<byte>)
    ensures Extension(name) == Some(FLUX) <==> |name| >= 6 && name[|name| - 5..] == [DOT] + FLUX
  {
    var tail := [DOT] + FLUX;
    if |name| >= 6 && name[|name| - 5..] == tail {
      assert name[|name| - 5] == DOT;
      forall j | |name| - 5 < j < |name| ensures name[j] != DOT {
        assert name[j] == tail[j - (|name| - 5)];
      }
      var d := LastDot(name);
      assert d == Some(|name| - 5);
      assert name[|name| - 4..] == FLUX;
    }
    if Extension(name) == Some(FLUX) {
      var d := LastDot(name).value;
      assert name[d + 1..] == FLUX;
      assert name[|name| - 5..] == [name[d]] + name[d + 1..];
    }
  }

  /** The path `init` stores for an entry: the directory, a slash, the entry's name. */
  function PathOf(name: seq<byte>): seq<byte> {
    MAP_DIR + [SLASH] + name
  }

  /** The names of the entries `init` keeps, in directory order. */
  function FluxNames(names: seq<seq<byte>>): (r: seq<seq<byte>>)
    ensures |r| <= |names|
    decreases |names|
  {
    if names == [] then []
    else
      var last := names[|names| - 1];
      FluxNames(names[..|names| - 1]) + if Extension(last) == Some(FLUX) then [last] else []
  }

  /** The kept names are exactly the entries whose extension is `flux`. */
  lemma {:induction false} FluxNamesKept(names: seq<seq<byte>>)
    ensures forall n :: n in FluxNames(names) <==> n in names && Extension(n) == Some(FLUX)
    decreases |names|
  {
    if names != [] {
      var last := names[|names| - 1];
      assert names == names[..|names| - 1] + [last];
      FluxNamesKept(names[..|names| - 1]);
    }
  }

  function Paths(names: seq<seq<byte>>): (r: seq<seq<byte>>)
    ensures |r| == |names|
    ensures forall i | 0 <= i < |names| :: r[i] == PathOf(names[i])
  {
    seq(|names|, i requires 0 <= i < |names| => PathOf(names[i]))
  }

  /**
    A kept entry's path must be UTF-8 for `to_str().unwrap()`; the directory
    part is ASCII, so that is the name being UTF-8 (`PathUtf8`).
  */
  predicate Storable(name: seq<byte>) {
    Extension(name) == Some(FLUX) ==> IsUtf8(name)
  }

  lemma PathUtf8(name: seq<byte>)
    ensures IsUtf8(PathOf(name)) <==> IsUtf8(name)
  {
    AsciiAppend(MAP_DIR, [SLASH]);
    Utf8AfterAscii(MAP_DIR + [SLASH], name);
  }

  /** One more entry adds its path to the kept ones exactly when it is a `.flux` entry. */
  lemma KeptStep(names: seq<seq<byte>>, i: nat)
    requires i < |names|
    ensures Paths(FluxNames(names[..i + 1]))
      == Paths(FluxNames(names[..i])) + if Extension(names[i]) == Some(FLUX) then [PathOf(names[i])] else []
  {
    assert names[..i + 1][..i] == names[..i];
    var kept := FluxNames(names[..i]);
    if Extension(names[i]) == Some(FLUX) {
      assert Paths(kept + [names[i]]) == Paths(kept) + [PathOf(names[i])];
    }
  }

  /** `FluxMapMenuUI`. */
  class MapMenuUI {
    var maps: seq<seq<byte>>
    var mapSearch: seq<byte>

    constructor()
      ensures maps == [] && mapSearch == []
    {
      maps, mapSearch := [], [];
    }

    /**
      `init` over the directory's entry names: appends the path of every
      `.flux` entry, in directory order, to the maps already listed. A kept
      path that is not UTF-8 panics in `to_str().unwrap()` (`false`).
    */
    method Init(names: seq<seq<byte>>) returns (ok: bool)
      modifies this
      ensures mapSearch == old(mapSearch)
      ensures ok <==> forall i | 0 <= i < |names| :: Storable(names[i])
      ensures ok ==> maps == old(maps) + Paths(FluxNames(names))
    {
      var listed := maps;
      var i := 0;
      while i < |names|
        invariant 0 <= i <= |names|
        invariant maps == old(maps) && mapSearch == old(mapSearch)
        invariant forall j | 0 <= j < i :: Storable(names[j])
        invariant listed == old(maps) + Paths(FluxNames(names[..i]))
      {
        var stored, next := Keep(listed, names[i]);
        if !stored {
          return false;
        }
        KeptStep(names, i);
        listed := next;
        i := i + 1;
      }
      assert names[..i] == names;
      maps := listed;
      return true;
    }

    /** One directory entry: its path appended when its extension is `flux`; `false` for a path that is not UTF-8. */
    static method Keep(listed: seq<seq<byte>>, name: seq<byte>) returns (stored: bool, next: seq<seq<byte>>)
      ensures stored <==> Storable(name)
      ensures stored ==> next == listed + if Extension(name) == Some(FLUX) then [PathOf(name)] else []
    {
      next := listed;
      if Extension(name) == Some(FLUX) {
        if !IsUtf8(name) {
          return false, next;
        }
        next := next + [PathOf(name)];
      }
      return true, next;
    }

    /** The filtering loop of `render`: the maps it gives a button, in stored order. */
    method Visible() returns (shown: seq<seq<byte>>)
      ensures shown == Filter(maps, mapSearch)
    {
      shown := [];
      var i := 0;
      while i < |maps|
        invariant 0 <= i <= |maps|
        invariant shown == Filter(maps[..i], mapSearch)
      {
        var path := maps[i];
        assert maps[..i + 1] == maps[..i] + [path];
        var show := Matches(path, mapSearch);
        if show {
          shown := shown + [path];
        }
        i := i + 1;
      }
      assert maps[..i] == maps;
    }
  }
}
