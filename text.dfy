/**
  Text as the Rust code sees it: a `String` is a byte sequence that is
  well-formed UTF-8; `str::split` with a string pattern; `uN::from_str` and
  `{}` formatting of unsigned integers.
*/
module Text {
  import opened Bytes
  import opened Results

  predicate Cont(b: byte) { 0x80 <= b <= 0xBF }

  /**
    Length of the well-formed UTF-8 byte sequence that starts `s`, following
    Table 3-7 of the Unicode Standard (no overlong forms, no surrogates,
    nothing above U+10FFFF); 0 when `s` does not start with one.
  */
  function Utf8SeqLen(s: seq<byte>): (n: nat)
    requires s != []
    ensures n <= 4 && n <= |s|
  {
    var b := s[0];
    if b <= 0x7F then 1
    else if 0xC2 <= b <= 0xDF then
      if |s| >= 2 && Cont(s[1]) then 2 else 0
    else if b == 0xE0 then
      if |s| >= 3 && 0xA0 <= s[1] <= 0xBF && Cont(s[2]) then 3 else 0
    else if 0xE1 <= b <= 0xEC || 0xEE <= b <= 0xEF then
      if |s| >= 3 && Cont(s[1]) && Cont(s[2]) then 3 else 0
    else if b == 0xED then
      if |s| >= 3 && 0x80 <= s[1] <= 0x9F && Cont(s[2]) then 3 else 0
    else if b == 0xF0 then
      if |s| >= 4 && 0x90 <= s[1] <= 0xBF && Cont(s[2]) && Cont(s[3]) then 4 else 0
    else if 0xF1 <= b <= 0xF3 then
      if |s| >= 4 && Cont(s[1]) && Cont(s[2]) && Cont(s[3]) then 4 else 0
    else if b == 0xF4 then
      if |s| >= 4 && 0x80 <= s[1] <= 0x8F && Cont(s[2]) && Cont(s[3]) then 4 else 0
    else 0
  }

  /** `String::from_utf8` / `str::from_utf8` accept exactly these byte sequences. */
  predicate IsUtf8(s: seq<byte>)
    decreases |s|
  {
    s == [] || (Utf8SeqLen(s) > 0 && IsUtf8(s[Utf8SeqLen(s)..]))
  }

  predicate IsAscii(s: seq<byte>) {
    forall i | 0 <= i < |s| :: s[i] < 0x80
  }

  lemma {:induction false} AsciiIsUtf8(s: seq<byte>)
    requires IsAscii(s)
    ensures IsUtf8(s)
  {
    if s != [] {
      assert Utf8SeqLen(s) == 1;
      assert IsAscii(s[1..]) by {
        forall i | 0 <= i < |s| - 1 ensures s[1..][i] < 0x80 {
          assert s[1..][i] == s[i + 1];
        }
      }
      AsciiIsUtf8(s[1..]);
    }
  }

  /** The bytes of an ASCII string literal. */
  function Ascii(s: string): (r: seq<byte>)
    requires forall i | 0 <= i < |s| :: s[i] as int < 0x80
    ensures |r| == |s| && IsAscii(r)
    ensures forall i | 0 <= i < |s| :: r[i] == s[i] as int
  {
    seq(|s|, i requires 0 <= i < |s| => s[i] as int)
  }

  // ---------------------------------------------------------------------
  // str::split

  /** `sep` occurs in `s` starting at index `k`. */
  predicate MatchAt<T(==)>(s: seq<T>, k: nat, sep: seq<T>) {
    k + |sep| <= |s| && s[k..k + |sep|] == sep
  }

  /**
    Rust's `str::split(sep)`: the pieces between the leftmost non-overlapping
    occurrences of `sep`, scanning left to right; there is always one more
    piece than there are occurrences.
  */
  function Split<T(==)>(s: seq<T>, sep: seq<T>): (parts: seq<seq<T>>)
    requires sep != []
    ensures |parts| >= 1
    decreases |s|
  {
    if |s| < |sep| then [s]
    else if s[..|sep|] == sep then [[]] + Split(s[|sep|..], sep)
    else
      var rest := Split(s[1..], sep);
      [[s[0]] + rest[0]] + rest[1..]
  }

  /** The pieces put back together with `sep` between them. */
  lemma Assoc<T>(a: seq<T>, b: seq<T>, c: seq<T>)
    ensures (a + b) + c == a + (b + c)
  {
  }

  function Join<T>(parts: seq<seq<T>>, sep: seq<T>): seq<T>
    requires |parts| >= 1
  {
    if |parts| == 1 then parts[0] else parts[0] + sep + Join(parts[1..], sep)
  }

  /** Splitting loses nothing: joining the pieces restores the input. */
  lemma {:induction false} JoinSplit<T>(s: seq<T>, sep: seq<T>)
    requires sep != []
    ensures Join(Split(s, sep), sep) == s
    decreases |s|, 1
  {
    if |s| >= |sep| {
      if s[..|sep|] == sep {
        JoinSplitAtSep(s, sep);
      } else {
        JoinSplitInPiece(s, sep);
      }
    }
  }

  lemma {:induction false} JoinSplitAtSep<T>(s: seq<T>, sep: seq<T>)
    requires sep != [] && |s| >= |sep| && s[..|sep|] == sep
    ensures Join(Split(s, sep), sep) == s
    decreases |s|, 0
  {
    var parts := Split(s[|sep|..], sep);
    JoinSplit(s[|sep|..], sep);
    assert Split(s, sep) == [[]] + parts;
    assert ([[]] + parts)[1..] == parts;
    assert s == sep + s[|sep|..];
  }

  lemma {:induction false} JoinSplitInPiece<T>(s: seq<T>, sep: seq<T>)
    requires sep != [] && |s| >= |sep| && s[..|sep|] != sep
    ensures Join(Split(s, sep), sep) == s
    decreases |s|, 0
  {
    var rest := Split(s[1..], sep);
    JoinSplit(s[1..], sep);
    assert Split(s, sep) == [[s[0]] + rest[0]] + rest[1..];
    JoinCons(s[0], rest, sep);
    assert s == [s[0]] + s[1..];
  }

  /** Putting `x` in front of the first piece puts it in front of the joined text. */
  lemma JoinCons<T>(x: T, rest: seq<seq<T>>, sep: seq<T>)
    requires |rest| >= 1
    ensures Join([[x] + rest[0]] + rest[1..], sep) == [x] + Join(rest, sep)
  {
    var parts := [[x] + rest[0]] + rest[1..];
    if |rest| > 1 {
      assert parts[1..] == rest[1..];
    }
  }

  /** No occurrence of `sep` starts inside `p`. */
  predicate NoMatch<T(==)>(p: seq<T>, sep: seq<T>) {
    forall k | 0 <= k < |p| :: !MatchAt(p, k, sep)
  }

  /** No occurrence of `sep` starts inside `p`, even one overlapping a `sep` written right after `p`. */
  predicate NoMatchBefore<T(==)>(p: seq<T>, sep: seq<T>) {
    forall k | 0 <= k < |p| :: !MatchAt(p + sep, k, sep)
  }

  /** A piece that does not contain `sep`, even overlapping the separator written after it, ends at that separator. */
  lemma {:induction false} SplitPiece<T>(p: seq<T>, sep: seq<T>, r: seq<T>)
    requires sep != []
    requires NoMatchBefore(p, sep)
    ensures Split(p + sep + r, sep) == [p] + Split(r, sep)
    decreases |p|
  {
    var s := p + sep + r;
    if p == [] {
      assert s == sep + r;
      assert s[..|sep|] == sep;
      assert s[|sep|..] == r;
    } else {
      assert !MatchAt(p + sep, 0, sep);
      assert s[..|sep|] == (p + sep)[0..|sep|];
      assert s[1..] == p[1..] + sep + r;
      forall k | 0 <= k < |p[1..]|
        ensures !MatchAt(p[1..] + sep, k, sep)
      {
        assert !MatchAt(p + sep, k + 1, sep);
        assert (p[1..] + sep)[k..k + |sep|] == (p + sep)[k + 1..k + 1 + |sep|];
      }
      SplitPiece(p[1..], sep, r);
      assert [p[0]] + p[1..] == p;
    }
  }

  /** A final piece that does not contain `sep` is not split. */
  lemma {:induction false} SplitLast<T>(p: seq<T>, sep: seq<T>)
    requires sep != []
    requires NoMatch(p, sep)
    ensures Split(p, sep) == [p]
    decreases |p|
  {
    if |p| >= |sep| {
      assert !MatchAt(p, 0, sep);
      forall k | 0 <= k < |p[1..]|
        ensures !MatchAt(p[1..], k, sep)
      {
        assert !MatchAt(p, k + 1, sep);
        if k + |sep| <= |p[1..]| {
          assert p[1..][k..k + |sep|] == p[k + 1..k + 1 + |sep|];
        }
      }
      SplitLast(p[1..], sep);
      assert [p[0]] + p[1..] == p;
    }
  }

  /** Splitting the join of pieces that hold no separator gives back the pieces. */
  lemma {:induction false} SplitJoin<T>(parts: seq<seq<T>>, sep: seq<T>)
    requires sep != [] && |parts| >= 1
    requires forall i | 0 <= i < |parts| - 1 :: NoMatchBefore(parts[i], sep)
    requires NoMatch(parts[|parts| - 1], sep)
    ensures Split(Join(parts, sep), sep) == parts
  {
    if |parts| == 1 {
      SplitLast(parts[0], sep);
    } else {
      var tail := parts[1..];
      forall i | 0 <= i < |tail| - 1
        ensures NoMatchBefore(tail[i], sep)
      {
        assert tail[i] == parts[i + 1];
      }
      SplitJoin(tail, sep);
      SplitPiece(parts[0], sep, Join(tail, sep));
      assert parts == [parts[0]] + tail;
    }
  }

  /** Splitting never invents an element: a value absent from `s` is absent from every piece. */
  lemma {:induction false} SplitKeepsOut<T>(s: seq<T>, sep: seq<T>, c: T)
    requires sep != [] && c !in s
    ensures forall i | 0 <= i < |Split(s, sep)| :: c !in Split(s, sep)[i]
    decreases |s|
  {
    if |s| >= |sep| {
      if s[..|sep|] == sep {
        SplitKeepsOut(s[|sep|..], sep, c);
      } else {
        SplitKeepsOut(s[1..], sep, c);
        var rest := Split(s[1..], sep);
        var parts := [[s[0]] + rest[0]] + rest[1..];
        forall i | 0 <= i < |parts| ensures c !in parts[i] {
          if i > 0 {
            assert parts[i] == rest[i];
          }
        }
      }
    }
  }

  /** Number of occurrences of `c` in `s`. */
  function Count<T(==)>(s: seq<T>, c: T): nat {
    if s == [] then 0 else (if s[0] == c then 1 else 0) + Count(s[1..], c)
  }

  /** Splitting on one element: one more piece than occurrences, and no piece holds the separator. */
  lemma {:induction false} SplitOnOne<T>(s: seq<T>, c: T)
    ensures |Split(s, [c])| == Count(s, c) + 1
    ensures forall i | 0 <= i < |Split(s, [c])| :: c !in Split(s, [c])[i]
    decreases |s|
  {
    if |s| >= 1 {
      SplitOnOne(s[1..], c);
      if s[..1] == [c] {
        assert s[1..] == s[|[c]|..];
      } else {
        var rest := Split(s[1..], [c]);
        assert s[0] != c;
        var parts := [[s[0]] + rest[0]] + rest[1..];
        forall i | 0 <= i < |parts| ensures c !in parts[i] {
          if i > 0 {
            assert parts[i] == rest[i];
          }
        }
      }
    }
  }

  /** A piece without the one-element separator `[c]` never starts a match of it. */
  lemma Absent<T>(p: seq<T>, c: T)
    requires c !in p
    ensures NoMatchBefore(p, [c]) && NoMatch(p, [c])
  {
    forall k | 0 <= k < |p| ensures !MatchAt(p + [c], k, [c]) && !MatchAt(p, k, [c]) {
      assert (p + [c])[k] == p[k];
    }
  }

  lemma {:induction false} CountAppend<T>(a: seq<T>, b: seq<T>, c: T)
    ensures Count(a + b, c) == Count(a, c) + Count(b, c)
    decreases |a|
  {
    if a == [] {
      assert a + b == b;
    } else {
      assert (a + b)[0] == a[0] && (a + b)[1..] == a[1..] + b;
      CountAppend(a[1..], b, c);
    }
  }

  lemma {:induction false} CountAbsent<T>(s: seq<T>, c: T)
    requires c !in s
    ensures Count(s, c) == 0
    decreases |s|
  {
    if s != [] {
      CountAbsent(s[1..], c);
    }
  }

  lemma AsciiAppend(a: seq<byte>, b: seq<byte>)
    requires IsAscii(a) && IsAscii(b)
    ensures IsAscii(a + b)
  {
    forall i | 0 <= i < |a + b| ensures (a + b)[i] < 0x80 {
      if i >= |a| {
        assert (a + b)[i] == b[i - |a|];
      }
    }
  }

  /** A well-formed character at the front of `a` keeps its length when bytes follow it. */
  lemma Utf8SeqLenAppend(a: seq<byte>, b: seq<byte>)
    requires a != [] && Utf8SeqLen(a) > 0
    ensures Utf8SeqLen(a + b) == Utf8SeqLen(a)
  {
    assert forall i | 0 <= i < |a| :: (a + b)[i] == a[i];
  }

  /** Well-formed UTF-8 followed by well-formed UTF-8 is well-formed. */
  lemma {:induction false} Utf8Append(a: seq<byte>, b: seq<byte>)
    requires IsUtf8(a) && IsUtf8(b)
    ensures IsUtf8(a + b)
    decreases |a|
  {
    if a == [] {
      assert a + b == b;
    } else {
      var n := Utf8SeqLen(a);
      Utf8SeqLenAppend(a, b);
      assert (a + b)[n..] == a[n..] + b;
      Utf8Append(a[n..], b);
    }
  }

  /** An ASCII prefix is well-formed on its own, so it changes nothing about what follows. */
  lemma {:induction false} Utf8AfterAscii(a: seq<byte>, b: seq<byte>)
    requires IsAscii(a)
    ensures IsUtf8(a + b) <==> IsUtf8(b)
    decreases |a|
  {
    if a == [] {
      assert a + b == b;
    } else {
      assert (a + b)[0] == a[0] < 0x80;
      assert (a + b)[1..] == a[1..] + b;
      assert IsAscii(a[1..]) by {
        forall i | 0 <= i < |a| - 1 ensures a[1..][i] < 0x80 {
          assert a[1..][i] == a[i + 1];
        }
      }
      Utf8AfterAscii(a[1..], b);
    }
  }

  /** Joining well-formed pieces with a well-formed separator gives well-formed text. */
  lemma {:induction false} Utf8Join(parts: seq<seq<byte>>, sep: seq<byte>)
    requires |parts| >= 1 && IsUtf8(sep)
    requires forall i | 0 <= i < |parts| :: IsUtf8(parts[i])
    ensures IsUtf8(Join(parts, sep))
    decreases |parts|
  {
    if |parts| > 1 {
      var tail := parts[1..];
      forall i | 0 <= i < |tail| ensures IsUtf8(tail[i]) {
        assert tail[i] == parts[i + 1];
      }
      Utf8Join(tail, sep);
      Utf8Three(parts[0], sep, Join(tail, sep));
    }
  }

  lemma Utf8Three(a: seq<byte>, b: seq<byte>, c: seq<byte>)
    requires IsUtf8(a) && IsUtf8(b) && IsUtf8(c)
    ensures IsUtf8(a + b + c)
  {
    Utf8Append(a, b);
    Utf8Append(a + b, c);
  }

  // ---------------------------------------------------------------------
  // Unsigned decimal numbers

  predicate IsDigit(b: byte) { 0x30 <= b <= 0x39 }

  predicate AllDigits(s: seq<byte>) {
    forall i | 0 <= i < |s| :: IsDigit(s[i])
  }

  function DigitsValue(d: seq<byte>): nat
    requires AllDigits(d)
  {
    if d == [] then 0 else DigitsValue(d[..|d| - 1]) * 10 + (d[|d| - 1] - 0x30)
  }

  /**
    Rust's `uN::from_str` for an unsigned type whose values are below `bound`:
    an optional `+`, then one or more ASCII digits whose value is below
    `bound`; anything else (empty text, a lone `+`, a `-`, a space, overflow)
    is an error.
  */
  function ParseUnsigned(s: seq<byte>, bound: nat): (r: Option<nat>)
    ensures r.Some? ==> r.value < bound
  {
    if s == [] then None
    else
      var digits := if s[0] == 0x2B then s[1..] else s;
      if digits == [] || !AllDigits(digits) then None
      else if DigitsValue(digits) < bound then Some(DigitsValue(digits))
      else None
  }

  /** Rust's `{}` formatting of an unsigned integer: its decimal digits, no sign, no leading zero. */
  function Decimal(n: nat): (s: seq<byte>)
    ensures s != [] && AllDigits(s)
  {
    if n < 10 then [0x30 + n] else Decimal(n / 10) + [0x30 + n % 10]
  }

  lemma {:induction false} DecimalValue(n: nat)
    ensures DigitsValue(Decimal(n)) == n
  {
    if n >= 10 {
      var s := Decimal(n);
      assert s[..|s| - 1] == Decimal(n / 10);
      DecimalValue(n / 10);
    }
  }

  /** Formatting a number in range and parsing it back gives the number. */
  lemma ParseDecimal(n: nat, bound: nat)
    requires n < bound
    ensures ParseUnsigned(Decimal(n), bound) == Some(n)
  {
    DecimalValue(n);
  }
}
