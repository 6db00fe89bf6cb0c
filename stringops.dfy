/** The parts of Go's `strings` and `strconv` packages that the ingestion
    pipeline and the configuration loader rely on, with Go's semantics:
    substring search, `strings.Split` with a non-empty separator,
    `strings.TrimSpace`, the byte length of a UTF-8 string (which decides
    whether a slice expression `s[:n]` panics), and the decimal
    `strconv.FormatUint` / `strconv.ParseUint` pair used for the checkpoint. */
module StringOps {
  import opened Wrappers

  const MaxUint64: nat := 0xFFFF_FFFF_FFFF_FFFF

  // ---------------------------------------------------------------------
  // Substring search (strings.Contains, strings.Index)
  // ---------------------------------------------------------------------

  /** `sub` occurs in `s` starting at position `i`. */
  predicate OccursAt(s: string, sub: string, i: nat) {
    i + |sub| <= |s| && s[i..i + |sub|] == sub
  }

  /** The first occurrence of `sub` in `s` at or after position `i`. */
  function IndexFrom(s: string, sub: string, i: nat): Option<nat>
    requires i <= |s|
    decreases |s| - i
  {
    if OccursAt(s, sub, i) then Some(i)
    else if i == |s| then None
    else IndexFrom(s, sub, i + 1)
  }

  /** `IndexFrom` finds the first occurrence at or after `i`, and finds
      nothing only when there is none. */
  lemma {:induction false} IndexFromSpec(s: string, sub: string, i: nat)
    requires i <= |s|
    ensures var r := IndexFrom(s, sub, i);
      && (r.Some? ==> i <= r.value && OccursAt(s, sub, r.value))
      && (r.Some? ==> forall j :: i <= j < r.value ==> !OccursAt(s, sub, j))
      && (r.None? ==> forall j :: i <= j ==> !OccursAt(s, sub, j))
    decreases |s| - i
  {
    if !OccursAt(s, sub, i) && i < |s| {
      IndexFromSpec(s, sub, i + 1);
    }
  }

  /** Go's `strings.Contains(s, sub)`. */
  function Contains(s: string, sub: string): bool
  {
    IndexFrom(s, sub, 0).Some?
  }

  lemma ContainsSpec(s: string, sub: string)
    ensures Contains(s, sub) <==> exists i: nat :: OccursAt(s, sub, i)
  {
    IndexFromSpec(s, sub, 0);
  }

  // ---------------------------------------------------------------------
  // strings.Split and its inverse
  // ---------------------------------------------------------------------

  /** Go's `strings.Split(s, sep)` for a non-empty separator: the pieces
      between the leftmost non-overlapping occurrences of `sep`. */
  function Split(s: string, sep: string): (parts: seq<string>)
    requires |sep| > 0
    ensures |parts| >= 1
    decreases |s|
  {
    IndexFromSpec(s, sep, 0);
    match IndexFrom(s, sep, 0)
    case None => [s]
    case Some(i) => [s[..i]] + Split(s[i + |sep|..], sep)
  }

  /** Go's `strings.Join`. */
  function Join(parts: seq<string>, sep: string): string
  {
    if |parts| == 0 then ""
    else if |parts| == 1 then parts[0]
    else parts[0] + sep + Join(parts[1..], sep)
  }

  /** Joining the pieces of a split with the same separator gives back the input. */
  lemma {:induction false} SplitJoin(s: string, sep: string)
    requires |sep| > 0
    ensures Join(Split(s, sep), sep) == s
    decreases |s|
  {
    IndexFromSpec(s, sep, 0);
    match IndexFrom(s, sep, 0)
    case None =>
    case Some(i) =>
      var rest := s[i + |sep|..];
      var tail := Split(rest, sep);
      var parts := [s[..i]] + tail;
      assert Split(s, sep) == parts;
      assert parts[0] == s[..i] && parts[1..] == tail && |parts| > 1;
      SplitJoin(rest, sep);
      assert Join(parts, sep) == s[..i] + sep + rest;
      assert s[i..i + |sep|] == sep;
      assert s == s[..i] + s[i..i + |sep|] + rest;
  }

  /** Appending a piece adds one separator and the piece. */
  lemma {:induction false} JoinSnoc(parts: seq<string>, x: string, sep: string)
    requires |parts| >= 1
    ensures Join(parts + [x], sep) == Join(parts, sep) + sep + x
    decreases |parts|
  {
    if |parts| > 1 {
      JoinSnoc(parts[1..], x, sep);
      assert (parts + [x])[1..] == parts[1..] + [x];
    }
  }

  /** Joining two or more pieces puts a separator after the first one. */
  lemma JoinContainsSeparator(parts: seq<string>, sep: string)
    requires |parts| >= 2
    ensures Contains(Join(parts, sep), sep)
  {
    var j := Join(parts, sep);
    assert j == parts[0] + sep + Join(parts[1..], sep);
    assert j[|parts[0]|..|parts[0]| + |sep|] == sep;
    assert OccursAt(j, sep, |parts[0]|);
    ContainsSpec(j, sep);
  }

  /** A prefix of `s` that ends before the first occurrence of `sep` holds no `sep`. */
  lemma PrefixBeforeFirstIsFree(s: string, sep: string, i: nat)
    requires |sep| > 0 && i <= |s|
    requires forall j :: 0 <= j < i ==> !OccursAt(s, sep, j)
    ensures !Contains(s[..i], sep)
  {
    ContainsSpec(s[..i], sep);
    forall j: nat | OccursAt(s[..i], sep, j)
      ensures false
    {
      assert s[..i][j..j + |sep|] == s[j..j + |sep|];
      assert OccursAt(s, sep, j);
    }
  }

  /** No piece of a split contains the separator. */
  lemma {:induction false} SplitPiecesAreFree(s: string, sep: string)
    requires |sep| > 0
    ensures forall k :: 0 <= k < |Split(s, sep)| ==> !Contains(Split(s, sep)[k], sep)
    decreases |s|
  {
    IndexFromSpec(s, sep, 0);
    match IndexFrom(s, sep, 0)
    case None =>
      ContainsSpec(s, sep);
    case Some(i) =>
      var rest := s[i + |sep|..];
      SplitPiecesAreFree(rest, sep);
      PrefixBeforeFirstIsFree(s, sep, i);
      assert Split(s, sep) == [s[..i]] + Split(rest, sep);
  }

  /** Splitting on a one-character separator yields one piece more than
      there are occurrences of that character. */
  lemma {:induction false} SplitCharCount(s: string, c: char)
    ensures |Split(s, [c])| == multiset(s)[c] + 1
    decreases |s|
  {
    IndexFromSpec(s, [c], 0);
    match IndexFrom(s, [c], 0)
    case None =>
      forall j | 0 <= j < |s| ensures s[j] != c {
        assert !OccursAt(s, [c], j);
        assert s[j..j + 1] == [s[j]];
      }
      assert c !in s;
    case Some(i) =>
      var rest := s[i + 1..];
      SplitCharCount(rest, c);
      forall j | 0 <= j < i ensures s[j] != c {
        assert !OccursAt(s, [c], j);
        assert s[j..j + 1] == [s[j]];
      }
      assert c !in s[..i];
      assert s[i..i + 1] == [c];
      assert s == s[..i] + [c] + rest;
      assert multiset(s) == multiset(s[..i]) + multiset([c]) + multiset(rest);
  }

  // ---------------------------------------------------------------------
  // strings.TrimSpace
  // ---------------------------------------------------------------------

  /** Go's `unicode.IsSpace`. */
  predicate IsSpace(c: char) {
    var n := c as int;
    (0x09 <= n <= 0x0D) || n == 0x20 || n == 0x85 || n == 0xA0
    || n == 0x1680 || (0x2000 <= n <= 0x200A) || n == 0x2028 || n == 0x2029
    || n == 0x202F || n == 0x205F || n == 0x3000
  }

  predicate AllSpace(s: string) {
    forall k :: 0 <= k < |s| ==> IsSpace(s[k])
  }

  /** `s` with its leading white space removed. */
  function TrimLeft(s: string): (r: string)
    ensures |r| <= |s|
  {
    if s != [] && IsSpace(s[0]) then TrimLeft(s[1..]) else s
  }

  /** TrimLeft removes a prefix of white space and stops at the first other character. */
  lemma {:induction false} TrimLeftShape(s: string)
    ensures var r := TrimLeft(s);
      && r == s[|s| - |r|..]
      && AllSpace(s[..|s| - |r|])
      && (r == [] || !IsSpace(r[0]))
  {
    if s != [] && IsSpace(s[0]) {
      var r := TrimLeft(s[1..]);
      TrimLeftShape(s[1..]);
      assert s[..|s| - |r|] == [s[0]] + s[1..][..|s| - 1 - |r|];
    }
  }

  /** `s` with its trailing white space removed. */
  function TrimRight(s: string): (r: string)
    ensures |r| <= |s|
  {
    if s != [] && IsSpace(s[|s| - 1]) then TrimRight(s[..|s| - 1]) else s
  }

  /** TrimRight removes a suffix of white space and stops at the last other character. */
  lemma {:induction false} TrimRightShape(s: string)
    ensures var r := TrimRight(s);
      && r == s[..|r|]
      && AllSpace(s[|r|..])
      && (r == [] || !IsSpace(r[|r| - 1]))
  {
    if s != [] && IsSpace(s[|s| - 1]) {
      var r := TrimRight(s[..|s| - 1]);
      TrimRightShape(s[..|s| - 1]);
      assert s[|r|..] == s[..|s| - 1][|r|..] + [s[|s| - 1]];
    }
  }

  /** Go's `strings.TrimSpace`: leading and trailing white space removed. */
  function TrimSpace(s: string): (r: string)
    ensures |r| <= |s|
  {
    TrimRight(TrimLeft(s))
  }

  /** `s` is the result of TrimSpace padded on both sides by white space only
      (the left padding is what TrimLeft removes), and the result neither
      starts nor ends with white space. */
  lemma TrimSpaceShape(s: string)
    ensures var r := TrimSpace(s);
      var i := |s| - |TrimLeft(s)|;
      && i + |r| <= |s| && s[i..i + |r|] == r
      && AllSpace(s[..i]) && AllSpace(s[i + |r|..])
      && (r == [] || (!IsSpace(r[0]) && !IsSpace(r[|r| - 1])))
  {
    var l := TrimLeft(s);
    var r := TrimRight(l);
    TrimLeftShape(s);
    TrimRightShape(l);
    TrimmedAt(s, l, r);
    TrimmedEnds(l, r);
  }

  lemma TrimmedEnds(l: string, r: string)
    requires l == [] || !IsSpace(l[0])
    requires |r| <= |l| && r == l[..|r|] && (r == [] || !IsSpace(r[|r| - 1]))
    ensures r == [] || (!IsSpace(r[0]) && !IsSpace(r[|r| - 1]))
  {
    if r != [] {
      assert r[0] == l[0];
    }
  }

  lemma TrimmedAt(s: string, l: string, r: string)
    requires |l| <= |s| && l == s[|s| - |l|..] && AllSpace(s[..|s| - |l|])
    requires |r| <= |l| && r == l[..|r|] && AllSpace(l[|r|..])
    ensures var i := |s| - |l|;
      i + |r| <= |s| && s[i..i + |r|] == r && AllSpace(s[..i]) && AllSpace(s[i + |r|..])
  {
    var i := |s| - |l|;
    assert s[i + |r|..] == l[|r|..];
    assert s[i..i + |r|] == l[..|r|];
  }

  // ---------------------------------------------------------------------
  // UTF-8 length and slice panics
  // ---------------------------------------------------------------------

  /** Number of bytes in the UTF-8 encoding of `c`. */
  function Utf8Width(c: char): (n: nat)
    ensures 1 <= n <= 4
  {
    if c as int < 0x80 then 1
    else if c as int < 0x800 then 2
    else if c as int < 0x1_0000 then 3
    else 4
  }

  /** Go's `len(s)` for a string: its UTF-8 byte length. */
  function Utf8Len(s: string): (n: nat)
    ensures |s| <= n <= 4 * |s|
  {
    if s == [] then 0 else Utf8Width(s[0]) + Utf8Len(s[1..])
  }

  /** Whether Go's slice expression `s[:n]` panics: it does exactly when the
      string has fewer than `n` bytes. */
  predicate SlicePanics(s: string, n: nat) {
    Utf8Len(s) < n
  }

  // ---------------------------------------------------------------------
  // Decimal unsigned integers (strconv.FormatUint / strconv.ParseUint, base 10)
  // ---------------------------------------------------------------------

  predicate IsDigit(c: char) { '0' <= c <= '9' }

  predicate AllDigits(s: string) {
    forall k :: 0 <= k < |s| ==> IsDigit(s[k])
  }

  function DigitChar(d: nat): (c: char)
    requires d < 10
    ensures IsDigit(c) && (c as int) - ('0' as int) == d
  {
    ('0' as int + d) as char
  }

  /** The number a string of decimal digits denotes (leading zeros allowed). */
  function DecimalValue(s: string): nat
    requires AllDigits(s)
  {
    if s == [] then 0
    else DecimalValue(s[..|s| - 1]) * 10 + ((s[|s| - 1] as int) - ('0' as int))
  }

  /** `strconv.FormatUint(n, 10)`: the canonical decimal form, without leading zeros. */
  function FormatUint(n: nat): (s: string)
    ensures |s| >= 1 && AllDigits(s)
    ensures s[0] == '0' ==> s == "0"
  {
    if n < 10 then [DigitChar(n)] else FormatUint(n / 10) + [DigitChar(n % 10)]
  }

  /** `strconv.ParseUint(s, 10, 64)`: fails on the empty string, on any character
      that is not a decimal digit (no sign, no underscores) and when the value
      does not fit in 64 bits. */
  function ParseUint(s: string): (r: Option<nat>)
    ensures r.Some? <==> s != [] && AllDigits(s) && DecimalValue(s) <= MaxUint64
    ensures r.Some? ==> r.value == DecimalValue(s) && r.value <= MaxUint64
  {
    if s == [] || !AllDigits(s) then None
    else if DecimalValue(s) > MaxUint64 then None
    else Some(DecimalValue(s))
  }

  lemma {:induction false} DecimalOfFormat(n: nat)
    ensures DecimalValue(FormatUint(n)) == n
    decreases n
  {
    if n >= 10 {
      DecimalOfFormat(n / 10);
      var s := FormatUint(n);
      assert s[..|s| - 1] == FormatUint(n / 10);
    }
  }

  /** Storing a version with FormatUint and reading it back with ParseUint
      restores it, for every value a uint64 can hold. */
  lemma FormatParseRoundTrip(n: nat)
    requires n <= MaxUint64
    ensures ParseUint(FormatUint(n)) == Some(n)
  {
    DecimalOfFormat(n);
  }
}
