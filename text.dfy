/**
 * String helpers with Python's semantics: str.strip(), prefix slicing
 * (including a negative bound), str.split(sep) and str.split(sep, 1),
 * str.startswith, and the decimal rendering of an int in an f-string.
 */
module Text {
  import opened Wrappers

  /** The code points Python's str.isspace() accepts, i.e. what str.strip() removes. */
  predicate IsSpace(c: char) {
    var n := c as int;
    n == 0x20 || 0x09 <= n <= 0x0D || 0x1C <= n <= 0x1F || n == 0x85 || n == 0xA0
    || n == 0x1680 || 0x2000 <= n <= 0x200A || n == 0x2028 || n == 0x2029
    || n == 0x202F || n == 0x205F || n == 0x3000
  }

  /** Neither end of `s` is whitespace: what str.strip() returns. */
  predicate Stripped(s: string) {
    s == [] || (!IsSpace(s[0]) && !IsSpace(s[|s| - 1]))
  }

  /** Number of whitespace characters at the start of `s`. */
  function LeadingSpaces(s: string): (k: nat)
    ensures k <= |s|
    ensures forall i :: 0 <= i < k ==> IsSpace(s[i])
    ensures k < |s| ==> !IsSpace(s[k])
  {
    if s == [] || !IsSpace(s[0]) then 0 else 1 + LeadingSpaces(s[1..])
  }

  /** Number of whitespace characters at the end of `s`. */
  function TrailingSpaces(s: string): (k: nat)
    ensures k <= |s|
    ensures forall i :: |s| - k <= i < |s| ==> IsSpace(s[i])
    ensures k < |s| ==> !IsSpace(s[|s| - 1 - k])
  {
    if s == [] || !IsSpace(s[|s| - 1]) then 0 else 1 + TrailingSpaces(s[..|s| - 1])
  }

  /** str.strip(): drops exactly the whitespace at both ends and keeps the middle. */
  function Strip(s: string): (r: string)
    ensures Stripped(r)
    ensures LeadingSpaces(s) + |r| <= |s|
    ensures r == s[LeadingSpaces(s)..LeadingSpaces(s) + |r|]
    ensures forall i :: LeadingSpaces(s) + |r| <= i < |s| ==> IsSpace(s[i])
  {
    var l := LeadingSpaces(s);
    if l == |s| then []
    else
      var t := TrailingSpaces(s);
      assert !IsSpace(s[l]);
      s[l..|s| - t]
  }

  function Min(a: int, b: int): int { if a <= b then a else b }

  function Max(a: int, b: int): int { if a >= b then a else b }

  /** Python's s[:n]; a negative n counts from the end and clamps at the empty string. */
  function SliceTo(s: string, n: int): (r: string)
    ensures |r| <= |s| && r == s[..|r|]
    ensures n >= 0 ==> |r| == Min(n, |s|)
    ensures n < 0 ==> |r| == Max(|s| + n, 0)
  {
    if n >= 0 then (if n <= |s| then s[..n] else s)
    else if |s| + n > 0 then s[..|s| + n]
    else []
  }

  /**
   * DatabaseManager.sanitize_string: None stays None; otherwise the value is cut to
   * `maxLength` characters and then stripped, so it never exceeds a non-negative
   * `maxLength` and never starts or ends with whitespace.
   */
  function Sanitize(value: Option<string>, maxLength: int): (r: Option<string>)
    ensures r.None? <==> value.None?
    ensures r.Some? ==> Stripped(r.value)
    ensures r.Some? && maxLength >= 0 ==> |r.value| <= maxLength
    ensures r.Some? ==> |r.value| <= |value.value|
  {
    match value
    case None => None
    case Some(s) => Some(Strip(SliceTo(s, maxLength)))
  }

  /** A string that is already stripped is its own strip. */
  lemma StripOfStripped(s: string)
    requires Stripped(s)
    ensures Strip(s) == s
  {
  }

  /** A clean value that fits is stored unchanged. */
  lemma SanitizeKeepsClean(s: string, maxLength: int)
    requires Stripped(s) && |s| <= maxLength
    ensures Sanitize(Some(s), maxLength) == Some(s)
  {
    assert SliceTo(s, maxLength) == s;
    StripOfStripped(s);
  }

  /** Sanitising twice is the same as sanitising once. */
  lemma SanitizeIdempotent(value: Option<string>, maxLength: nat)
    ensures Sanitize(Sanitize(value, maxLength), maxLength) == Sanitize(value, maxLength)
  {
    if value.Some? {
      SanitizeKeepsClean(Sanitize(value, maxLength).value, maxLength);
    }
  }

  /** Index of the first occurrence of `c` in `s`. */
  function FindChar(s: string, c: char): (r: Option<nat>)
    ensures r.None? <==> c !in s
    ensures r.Some? ==> r.value < |s| && s[r.value] == c && c !in s[..r.value]
  {
    if s == [] then None
    else if s[0] == c then Some(0)
    else match FindChar(s[1..], c)
      case None => None
      case Some(i) =>
        assert s[..i + 1] == [s[0]] + s[1..][..i];
        Some(i + 1)
  }

  /** The first occurrence of `c` is found after a prefix that does not contain it. */
  lemma {:induction false} FindCharAfter(p: string, c: char, rest: string)
    requires c !in p
    ensures FindChar(p + [c] + rest, c) == Some(|p|)
  {
    if p != [] {
      assert (p + [c] + rest)[1..] == p[1..] + [c] + rest;
      FindCharAfter(p[1..], c, rest);
    }
  }

  /** A string is the part before index i, the character at i, and the part after. */
  lemma SplitAround(s: string, i: nat)
    requires i < |s|
    ensures s == s[..i] + [s[i]] + s[i + 1..]
  {
  }

  /** Python's s.split(sep) for a one-character separator. */
  function Split(s: string, sep: char): (parts: seq<string>)
    ensures |parts| >= 1
    decreases |s|
  {
    match FindChar(s, sep)
    case None => [s]
    case Some(i) => [s[..i]] + Split(s[i + 1..], sep)
  }

  /** Split cuts exactly at the separators: one piece iff there is none, and no piece holds one. */
  lemma {:induction false} SplitPieces(s: string, sep: char)
    ensures |Split(s, sep)| == 1 <==> sep !in s
    ensures forall i :: 0 <= i < |Split(s, sep)| ==> sep !in Split(s, sep)[i]
    decreases |s|
  {
    var f := FindChar(s, sep);
    if f.Some? {
      var i := f.value;
      var tail := Split(s[i + 1..], sep);
      SplitPieces(s[i + 1..], sep);
      assert Split(s, sep) == [s[..i]] + tail;
      forall k | 0 <= k < |Split(s, sep)|
        ensures sep !in Split(s, sep)[k]
      {
        if k > 0 {
          assert Split(s, sep)[k] == tail[k - 1];
        }
      }
    }
  }

  /** Python's sep.join(parts), the inverse of Split. */
  function Join(parts: seq<string>, sep: char): string
    requires |parts| >= 1
  {
    if |parts| == 1 then parts[0] else parts[0] + [sep] + Join(parts[1..], sep)
  }

  lemma {:induction false} JoinSplit(s: string, sep: char)
    ensures Join(Split(s, sep), sep) == s
    decreases |s|
  {
    var f := FindChar(s, sep);
    if f.Some? {
      var i := f.value;
      var head, rest := s[..i], s[i + 1..];
      SplitAround(s, i);
      var tail := Split(rest, sep);
      var parts := [head] + tail;
      assert Split(s, sep) == parts;
      assert parts[0] == head && parts[1..] == tail;
      assert Join(parts, sep) == head + [sep] + Join(tail, sep);
      JoinSplit(rest, sep);
    } else {
      assert Split(s, sep) == [s];
    }
  }

  lemma {:induction false} SplitJoin(parts: seq<string>, sep: char)
    requires |parts| >= 1
    requires forall i :: 0 <= i < |parts| ==> sep !in parts[i]
    ensures Split(Join(parts, sep), sep) == parts
  {
    if |parts| > 1 {
      var rest := Join(parts[1..], sep);
      FindCharAfter(parts[0], sep, rest);
      assert (parts[0] + [sep] + rest)[..|parts[0]|] == parts[0];
      assert (parts[0] + [sep] + rest)[|parts[0]| + 1..] == rest;
      SplitJoin(parts[1..], sep);
      assert parts == [parts[0]] + parts[1..];
    }
  }

  /** Python's s.split(sep, 1): at most two pieces, the second keeps later separators. */
  function SplitOnce(s: string, sep: char): (parts: seq<string>)
    ensures 1 <= |parts| <= 2
    ensures |parts| == 1 <==> sep !in s
    ensures |parts| == 1 ==> parts[0] == s
    ensures |parts| == 2 ==> s == parts[0] + [sep] + parts[1] && sep !in parts[0]
  {
    match FindChar(s, sep)
    case None => [s]
    case Some(i) =>
      assert s == s[..i] + [sep] + s[i + 1..];
      [s[..i], s[i + 1..]]
  }

  predicate StartsWith(s: string, prefix: string) {
    |prefix| <= |s| && s[..|prefix|] == prefix
  }

  function Digit(d: nat): (c: char)
    requires d < 10
    ensures '0' <= c <= '9'
  {
    "0123456789"[d]
  }

  /** Decimal digits of a natural number, most significant first. */
  function Decimal(n: nat): (r: string)
    ensures |r| >= 1
    ensures forall i :: 0 <= i < |r| ==> '0' <= r[i] <= '9'
  {
    if n < 10 then [Digit(n)] else Decimal(n / 10) + [Digit(n % 10)]
  }

  /** f"{i}" for an int: an optional minus sign, then the digits. */
  function IntText(i: int): (r: string)
    ensures |r| >= 1
    ensures forall k :: 0 <= k < |r| ==> r[k] == '-' || '0' <= r[k] <= '9'
  {
    if i < 0 then "-" + Decimal(-i) else Decimal(i)
  }
}
