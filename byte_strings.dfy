/**
 * Byte strings and the few standard-library string operations the core relies on:
 * ASCII lowering, `str::find`, `str::contains`, `str::replace` of one byte,
 * `str::is_char_boundary` and the decimal rendering of `format!("{}", n)`.
 * A Rust `&str` is modelled by its UTF-8 bytes.
 */
module ByteStrings {
  import opened Wrappers

  /** One byte of a UTF-8 encoded string. */
  type byte = b: int | 0 <= b < 256

  type Bytes = seq<byte>

  /** The bytes of a string literal made of ASCII characters (every literal of the core is);
      a character beyond one byte, which no such literal holds, becomes 0. */
  function Ascii(s: string): (r: Bytes)
    ensures |r| == |s|
  {
    seq(|s|, i requires 0 <= i < |s| => if s[i] as int < 256 then s[i] as int else 0)
  }

  // ---------------------------------------------------------------------------
  // Lowering

  predicate IsAsciiUpper(b: byte) {
    'A' as int <= b <= 'Z' as int
  }

  /** ASCII lowering of one byte; every other byte, in particular every byte of a
      multi-byte UTF-8 sequence, is left alone. */
  function LowerByte(b: byte): byte {
    if IsAsciiUpper(b) then b + 32 else b
  }

  function Lower(s: Bytes): (r: Bytes)
    ensures |r| == |s|
    ensures forall i :: 0 <= i < |s| ==> r[i] == LowerByte(s[i])
  {
    seq(|s|, i requires 0 <= i < |s| => LowerByte(s[i]))
  }

  /** A lowered string holds no upper-case ASCII byte, and lowering it again changes nothing. */
  lemma LowerIsLower(s: Bytes)
    ensures forall i :: 0 <= i < |s| ==> !IsAsciiUpper(Lower(s)[i])
    ensures Lower(Lower(s)) == Lower(s)
  {
  }

  // ---------------------------------------------------------------------------
  // Searching

  /** `p` occurs in `s` starting at byte `i`. */
  predicate OccursAt(s: Bytes, p: Bytes, i: nat) {
    i + |p| <= |s| && s[i..i + |p|] == p
  }

  /** The first occurrence of `p` in `s` at or after `from`. */
  function FindFrom(s: Bytes, p: Bytes, from: nat): (r: Option<nat>)
    decreases |s| - from
    ensures r.Some? ==> from <= r.value && OccursAt(s, p, r.value)
    ensures r.Some? ==> forall j :: from <= j < r.value ==> !OccursAt(s, p, j)
    ensures r.None? ==> forall j :: from <= j ==> !OccursAt(s, p, j)
  {
    if from + |p| > |s| then None
    else if OccursAt(s, p, from) then Some(from)
    else FindFrom(s, p, from + 1)
  }

  /** `str::find`: the byte index of the first occurrence of `p` in `s`. */
  function Find(s: Bytes, p: Bytes): (r: Option<nat>)
    ensures r.Some? ==> OccursAt(s, p, r.value) && forall j :: 0 <= j < r.value ==> !OccursAt(s, p, j)
    ensures r.None? ==> forall j :: 0 <= j ==> !OccursAt(s, p, j)
  {
    FindFrom(s, p, 0)
  }

  /** `str::contains`. */
  predicate Contains(s: Bytes, p: Bytes)
    ensures Contains(s, p) <==> exists i :: 0 <= i <= |s| && OccursAt(s, p, i)
  {
    Find(s, p).Some?
  }

  /** `phrases.iter().any(|p| s.contains(p))`. */
  function AnyContained(s: Bytes, phrases: seq<Bytes>): (r: bool)
    ensures r <==> exists k :: 0 <= k < |phrases| && Contains(s, phrases[k])
  {
    if phrases == [] then false
    else Contains(s, phrases[0]) || AnyContained(s, phrases[1..])
  }

  /** A pattern with an upper-case ASCII byte never occurs in a lowered string. */
  lemma {:induction false} UpperPatternNeverInLower(s: Bytes, p: Bytes, k: nat)
    requires k < |p| && IsAsciiUpper(p[k])
    ensures !Contains(Lower(s), p)
  {
  }

  /** `str::replace(a, b)` for two single-byte characters. */
  function ReplaceByte(s: Bytes, a: byte, b: byte): (r: Bytes)
    ensures |r| == |s|
    ensures forall i :: 0 <= i < |s| ==> r[i] == (if s[i] == a then b else s[i])
  {
    seq(|s|, i requires 0 <= i < |s| => if s[i] == a then b else s[i])
  }

  // ---------------------------------------------------------------------------
  // UTF-8 character boundaries

  /** A continuation byte `10xxxxxx` of a multi-byte UTF-8 sequence. */
  predicate IsContinuation(b: byte) {
    0x80 <= b < 0xC0
  }

  /** `str::is_char_boundary`: index 0, the end, or an index whose byte starts a character. */
  predicate IsCharBoundary(s: Bytes, i: nat) {
    i == 0 || i == |s| || (i < |s| && !IsContinuation(s[i]))
  }

  /** Lowering changes only ASCII bytes, so it keeps every character boundary where it was. */
  lemma LowerKeepsBoundaries(s: Bytes, i: nat)
    ensures IsCharBoundary(Lower(s), i) <==> IsCharBoundary(s, i)
  {
  }

  /** `&s[a..b]`: Rust panics (None here) unless both ends are character boundaries. */
  function Slice(s: Bytes, a: nat, b: nat): (r: Option<Bytes>)
    ensures r.Some? <==> a <= b <= |s| && IsCharBoundary(s, a) && IsCharBoundary(s, b)
    ensures r.Some? ==> r.value == s[a..b]
  {
    if a <= b <= |s| && IsCharBoundary(s, a) && IsCharBoundary(s, b) then Some(s[a..b]) else None
  }

  // ---------------------------------------------------------------------------
  // Decimal rendering

  predicate IsDigit(b: byte) {
    '0' as int <= b <= '9' as int
  }

  /** `format!("{}", n)` for an unsigned integer. */
  function Decimal(n: nat): (r: Bytes)
    ensures |r| >= 1
  {
    if n < 10 then [48 + n] else Decimal(n / 10) + [48 + n % 10]
  }

  /** The rendering is made of decimal digits. */
  lemma {:induction false} DecimalDigits(n: nat)
    ensures forall i :: 0 <= i < |Decimal(n)| ==> IsDigit(Decimal(n)[i])
  {
    if n >= 10 {
      DecimalDigits(n / 10);
    }
  }

  /** The value of a string read as decimal digits. */
  function DecimalValue(s: Bytes): int {
    if s == [] then 0
    else DecimalValue(s[..|s| - 1]) * 10 + (s[|s| - 1] as int - 48)
  }

  /** The rendering can be read back: the number in a marker is the number that was put there. */
  lemma {:induction false} DecimalRoundTrip(n: nat)
    ensures DecimalValue(Decimal(n)) == n
  {
    if n >= 10 {
      DecimalRoundTrip(n / 10);
      var d := Decimal(n);
      assert d[..|d| - 1] == Decimal(n / 10);
    }
  }

  /** A pattern holding a byte the text never holds does not occur in it. */
  lemma AbsentByteNotContained(s: Bytes, p: Bytes, k: nat)
    requires k < |p| && forall i :: 0 <= i < |s| ==> s[i] != p[k]
    ensures !Contains(s, p)
  {
  }

  /** No pattern of a list occurs in a text when each has a byte from a set the text avoids;
      `probe[j]` is where that byte sits in `patterns[j]`. */
  lemma NoPatternContained(s: Bytes, patterns: seq<Bytes>, probe: seq<nat>, absent: set<byte>)
    requires |probe| == |patterns|
    requires forall j :: 0 <= j < |patterns| ==> probe[j] < |patterns[j]| && patterns[j][probe[j]] in absent
    requires forall i :: 0 <= i < |s| ==> s[i] !in absent
    ensures forall j :: 0 <= j < |patterns| ==> !Contains(s, patterns[j])
  {
    forall j | 0 <= j < |patterns| ensures !Contains(s, patterns[j]) {
      AbsentByteNotContained(s, patterns[j], probe[j]);
    }
  }

  /** Occurrence, checked byte by byte. */
  lemma OccursAtByIndex(s: Bytes, p: Bytes, i: nat)
    requires i + |p| <= |s| && forall j :: 0 <= j < |p| ==> s[i + j] == p[j]
    ensures OccursAt(s, p, i)
  {
    assert s[i..i + |p|] == p;
  }

  /** Lowering works byte by byte, so it distributes over concatenation. */
  lemma LowerAppend(a: Bytes, b: Bytes)
    ensures Lower(a + b) == Lower(a) + Lower(b)
  {
  }

  /** An occurrence in either part of a concatenation is one in the whole, shifted past the
      first part when it is in the second. */
  lemma OccursInAppend(a: Bytes, b: Bytes, p: Bytes, i: nat)
    ensures OccursAt(a, p, i) ==> OccursAt(a + b, p, i)
    ensures OccursAt(b, p, i) ==> OccursAt(a + b, p, |a| + i)
  {
    if OccursAt(a, p, i) {
      assert (a + b)[i..i + |p|] == a[i..i + |p|];
    }
    if OccursAt(b, p, i) {
      assert (a + b)[|a| + i..|a| + i + |p|] == b[i..i + |p|];
    }
  }
}
