/**
 * Text helpers shared by the model: Rust's `char::is_whitespace`, `str::trim`,
 * `str::find`, `str::split`, `usize` parsing and decimal printing, and the
 * ordering Rust's `String` uses (code point by code point).
 */
module Strings {
  import opened Wrappers

  /** Unicode White_Space: what `char::is_whitespace` and the regex class `\s` accept. */
  predicate IsWhitespace(c: char)
  {
    ('\t' <= c <= '\r') || c == ' ' || c == '\U{0085}' || c == '\U{00A0}' || c == '\U{1680}'
    || ('\U{2000}' <= c <= '\U{200A}') || c == '\U{2028}' || c == '\U{2029}'
    || c == '\U{202F}' || c == '\U{205F}' || c == '\U{3000}'
  }

  predicate IsAsciiDigit(c: char) { '0' <= c <= '9' }

  /** The ten code points from `zero` on. */
  predicate DigitBlock(n: int, zero: int) { zero <= n < zero + 10 }

  /**
   * Unicode general category Nd, what the regex class `\d` accepts: the 68
   * blocks of ten decimal digits of Unicode 15.0, each given by its zero.
   */
  predicate IsDecimalDigit(c: char)
  {
    var n := c as int;
    DigitBlock(n, 0x30) || DigitBlock(n, 0x660) || DigitBlock(n, 0x6F0) || DigitBlock(n, 0x7C0)
    || DigitBlock(n, 0x966) || DigitBlock(n, 0x9E6) || DigitBlock(n, 0xA66) || DigitBlock(n, 0xAE6)
    || DigitBlock(n, 0xB66) || DigitBlock(n, 0xBE6) || DigitBlock(n, 0xC66) || DigitBlock(n, 0xCE6)
    || DigitBlock(n, 0xD66) || DigitBlock(n, 0xDE6) || DigitBlock(n, 0xE50) || DigitBlock(n, 0xED0)
    || DigitBlock(n, 0xF20) || DigitBlock(n, 0x1040) || DigitBlock(n, 0x1090) || DigitBlock(n, 0x17E0)
    || DigitBlock(n, 0x1810) || DigitBlock(n, 0x1946) || DigitBlock(n, 0x19D0) || DigitBlock(n, 0x1A80)
    || DigitBlock(n, 0x1A90) || DigitBlock(n, 0x1B50) || DigitBlock(n, 0x1BB0) || DigitBlock(n, 0x1C40)
    || DigitBlock(n, 0x1C50) || DigitBlock(n, 0xA620) || DigitBlock(n, 0xA8D0) || DigitBlock(n, 0xA900)
    || DigitBlock(n, 0xA9D0) || DigitBlock(n, 0xA9F0) || DigitBlock(n, 0xAA50) || DigitBlock(n, 0xABF0)
    || DigitBlock(n, 0xFF10) || DigitBlock(n, 0x104A0) || DigitBlock(n, 0x10D30) || DigitBlock(n, 0x11066)
    || DigitBlock(n, 0x110F0) || DigitBlock(n, 0x11136) || DigitBlock(n, 0x111D0) || DigitBlock(n, 0x112F0)
    || DigitBlock(n, 0x11450) || DigitBlock(n, 0x114D0) || DigitBlock(n, 0x11650) || DigitBlock(n, 0x116C0)
    || DigitBlock(n, 0x11730) || DigitBlock(n, 0x118E0) || DigitBlock(n, 0x11950) || DigitBlock(n, 0x11C50)
    || DigitBlock(n, 0x11D50) || DigitBlock(n, 0x11DA0) || DigitBlock(n, 0x11F50) || DigitBlock(n, 0x16A60)
    || DigitBlock(n, 0x16AC0) || DigitBlock(n, 0x16B50) || DigitBlock(n, 0x1D7CE) || DigitBlock(n, 0x1D7D8)
    || DigitBlock(n, 0x1D7E2) || DigitBlock(n, 0x1D7EC) || DigitBlock(n, 0x1D7F6) || DigitBlock(n, 0x1E140)
    || DigitBlock(n, 0x1E2F0) || DigitBlock(n, 0x1E4F0) || DigitBlock(n, 0x1E950) || DigitBlock(n, 0x1FBF0)
  }

  predicate AllDecimalDigits(s: string) { forall i :: 0 <= i < |s| ==> IsDecimalDigit(s[i]) }

  /** Below U+0660 the decimal digits are exactly the ASCII ones. */
  lemma AsciiDecimalDigits(c: char)
    requires c as int < 0x660
    ensures IsDecimalDigit(c) <==> IsAsciiDigit(c)
  {
  }

  predicate AllDigits(s: string) { forall i :: 0 <= i < |s| ==> IsAsciiDigit(s[i]) }

  predicate AllWhitespace(s: string) { forall i :: 0 <= i < |s| ==> IsWhitespace(s[i]) }

  predicate StartsWith(s: string, p: string) { |p| <= |s| && s[..|p|] == p }

  predicate EndsWith(s: string, p: string) { |p| <= |s| && s[|s| - |p|..] == p }

  /** `str::trim_start`: drops the leading white space and nothing else. */
  function TrimStart(s: string): (r: string)
    ensures |r| <= |s|
    ensures r == [] || !IsWhitespace(r[0])
  {
    if s != [] && IsWhitespace(s[0]) then TrimStart(s[1..]) else s
  }

  /** What `TrimStart` keeps is a suffix of its input. */
  lemma {:induction false} TrimStartSuffix(s: string)
    ensures TrimStart(s) == s[|s| - |TrimStart(s)|..]
  {
    if s != [] && IsWhitespace(s[0]) {
      TrimStartSuffix(s[1..]);
    }
  }

  /** What `TrimStart` drops is white space. */
  lemma {:induction false} TrimStartDrops(s: string)
    ensures AllWhitespace(s[..|s| - |TrimStart(s)|])
  {
    if s != [] && IsWhitespace(s[0]) {
      TrimStartDrops(s[1..]);
      var n := |s| - |TrimStart(s)|;
      assert s[..n] == [s[0]] + s[1..][..n - 1];
    }
  }

  /** `str::trim_end`: drops the trailing white space and nothing else. */
  function TrimEnd(s: string): (r: string)
    ensures |r| <= |s|
    ensures r == [] || !IsWhitespace(r[|r| - 1])
  {
    if s != [] && IsWhitespace(s[|s| - 1]) then TrimEnd(s[..|s| - 1]) else s
  }

  /** What `TrimEnd` keeps is a prefix of its input. */
  lemma {:induction false} TrimEndPrefix(s: string)
    ensures TrimEnd(s) == s[..|TrimEnd(s)|]
  {
    if s != [] && IsWhitespace(s[|s| - 1]) {
      TrimEndPrefix(s[..|s| - 1]);
    }
  }

  /** What `TrimEnd` drops is white space. */
  lemma {:induction false} TrimEndDrops(s: string)
    ensures AllWhitespace(s[|TrimEnd(s)|..])
  {
    if s != [] && IsWhitespace(s[|s| - 1]) {
      TrimEndDrops(s[..|s| - 1]);
      var n := |TrimEnd(s)|;
      assert s[n..] == s[..|s| - 1][n..] + [s[|s| - 1]];
    }
  }

  /** `str::trim`. */
  function Trim(s: string): string
  {
    TrimEnd(TrimStart(s))
  }

  /** A string trims to nothing exactly when all of it is white space. */
  lemma TrimEmptyIffBlank(s: string)
    ensures Trim(s) == [] <==> AllWhitespace(s)
  {
    var t := TrimStart(s);
    TrimStartDrops(s);
    TrimEndDrops(t);
    TrimStartSuffix(s);
    TrimEndPrefix(t);
    if Trim(s) == [] {
      assert t[0..] == t;
      assert s[..|s|] == s;
    } else {
      assert !IsWhitespace(t[0]);
      assert s[|s| - |t|] == t[0];
    }
  }

  /** A trimmed text starts and ends with something that is not white space. */
  lemma TrimEnds(s: string)
    requires Trim(s) != []
    ensures !IsWhitespace(Trim(s)[0]) && !IsWhitespace(Trim(s)[|Trim(s)| - 1])
  {
    var t := TrimStart(s);
    TrimEndPrefix(t);
    assert Trim(s)[0] == t[0];
  }

  /** Text that already starts and ends with a non-white-space character is its own trim. */
  lemma TrimFixed(s: string)
    requires s != [] && !IsWhitespace(s[0]) && !IsWhitespace(s[|s| - 1])
    ensures Trim(s) == s
  {
  }

  /** One space on each side is trimmed off. */
  lemma TrimSpaced(s: string)
    requires s != [] && !IsWhitespace(s[0]) && !IsWhitespace(s[|s| - 1])
    ensures Trim(" " + s + " ") == s
  {
    var t := " " + s + " ";
    var u := s + " ";
    assert t[1..] == u;
    assert TrimStart(t) == TrimStart(u);
    assert u[0] == s[0];
    assert TrimStart(u) == u;
    assert u[..|u| - 1] == s;
    assert TrimEnd(u) == TrimEnd(s);
  }

  /** Trimming twice is trimming once. */
  lemma TrimTwice(s: string)
    ensures Trim(Trim(s)) == Trim(s)
  {
    var t := Trim(s);
    if t != [] {
      var u := TrimStart(s);
      TrimEndPrefix(u);
      assert t[0] == u[0];
      TrimFixed(t);
    }
  }

  /** `str::trim_matches(c)`: drops every leading and trailing `c`. */
  function TrimChar(s: string, c: char): (r: string)
    ensures |r| <= |s|
    ensures r != [] ==> r[0] != c && r[|r| - 1] != c
    decreases |s|
  {
    if s == [] then s
    else if s[0] == c then TrimChar(s[1..], c)
    else if s[|s| - 1] == c then TrimChar(s[..|s| - 1], c)
    else s
  }

  /** Whether `c` occurs in `x`, by a walk from the front. */
  function HasChar(x: string, c: char): bool
  {
    x != [] && (x[0] == c || HasChar(x[1..], c))
  }

  lemma {:induction false} HasCharIn(x: string, c: char)
    ensures HasChar(x, c) <==> c in x
  {
    if x != [] {
      HasCharIn(x[1..], c);
      assert x == [x[0]] + x[1..];
    }
  }

  /** `d` occurs in `s` at offset `j`. */
  predicate OccursAt(s: string, d: string, j: int)
  {
    0 <= j && j + |d| <= |s| && StartsWith(s[j..], d)
  }

  /** `str::find` with a string pattern: the leftmost occurrence. */
  function IndexOf(s: string, d: string): (r: Option<nat>)
    ensures r.Some? ==> OccursAt(s, d, r.value)
    ensures r.Some? ==> forall j :: 0 <= j < r.value ==> !OccursAt(s, d, j)
    ensures r.None? ==> forall j :: 0 <= j <= |s| ==> !OccursAt(s, d, j)
  {
    if StartsWith(s, d) then
      assert s[0..] == s;
      Some(0)
    else if s == [] then
      None
    else
      var rest := IndexOf(s[1..], d);
      ShiftOccurs(s, d);
      if rest.Some? then Some(rest.value + 1) else None
  }

  lemma ShiftOccurs(s: string, d: string)
    requires s != []
    ensures forall j :: 1 <= j ==> (OccursAt(s, d, j) <==> OccursAt(s[1..], d, j - 1))
    ensures !StartsWith(s, d) ==> !OccursAt(s, d, 0)
  {
    forall j | 1 <= j ensures OccursAt(s, d, j) <==> OccursAt(s[1..], d, j - 1) {
      if j <= |s| { assert s[1..][j - 1..] == s[j..]; }
    }
    assert s[0..] == s;
  }

  predicate Contains(s: string, d: string) { IndexOf(s, d).Some? }

  /** `str::find` with a char pattern. */
  function IndexOfChar(s: string, c: char): (r: Option<nat>)
    ensures r.Some? ==> r.value < |s| && s[r.value] == c && c !in s[..r.value]
    ensures r.None? <==> c !in s
  {
    if s == [] then None
    else if s[0] == c then Some(0)
    else
      var rest := IndexOfChar(s[1..], c);
      assert s == [s[0]] + s[1..];
      if rest.Some? then
        assert s[..rest.value + 1] == [s[0]] + s[1..][..rest.value];
        Some(rest.value + 1)
      else None
  }

  /**
   * `str::split` with a string pattern. A non-empty delimiter cuts at its
   * leftmost non-overlapping occurrences, scanning left to right; the empty
   * delimiter matches at every char boundary, so the pieces are "", each
   * char, and "".
   */
  function Split(s: string, d: string): seq<string>
    decreases |s|
  {
    if d == [] then [""] + SplitChars(s) + [""]
    else if StartsWith(s, d) then [""] + Split(s[|d|..], d)
    else if s == [] then [""]
    else
      var r := Split(s[1..], d);
      if r == [] then [[s[0]]] else [[s[0]] + r[0]] + r[1..]
  }

  function SplitChars(s: string): (r: seq<string>)
    ensures |r| == |s| && forall i :: 0 <= i < |s| ==> r[i] == [s[i]]
  {
    if s == [] then [] else [[s[0]]] + SplitChars(s[1..])
  }

  /** `[T]::join`: the pieces with `d` between consecutive ones. */
  function Join(parts: seq<string>, d: string): string
  {
    if parts == [] then ""
    else if |parts| == 1 then parts[0]
    else parts[0] + d + Join(parts[1..], d)
  }

  function Concat(parts: seq<string>): string
  {
    if parts == [] then "" else parts[0] + Concat(parts[1..])
  }

  lemma {:induction false} SplitNonEmpty(s: string, d: string)
    ensures |Split(s, d)| >= 1
    decreases |s|
  {
    if d != [] && StartsWith(s, d) { SplitNonEmpty(s[|d|..], d); }
    else if d != [] && s != [] { SplitNonEmpty(s[1..], d); }
  }

  lemma {:induction false} ConcatChars(s: string)
    ensures Concat(SplitChars(s)) == s
  {
    if s != [] {
      ConcatChars(s[1..]);
      assert SplitChars(s) == [[s[0]]] + SplitChars(s[1..]);
      assert SplitChars(s)[1..] == SplitChars(s[1..]);
    }
  }

  lemma {:induction false} JoinEmpty(parts: seq<string>)
    ensures Join(parts, "") == Concat(parts)
  {
    if |parts| > 1 { JoinEmpty(parts[1..]); }
  }

  lemma {:induction false} JoinPrepend(p: string, parts: seq<string>, d: string)
    requires parts != []
    ensures Join([p] + parts, d) == p + d + Join(parts, d)
  {
    assert ([p] + parts)[1..] == parts;
  }

  lemma {:induction false} JoinExtendHead(c: string, parts: seq<string>, d: string)
    requires parts != []
    ensures Join([c + parts[0]] + parts[1..], d) == c + Join(parts, d)
  {
    var q := [c + parts[0]] + parts[1..];
    if |parts| > 1 {
      assert q[1..] == parts[1..];
    }
  }

  /** Joining the pieces of a split with the same delimiter gives the text back. */
  lemma {:induction false} JoinSplit(s: string, d: string)
    ensures Join(Split(s, d), d) == s
    decreases |s|
  {
    if d == [] {
      JoinSplitEmpty(s);
    } else if StartsWith(s, d) {
      var rest := s[|d|..];
      JoinSplit(rest, d);
      SplitNonEmpty(rest, d);
      JoinPrepend("", Split(rest, d), d);
      assert Split(s, d) == [""] + Split(rest, d);
      assert s == s[..|d|] + rest;
    } else if s != [] {
      var r := Split(s[1..], d);
      JoinSplit(s[1..], d);
      SplitNonEmpty(s[1..], d);
      JoinExtendHead([s[0]], r, d);
      assert Split(s, d) == [[s[0]] + r[0]] + r[1..];
      assert s == [s[0]] + s[1..];
    }
  }

  lemma JoinSplitEmpty(s: string)
    ensures Join(Split(s, ""), "") == s
  {
    var mid := SplitChars(s);
    assert Split(s, "") == [""] + mid + [""];
    JoinEmpty([""] + mid + [""]);
    ConcatAppend([""] + mid, [""]);
    ConcatAppend([""], mid);
    ConcatChars(s);
    assert Concat([""]) == "";
  }

  lemma {:induction false} ConcatAppend(a: seq<string>, b: seq<string>)
    ensures Concat(a + b) == Concat(a) + Concat(b)
  {
    if a == [] {
      assert a + b == b;
    } else {
      assert (a + b)[1..] == a[1..] + b;
      ConcatAppend(a[1..], b);
    }
  }

  // ---- the order of Rust's `String` (lexicographic on code points) ----

  predicate StrLe(a: string, b: string)
    decreases |a|
  {
    a == [] || (b != [] && (a[0] < b[0] || (a[0] == b[0] && StrLe(a[1..], b[1..]))))
  }

  lemma {:induction false} StrLeAntisym(a: string, b: string)
    requires StrLe(a, b) && StrLe(b, a)
    ensures a == b
    decreases |a|
  {
    if a != [] && b != [] && a[0] == b[0] { StrLeAntisym(a[1..], b[1..]); }
  }

  lemma {:induction false} StrLeTotal(a: string, b: string)
    ensures StrLe(a, b) || StrLe(b, a)
    decreases |a|
  {
    if a != [] && b != [] && a[0] == b[0] { StrLeTotal(a[1..], b[1..]); }
  }

  lemma {:induction false} StrLeTrans(a: string, b: string, c: string)
    requires StrLe(a, b) && StrLe(b, c)
    ensures StrLe(a, c)
    decreases |a|
  {
    if a != [] && b != [] && c != [] && a[0] == b[0] && b[0] == c[0] {
      StrLeTrans(a[1..], b[1..], c[1..]);
    }
  }

  lemma StrLeAntisymAll()
    ensures forall a, b :: StrLe(a, b) && StrLe(b, a) ==> a == b
  {
    forall a, b | StrLe(a, b) && StrLe(b, a) ensures a == b { StrLeAntisym(a, b); }
  }

  lemma {:induction false} MinimumOf(ks: set<string>) returns (m: string)
    requires ks != {}
    ensures m in ks && forall k :: k in ks ==> StrLe(m, k)
    decreases |ks|
  {
    var x :| x in ks;
    if ks == {x} {
      m := x;
      StrLeTotal(x, x);
    } else {
      var m' := MinimumOf(ks - {x});
      StrLeTotal(m', x);
      if StrLe(m', x) {
        m := m';
      } else {
        m := x;
        forall k | k in ks ensures StrLe(x, k) {
          if k != x { StrLeTrans(x, m', k); } else { StrLeTotal(x, x); }
        }
      }
    }
  }

  lemma MinimumExists(ks: set<string>)
    requires ks != {}
    ensures exists m :: m in ks && forall k :: k in ks ==> StrLe(m, k)
  {
    var m := MinimumOf(ks);
  }

  /** The keys of a `BTreeMap<String, _>` in iteration order: ascending, each once. */
  function SortedKeys(ks: set<string>): (r: seq<string>)
    ensures |r| == |ks|
    ensures forall k :: k in ks <==> k in r
    decreases |ks|
  {
    if ks == {} then []
    else
      MinimumExists(ks);
      StrLeAntisymAll();
      var m :| m in ks && forall k :: k in ks ==> StrLe(m, k);
      [m] + SortedKeys(ks - {m})
  }

  /** Each key comes once. */
  lemma {:induction false} SortedKeysDistinct(ks: set<string>)
    ensures forall i, j :: 0 <= i < j < |SortedKeys(ks)| ==> SortedKeys(ks)[i] != SortedKeys(ks)[j]
    decreases |ks|
  {
    if ks != {} {
      var r := SortedKeys(ks);
      var m := r[0];
      assert r[1..] == SortedKeys(ks - {m});
      SortedKeysDistinct(ks - {m});
      forall i, j | 0 <= i < j < |r| ensures r[i] != r[j] {
        if i > 0 {
          assert r[i] == r[1..][i - 1] && r[j] == r[1..][j - 1];
        } else {
          assert r[j] in r[1..];
        }
      }
    }
  }

  /** The keys come in ascending order. */
  lemma {:induction false} SortedKeysAscending(ks: set<string>)
    ensures forall i, j :: 0 <= i < j < |SortedKeys(ks)| ==> StrLe(SortedKeys(ks)[i], SortedKeys(ks)[j])
    decreases |ks|
  {
    if ks != {} {
      var r := SortedKeys(ks);
      var m := r[0];
      assert m in ks && forall k :: k in ks ==> StrLe(m, k);
      assert r[1..] == SortedKeys(ks - {m});
      SortedKeysAscending(ks - {m});
      forall i, j | 0 <= i < j < |r| ensures StrLe(r[i], r[j]) {
        if i > 0 {
          assert r[i] == r[1..][i - 1] && r[j] == r[1..][j - 1];
        } else {
          assert r[j] in ks;
        }
      }
    }
  }

  // ---- decimal digits ----

  function DigitChar(d: nat): char
    requires d < 10
  {
    ('0' as int + d) as char
  }

  function DigitValue(c: char): nat
    requires IsAsciiDigit(c)
  {
    (c as int) - ('0' as int)
  }

  /** Base-10 text of `n` (what `Display` prints for an unsigned integer). */
  function NatToDecimal(n: nat): (r: string)
    ensures |r| >= 1 && AllDigits(r)
    ensures |r| > 1 ==> r[0] != '0'
  {
    if n < 10 then [DigitChar(n)] else NatToDecimal(n / 10) + [DigitChar(n % 10)]
  }

  /** Base-10 text of an integer, with a leading '-' when negative. */
  function IntToDecimal(i: int): string
  {
    if i < 0 then "-" + NatToDecimal(-i) else NatToDecimal(i)
  }

  /** The value a run of ASCII digits denotes. */
  function DecimalValue(s: string): nat
    requires AllDigits(s)
  {
    if s == [] then 0 else DecimalValue(s[..|s| - 1]) * 10 + DigitValue(s[|s| - 1])
  }

  lemma {:induction false} DecimalRoundTrip(n: nat)
    ensures DecimalValue(NatToDecimal(n)) == n
  {
    if n >= 10 {
      DecimalRoundTrip(n / 10);
      var r := NatToDecimal(n);
      assert r[..|r| - 1] == NatToDecimal(n / 10);
    }
  }

  /** usize::MAX on a 64-bit target. */
  const USIZE_MAX: nat := 0xFFFF_FFFF_FFFF_FFFF

  /**
   * `str::parse::<usize>()`: an optional '+', then one or more ASCII digits,
   * with a value that fits in a usize.
   */
  function ParseUsize(s: string): (r: Option<nat>)
    ensures r.Some? ==> r.value <= USIZE_MAX
  {
    var body := if |s| > 0 && s[0] == '+' then s[1..] else s;
    if body != [] && AllDigits(body) && DecimalValue(body) <= USIZE_MAX then Some(DecimalValue(body))
    else None
  }

  /** Printing a usize and parsing it back gives the same number. */
  lemma ParseUsizePrinted(n: nat)
    requires n <= USIZE_MAX
    ensures ParseUsize(NatToDecimal(n)) == Some(n)
  {
    DecimalRoundTrip(n);
  }

  /** Text with a character other than '+' and the ASCII digits never parses. */
  lemma ParseUsizeRejects(s: string, i: nat)
    requires i < |s| && !IsAsciiDigit(s[i]) && !(i == 0 && s[i] == '+')
    ensures ParseUsize(s) == None
  {
    if |s| > 0 && s[0] == '+' { assert s[1..][i - 1] == s[i]; }
  }
}
