/**
 * The string operations the core relies on: the `trim` setter of the
 * schemas and the UTF-16 length their `maxlength` compares,
 * `String.prototype.startsWith`, the textual form of an id, and the
 * extension part of `path.parse`.
 */
module Text {
  import opened Common

  /**
   * Whitespace removed by `trim`: JavaScript's WhiteSpace (tab, vertical
   * tab, form feed, the byte order mark and the space separators of
   * category Zs) and LineTerminator (LF, CR, U+2028, U+2029).
   */
  predicate IsSpace(c: char)
  {
    || c == '\t' || c == '\n' || c == '\U{B}' || c == '\U{C}' || c == '\r' || c == ' '
    || c == '\U{A0}' || c == '\U{1680}' || '\U{2000}' <= c <= '\U{200A}'
    || c == '\U{2028}' || c == '\U{2029}' || c == '\U{202F}' || c == '\U{205F}'
    || c == '\U{3000}' || c == '\U{FEFF}'
  }

  /** The index of the first non-space at or after `i`, or `|s|`. */
  function SkipStart(s: string, i: nat): (j: nat)
    requires i <= |s|
    ensures i <= j <= |s|
    ensures j < |s| ==> !IsSpace(s[j])
    decreases |s| - i
  {
    if i < |s| && IsSpace(s[i]) then SkipStart(s, i + 1) else i
  }

  /** The end of `s[lo..j]` once its trailing spaces are dropped. */
  function SkipEnd(s: string, lo: nat, j: nat): (k: nat)
    requires lo <= j <= |s|
    ensures lo <= k <= j
    ensures k > lo ==> !IsSpace(s[k - 1])
  {
    if j > lo && IsSpace(s[j - 1]) then SkipEnd(s, lo, j - 1) else j
  }

  /** `SkipStart` passes over spaces only. */
  lemma {:induction false} SkipStartSpaces(s: string, i: nat)
    requires i <= |s|
    ensures forall m :: i <= m < SkipStart(s, i) ==> IsSpace(s[m])
    decreases |s| - i
  {
    if i < |s| && IsSpace(s[i]) {
      SkipStartSpaces(s, i + 1);
    }
  }

  /** `SkipEnd` passes over spaces only. */
  lemma {:induction false} SkipEndSpaces(s: string, lo: nat, j: nat)
    requires lo <= j <= |s|
    ensures forall m :: SkipEnd(s, lo, j) <= m < j ==> IsSpace(s[m])
  {
    if j > lo && IsSpace(s[j - 1]) {
      SkipEndSpaces(s, lo, j - 1);
    }
  }

  /** `SkipEnd` never passes a non-space. */
  lemma {:induction false} SkipEndStops(s: string, lo: nat, j: nat, m: nat)
    requires lo <= m < j <= |s| && !IsSpace(s[m])
    ensures SkipEnd(s, lo, j) > m
  {
    if j - 1 > m {
      SkipEndStops(s, lo, j - 1, m);
    }
  }

  /** Neither end of `s` is whitespace. */
  predicate Trimmed(s: string)
  {
    s != [] ==> !IsSpace(s[0]) && !IsSpace(s[|s| - 1])
  }

  /**
   * `trim`: the string without leading and trailing whitespace, that is, a
   * slice of `s` with no whitespace at either end and only whitespace cut
   * off on either side.
   */
  function Trim(s: string): (r: string)
    ensures |r| <= |s|
    ensures Trimmed(r)
    ensures exists i, j :: 0 <= i <= j <= |s| && r == s[i..j]
              && (forall m :: 0 <= m < i ==> IsSpace(s[m]))
              && (forall m :: j <= m < |s| ==> IsSpace(s[m]))
  {
    var i := SkipStart(s, 0);
    var j := SkipEnd(s, i, |s|);
    SkipStartSpaces(s, 0);
    SkipEndSpaces(s, i, |s|);
    s[i..j]
  }

  /**
   * The slice `Trim` promises is unique: a slice with no whitespace at
   * either end and only whitespace around it is the trimmed string.
   */
  lemma TrimUnique(s: string, i: nat, j: nat)
    requires i <= j <= |s| && Trimmed(s[i..j])
    requires forall m :: 0 <= m < i ==> IsSpace(s[m])
    requires forall m :: j <= m < |s| ==> IsSpace(s[m])
    ensures Trim(s) == s[i..j]
  {
    if i == j {
      TrimBlank(s);
    } else {
      assert !IsSpace(s[i]) && !IsSpace(s[j - 1]);
      SkipStartSpaces(s, 0);
      var k := SkipStart(s, 0);
      assert k == i;
      SkipEndSpaces(s, i, |s|);
      var l := SkipEnd(s, i, |s|);
      SkipEndStops(s, i, |s|, j - 1);
      assert l == j;
    }
  }

  /** Spaces on both sides of a word are cut, whichever kind they are. */
  lemma TrimExamples()
    ensures Trim(" Web ") == "Web"
    ensures Trim("\U{C}") == ""
    ensures Trim("\U{A0}a\U{FEFF}") == "a"
  {
    TrimUnique(" Web ", 1, 4);
    TrimUnique("\U{C}", 0, 0);
    TrimUnique("\U{A0}a\U{FEFF}", 1, 2);
  }

  /**
   * The length JavaScript reports for a string, in UTF-16 code units: a
   * character outside the Basic Multilingual Plane takes two.
   */
  function Utf16Length(s: string): (n: nat)
    ensures |s| <= n <= 2 * |s|
    ensures n == |s| <==> forall i :: 0 <= i < |s| ==> s[i] as int < 0x1_0000
    ensures n == 2 * |s| <==> forall i :: 0 <= i < |s| ==> s[i] as int >= 0x1_0000
  {
    if s == [] then 0 else Utf16Length(s[..|s| - 1]) + (if s[|s| - 1] as int >= 0x1_0000 then 2 else 1)
  }

  /** Within the Basic Multilingual Plane, the reported length is the number of characters. */
  lemma {:induction false} Utf16LengthBmp(s: string)
    requires forall i :: 0 <= i < |s| ==> s[i] as int < 0x1_0000
    ensures Utf16Length(s) == |s|
  {
    if s != [] {
      Utf16LengthBmp(s[..|s| - 1]);
    }
  }

  /** The reported lengths of two strings add up when they are joined. */
  lemma {:induction false} Utf16LengthAppend(s: string, t: string)
    ensures Utf16Length(s + t) == Utf16Length(s) + Utf16Length(t)
  {
    if t != [] {
      var u := t[..|t| - 1];
      assert (s + t)[..|s + t| - 1] == s + u;
      assert (s + t)[|s + t| - 1] == t[|t| - 1];
      Utf16LengthAppend(s, u);
    } else {
      assert s + t == s;
    }
  }

  /** Outside the Basic Multilingual Plane every character counts two. */
  lemma {:induction false} Utf16LengthAstral(s: string)
    requires forall i :: 0 <= i < |s| ==> s[i] as int >= 0x1_0000
    ensures Utf16Length(s) == 2 * |s|
  {
    if s != [] {
      Utf16LengthAstral(s[..|s| - 1]);
    }
  }

  /** `trim` yields the empty string exactly for an all-whitespace input. */
  lemma TrimBlank(s: string)
    ensures (forall i :: 0 <= i < |s| ==> IsSpace(s[i])) <==> Trim(s) == []
  {
    var i := SkipStart(s, 0);
    SkipStartSpaces(s, 0);
    if i < |s| {
      SkipEndStops(s, i, |s|, i);
      assert Trim(s)[0] == s[i];
    }
  }

  /** A string with no outer whitespace is left as it is. */
  lemma TrimFixed(s: string)
    requires Trimmed(s)
    ensures Trim(s) == s
  {
    if s != [] {
      assert SkipStart(s, 0) == 0;
      assert SkipEnd(s, 0, |s|) == |s|;
      assert s[0..|s|] == s;
    }
  }

  /** The strings `trim` leaves alone are exactly those without outer whitespace. */
  lemma TrimmedIsFixedPoint(s: string)
    ensures Trimmed(s) <==> Trim(s) == s
  {
    if Trimmed(s) {
      TrimFixed(s);
    }
  }

  /** Trimming twice is trimming once. */
  lemma TrimIdempotent(s: string)
    ensures Trim(Trim(s)) == Trim(s)
  {
    TrimFixed(Trim(s));
  }

  predicate StartsWith(s: string, prefix: string)
  {
    |prefix| <= |s| && s[..|prefix|] == prefix
  }

  predicate AllDigits(s: string)
  {
    forall i :: 0 <= i < |s| ==> '0' <= s[i] <= '9'
  }

  function DigitChar(d: nat): (c: char)
    requires d < 10
    ensures '0' <= c <= '9'
  {
    ('0' as int + d) as char
  }

  /** The textual form of an id (decimal digits, standing for the hex of an ObjectId). */
  function Decimal(n: nat): (s: string)
    ensures |s| >= 1 && AllDigits(s)
  {
    if n < 10 then [DigitChar(n)] else Decimal(n / 10) + [DigitChar(n % 10)]
  }

  function ParseDecimal(s: string): nat
    requires AllDigits(s)
  {
    if s == [] then 0
    else 10 * ParseDecimal(s[..|s| - 1]) + (s[|s| - 1] as int - '0' as int)
  }

  lemma {:induction false} DecimalRoundTrip(n: nat)
    ensures ParseDecimal(Decimal(n)) == n
  {
    if n >= 10 {
      var s := Decimal(n);
      assert s[..|s| - 1] == Decimal(n / 10);
      DecimalRoundTrip(n / 10);
    }
  }

  /** Distinct ids have distinct textual forms. */
  lemma DecimalInjective(a: nat, b: nat)
    requires Decimal(a) == Decimal(b)
    ensures a == b
  {
    DecimalRoundTrip(a);
    DecimalRoundTrip(b);
  }

  /** The index of the last '.' of `s`, if any. */
  function LastDot(s: string): (r: Option<nat>)
    ensures r.Some? ==> r.value < |s| && s[r.value] == '.' && forall j :: r.value < j < |s| ==> s[j] != '.'
    ensures r.None? ==> forall j :: 0 <= j < |s| ==> s[j] != '.'
  {
    if s == [] then None
    else if s[|s| - 1] == '.' then Some(|s| - 1)
    else LastDot(s[..|s| - 1])
  }

  /**
   * `path.parse(name).ext` for a name without directory separators: the
   * suffix from the last '.', or "" when there is no '.', when the last '.'
   * is the first character (".bashrc"), or for "..".
   */
  function Ext(name: string): (e: string)
    ensures |e| <= |name| && e == name[|name| - |e|..]
    ensures e == [] || (e[0] == '.' && forall j :: 0 < j < |e| ==> e[j] != '.')
    ensures e != [] <==> name != ".." && exists i :: 0 < i < |name| && name[i] == '.'
  {
    match LastDot(name)
    case None => ""
    case Some(i) => if i == 0 || name == ".." then "" else name[i..]
  }

  /** A '.' with no later '.' is the last one. */
  lemma {:induction false} LastDotAt(s: string, i: nat)
    requires i < |s| && s[i] == '.'
    requires forall j :: i < j < |s| ==> s[j] != '.'
    ensures LastDot(s) == Some(i)
  {
    if i < |s| - 1 {
      LastDotAt(s[..|s| - 1], i);
    }
  }

  lemma ExtExamples()
    ensures Ext("a.jpg") == ".jpg"
    ensures Ext("a.b.c") == ".c"
    ensures Ext("shot.") == "."
  {
    LastDotAt("a.jpg", 1);
    LastDotAt("a.b.c", 3);
    LastDotAt("shot.", 4);
  }

  lemma ExtEmptyExamples()
    ensures Ext("abc") == ""
    ensures Ext(".rc") == ""
    ensures Ext("..") == ""
  {
    assert "abc"[..2] == "ab" && "ab"[..1] == "a" && "a"[..0] == "";
    assert ".rc"[..2] == ".r" && ".r"[..1] == ".";
  }
}
