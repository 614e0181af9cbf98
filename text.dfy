/** The Python string operations the core relies on, written out over `seq<char>`:
    `str.strip`, `str.split`/`str.join`, `str.rfind`, `posixpath.basename`, slicing,
    `in` on strings, ASCII case folding for suffix tests and decimal formatting. */
module Text {
  import opened Seqs

  /** The code points `str.isspace` accepts, as eleven inclusive ranges numbered 0 to 10. */
  predicate InSpaceRange(c: char, i: nat) {
    match i
    case 0 => '\t' <= c <= '\r'
    case 1 => '\U{1C}' <= c <= '\U{1F}'
    case 2 => c == ' '
    case 3 => c == '\U{85}'
    case 4 => c == '\U{A0}'
    case 5 => c == '\U{1680}'
    case 6 => '\U{2000}' <= c <= '\U{200A}'
    case 7 => '\U{2028}' <= c <= '\U{2029}'
    case 8 => c == '\U{202F}'
    case 9 => c == '\U{205F}'
    case 10 => c == '\U{3000}'
    case _ => false
  }

  /** `c` lies in one of the ranges numbered `i` and above. */
  predicate InSpaceRangeFrom(c: char, i: nat)
    decreases 11 - i
  {
    i < 11 && (InSpaceRange(c, i) || InSpaceRangeFrom(c, i + 1))
  }

  /** Python's `str.isspace` for one character: the characters `str.strip()` removes. */
  predicate IsSpace(c: char) {
    InSpaceRangeFrom(c, 0)
  }

  /** Neither the first nor the last character is whitespace. */
  predicate IsStripped(s: string) {
    s == [] || (!IsSpace(s[0]) && !IsSpace(s[|s| - 1]))
  }

  /** How many whitespace characters `s` starts with: where `s.strip()` begins. */
  function LeadingSpaces(s: string): (n: nat)
    ensures n <= |s|
    ensures n < |s| ==> !IsSpace(s[n])
  {
    if s != [] && IsSpace(s[0]) then 1 + LeadingSpaces(s[1..]) else 0
  }

  /** Everything before that point is whitespace. */
  lemma {:induction false} LeadingSpacesAreSpace(s: string)
    ensures forall k :: 0 <= k < LeadingSpaces(s) ==> IsSpace(s[k])
  {
    if s != [] && IsSpace(s[0]) {
      LeadingSpacesAreSpace(s[1..]);
      assert forall k :: 1 <= k < |s| ==> s[k] == s[1..][k - 1];
    }
  }

  /** `s.strip()`: drops whitespace from both ends; never longer than `s`, and with
      no outer whitespace. */
  function Strip(s: string): (r: string)
    ensures |r| <= |s| && IsStripped(r)
    decreases |s|
  {
    if s != [] && IsSpace(s[0]) then Strip(s[1..])
    else if s != [] && IsSpace(s[|s| - 1]) then Strip(s[..|s| - 1])
    else s
  }

  /** What `strip` keeps is the run of characters of `s` that starts after its leading
      whitespace. */
  lemma {:induction false} StripKeeps(s: string)
    ensures var r := Strip(s); var i := LeadingSpaces(s);
            i + |r| <= |s| && forall k :: 0 <= k < |r| ==> r[k] == s[i + k]
    decreases |s|
  {
    var r := Strip(s);
    if s != [] && IsSpace(s[0]) {
      var t := s[1..];
      assert r == Strip(t);
      var j := LeadingSpaces(t);
      assert LeadingSpaces(s) == 1 + j;
      StripKeeps(t);
      forall k | 0 <= k < |r| ensures r[k] == s[1 + j + k] {
        assert r[k] == t[j + k];
      }
    } else if s != [] && IsSpace(s[|s| - 1]) {
      var t := s[..|s| - 1];
      assert r == Strip(t);
      assert t[0] == s[0];
      assert LeadingSpaces(s) == 0 && LeadingSpaces(t) == 0;
      StripKeeps(t);
      forall k | 0 <= k < |r| ensures r[k] == s[k] {
        assert r[k] == t[k];
      }
    }
  }

  /** So what `strip` keeps is a slice of `s`. */
  lemma StripIsSlice(s: string)
    ensures var r := Strip(s); var i := LeadingSpaces(s);
            i + |r| <= |s| && r == s[i..i + |r|]
  {
    StripKeeps(s);
  }

  /** Only whitespace follows that slice. */
  lemma {:induction false} StripTrailing(s: string)
    ensures var n := LeadingSpaces(s) + |Strip(s)|;
            n <= |s| && forall k :: n <= k < |s| ==> IsSpace(s[k])
    decreases |s|
  {
    if s != [] && IsSpace(s[0]) {
      var t := s[1..];
      StripTrailing(t);
      assert forall k :: 1 <= k < |s| ==> s[k] == t[k - 1];
    } else if s != [] && IsSpace(s[|s| - 1]) {
      var t := s[..|s| - 1];
      assert t[0] == s[0];
      StripTrailing(t);
      assert forall k :: 0 <= k < |t| ==> s[k] == t[k];
    }
  }

  /** `strip` yields the empty string exactly when `s` is all whitespace. */
  lemma StripEmptyIff(s: string)
    ensures Strip(s) == [] <==> forall k :: 0 <= k < |s| ==> IsSpace(s[k])
  {
    var r := Strip(s);
    var i := LeadingSpaces(s);
    StripIsSlice(s);
    LeadingSpacesAreSpace(s);
    StripTrailing(s);
    if r != [] {
      assert !IsSpace(s[i]) by {
        assert r[0] == s[i];
      }
    }
  }

  /** `s.strip()` in full: the slice of `s` after its leading whitespace, followed only by
      whitespace, with no outer whitespace, and empty exactly when `s` is all whitespace. */
  lemma StripSpec(s: string)
    ensures var r := Strip(s); var i := LeadingSpaces(s);
            i + |r| <= |s| && r == s[i..i + |r|] && IsStripped(r)
            && (forall k :: 0 <= k < i ==> IsSpace(s[k]))
            && (forall k :: i + |r| <= k < |s| ==> IsSpace(s[k]))
            && (r == [] <==> forall k :: 0 <= k < |s| ==> IsSpace(s[k]))
  {
    StripIsSlice(s);
    LeadingSpacesAreSpace(s);
    StripTrailing(s);
    StripEmptyIff(s);
  }

  /** Stripping is determined by its contract: the only stripped slice that leaves
      nothing but whitespace on both sides is the one `Strip` returns. */
  lemma {:induction false} StripUnique(s: string, i: nat, j: nat)
    requires i <= j <= |s|
    requires forall k :: 0 <= k < i ==> IsSpace(s[k])
    requires forall k :: j <= k < |s| ==> IsSpace(s[k])
    requires IsStripped(s[i..j])
    ensures Strip(s) == s[i..j]
  {
    var r := Strip(s);
    var i' := LeadingSpaces(s);
    var j' := i' + |r|;
    StripIsSlice(s);
    if i == j {
      StripEmptyIff(s);
    } else {
      LeadingSpacesAreSpace(s);
      StripTrailing(s);
      assert !IsSpace(s[i]) && !IsSpace(s[j - 1]);
      assert r != [] by {
        StripEmptyIff(s);
      }
      assert !IsSpace(s[i']) && !IsSpace(s[j' - 1]) by {
        assert r[0] == s[i'] && r[|r| - 1] == s[j' - 1];
      }
      assert i' == i;
      assert j' == j;
    }
  }

  /** A string with no outer whitespace is its own strip. */
  lemma StripStripped(s: string)
    requires IsStripped(s)
    ensures Strip(s) == s
  {
  }

  function LowerAscii(c: char): char {
    if 'A' <= c <= 'Z' then (c as int + 32) as char else c
  }

  /** `s.lower()` restricted to ASCII letters. */
  function LowerAsciiString(s: string): (r: string)
    ensures |r| == |s| && forall k :: 0 <= k < |s| ==> r[k] == LowerAscii(s[k])
  {
    seq(|s|, k requires 0 <= k < |s| => LowerAscii(s[k]))
  }

  /** `s.lower().endswith(ext)` for a lower-case ASCII `ext` such as ".json" or ".txt". */
  predicate EndsWithIgnoringCase(s: string, ext: string) {
    |ext| <= |s| && LowerAsciiString(s[|s| - |ext|..]) == ext
  }

  /** A string that literally ends with a lower-case ASCII extension passes the test. */
  lemma EndsWithLiteral(stem: string, ext: string)
    requires forall k :: 0 <= k < |ext| ==> LowerAscii(ext[k]) == ext[k]
    ensures EndsWithIgnoringCase(stem + ext, ext)
  {
    var s := stem + ext;
    assert s[|s| - |ext|..] == ext;
  }

  /** `sep.join(parts)`. */
  function Join(parts: seq<string>, sep: char): string
  {
    if parts == [] then []
    else if |parts| == 1 then parts[0]
    else parts[0] + [sep] + Join(parts[1..], sep)
  }

  /** Joining five pieces puts the separator between neighbours. */
  lemma JoinFive(a: string, b: string, c: string, d: string, e: string, sep: char)
    ensures Join([a, b, c, d, e], sep) == a + [sep] + b + [sep] + c + [sep] + d + [sep] + e
  {
    assert Join([e], sep) == e;
    assert Join([d, e], sep) == d + [sep] + e by {
      assert [d, e][1..] == [e];
    }
    assert Join([c, d, e], sep) == c + [sep] + Join([d, e], sep) by {
      assert [c, d, e][1..] == [d, e];
    }
    assert Join([b, c, d, e], sep) == b + [sep] + Join([c, d, e], sep) by {
      assert [b, c, d, e][1..] == [c, d, e];
    }
    assert Join([a, b, c, d, e], sep) == a + [sep] + Join([b, c, d, e], sep) by {
      assert [a, b, c, d, e][1..] == [b, c, d, e];
    }
  }

  /** `s.split(sep)`: never empty; the pieces hold no separator. */
  function Split(s: string, sep: char): (parts: seq<string>)
    ensures |parts| >= 1
    ensures forall k :: 0 <= k < |parts| ==> sep !in parts[k]
  {
    if s == [] then [[]]
    else
      var rest := Split(s[1..], sep);
      if s[0] == sep then [[]] + rest
      else [[s[0]] + rest[0]] + rest[1..]
  }

  /** Splitting loses nothing: joining the pieces gives the string back. */
  lemma {:induction false} JoinSplit(s: string, sep: char)
    ensures Join(Split(s, sep), sep) == s
  {
    if s != [] {
      var rest := Split(s[1..], sep);
      JoinSplit(s[1..], sep);
      if s[0] == sep {
        assert ([[]] + rest)[1..] == rest;
      } else {
        var parts := [[s[0]] + rest[0]] + rest[1..];
        if |rest| > 1 {
          assert parts[1..] == rest[1..];
          assert Join(rest, sep) == rest[0] + [sep] + Join(rest[1..], sep);
        }
      }
    }
  }

  lemma {:induction false} SplitNoSeparator(a: string, sep: char)
    requires sep !in a
    ensures Split(a, sep) == [a]
  {
    if a != [] {
      SplitNoSeparator(a[1..], sep);
      assert [a[0]] + a[1..] == a;
    }
  }

  lemma {:induction false} SplitAtSeparator(a: string, b: string, sep: char)
    requires sep !in a
    ensures Split(a + [sep] + b, sep) == [a] + Split(b, sep)
  {
    var s := a + [sep] + b;
    if a == [] {
      assert s[1..] == b;
    } else {
      assert s[1..] == a[1..] + [sep] + b;
      SplitAtSeparator(a[1..], b, sep);
      assert [a[0]] + a[1..] == a;
    }
  }

  /** Joining pieces that hold no separator and splitting again gives the pieces back. */
  lemma {:induction false} SplitJoin(parts: seq<string>, sep: char)
    requires |parts| >= 1
    requires forall k :: 0 <= k < |parts| ==> sep !in parts[k]
    ensures Split(Join(parts, sep), sep) == parts
  {
    if |parts| == 1 {
      SplitNoSeparator(parts[0], sep);
    } else {
      SplitJoin(parts[1..], sep);
      SplitAtSeparator(parts[0], Join(parts[1..], sep), sep);
      assert [parts[0]] + parts[1..] == parts;
    }
  }

  /** `s[:n]` for `n >= 0`. */
  function Take(s: string, n: nat): (r: string)
    ensures r <= s
    ensures |r| == if |s| <= n then |s| else n
  {
    if |s| <= n then s else s[..n]
  }

  /** `s.rfind(c)`: the index of the last `c`, or -1. */
  function RFind(s: string, c: char): (i: int)
    ensures -1 <= i < |s|
    ensures i >= 0 ==> s[i] == c
    ensures forall k :: i < k < |s| ==> s[k] != c
  {
    if s == [] then -1
    else if s[|s| - 1] == c then |s| - 1
    else RFind(s[..|s| - 1], c)
  }

  /** `posixpath.basename(p)`: what follows the last '/'. */
  function Basename(p: string): (r: string)
    ensures |r| <= |p| && r == p[|p| - |r|..]
    ensures '/' !in r
    ensures |r| < |p| ==> p[|p| - |r| - 1] == '/'
  {
    var i := RFind(p, '/') + 1;
    assert forall k :: 0 <= k < |p| - i ==> p[i..][k] == p[i + k];
    p[i..]
  }

  /** `sub in s` for strings. */
  predicate Contains(s: string, sub: string)
    decreases |s|
  {
    sub <= s || (s != [] && Contains(s[1..], sub))
  }

  /** A string ending in `sub` contains it. */
  lemma {:induction false} ContainsSuffix(s: string, sub: string)
    ensures Contains(s + sub, sub)
    decreases |s|
  {
    if s == [] {
      assert s + sub == sub;
    } else {
      assert (s + sub)[1..] == s[1..] + sub;
      ContainsSuffix(s[1..], sub);
    }
  }

  /** Appending keeps what a string contains. */
  lemma {:induction false} ContainsExtend(s: string, sub: string, t: string)
    requires Contains(s, sub)
    ensures Contains(s + t, sub)
    decreases |s|
  {
    if sub <= s {
      assert (s + t)[..|sub|] == s[..|sub|];
    } else {
      assert (s + t)[1..] == s[1..] + t;
      ContainsExtend(s[1..], sub, t);
    }
  }

  /** `"".join(parts)` contains each of its parts. */
  lemma {:induction false} FlattenContains(parts: seq<string>, i: nat)
    requires i < |parts|
    ensures Contains(Flatten(parts), parts[i])
    decreases |parts|
  {
    var init := parts[..|parts| - 1];
    if i == |parts| - 1 {
      ContainsSuffix(Flatten(init), parts[i]);
    } else {
      assert parts[i] == init[i];
      FlattenContains(init, i);
      ContainsExtend(Flatten(init), parts[i], parts[|parts| - 1]);
    }
  }

  /** `"".join(parts)` starts with the first part. */
  lemma {:induction false} FlattenStartsWith(parts: seq<string>)
    requires parts != []
    ensures parts[0] <= Flatten(parts)
    decreases |parts|
  {
    var init := parts[..|parts| - 1];
    if init == [] {
      assert Flatten(parts) == [] + parts[0];
    } else {
      assert init[0] == parts[0];
      FlattenStartsWith(init);
      assert Flatten(parts)[..|parts[0]|] == Flatten(init)[..|parts[0]|];
    }
  }

  lemma {:induction false} ShortNeverContains(s: string, sub: string)
    requires |s| < |sub|
    ensures !Contains(s, sub)
    decreases |s|
  {
    if s != [] {
      ShortNeverContains(s[1..], sub);
    }
  }

  predicate IsDigit(c: char) {
    '0' <= c <= '9'
  }

  predicate AllDigits(s: string) {
    forall k :: 0 <= k < |s| ==> IsDigit(s[k])
  }

  function DigitChar(d: nat): (c: char)
    requires d < 10
    ensures IsDigit(c) && c as int - '0' as int == d
  {
    ('0' as int + d) as char
  }

  /** The number a string of decimal digits denotes. */
  function DecimalValue(s: string): nat
    requires AllDigits(s)
  {
    if s == [] then 0 else DecimalValue(s[..|s| - 1]) * 10 + (s[|s| - 1] as int - '0' as int)
  }

  /** `str(n)` for a natural number: decimal digits, no leading zero, read back as `n`. */
  function NatToString(n: nat): (s: string)
    ensures |s| >= 1 && AllDigits(s)
    ensures DecimalValue(s) == n
    ensures |s| > 1 ==> s[0] != '0'
    decreases n
  {
    if n < 10 then [DigitChar(n)]
    else
      var s := NatToString(n / 10) + [DigitChar(n % 10)];
      assert s[..|s| - 1] == NatToString(n / 10);
      s
  }

  /** `f"{n:02d}"` for `n < 100`: two digits, read back as `n`. */
  function TwoDigits(n: nat): (s: string)
    requires n < 100
    ensures |s| == 2 && AllDigits(s) && DecimalValue(s) == n
  {
    if n < 10 then
      var s := "0" + NatToString(n);
      assert s[..1] == "0";
      s
    else
      assert NatToString(n) == NatToString(n / 10) + [DigitChar(n % 10)];
      NatToString(n)
  }
}
