/**
 * Which strings Python's `uuid.UUID(s)` accepts. The chat service uses it
 * only as a yes/no check on session ids. The constructor removes every
 * `urn:` and then every `uuid:`, strips braces from both ends, removes every
 * hyphen, demands 32 characters, and parses them with `int(h, 16)`.
 */
module PyUuid {
  import Text

  /** The number of characters left for `int(h, 16)`. */
  const HexLength := 32

  predicate IsHexDigit(c: char) {
    ('0' <= c <= '9') || ('a' <= c <= 'f') || ('A' <= c <= 'F')
  }

  predicate IsLowerHexDigit(c: char) {
    ('0' <= c <= '9') || ('a' <= c <= 'f')
  }

  /** Python's `s.replace(pat, '')`: the leftmost non-overlapping
      occurrences of `pat` are removed. */
  function RemoveAll(s: string, pat: string): (r: string)
    requires pat != []
    ensures |r| <= |s|
    ensures pat[0] !in s ==> r == s
    decreases |s|
  {
    if s == [] then []
    else if Text.StartsWith(s, pat) then RemoveAll(s[|pat|..], pat)
    else [s[0]] + RemoveAll(s[1..], pat)
  }

  /** Where `pat` does not occur, `replace` leaves the string as it is. */
  lemma {:induction false} RemoveAllWithoutOccurrence(s: string, pat: string)
    requires pat != []
    requires forall j :: 0 <= j <= |s| ==> !Text.StartsWith(s[j..], pat)
    ensures RemoveAll(s, pat) == s
    decreases |s|
  {
    if s != [] {
      assert s[0..] == s;
      forall j | 0 <= j <= |s[1..]| ensures !Text.StartsWith(s[1..][j..], pat) {
        assert s[1..][j..] == s[j + 1..];
      }
      RemoveAllWithoutOccurrence(s[1..], pat);
    }
  }

  /** The first occurrence of `pat` is removed: what precedes it is kept
      and the search resumes after it. With the lemma above this determines
      `RemoveAll` on every input. */
  lemma {:induction false} RemoveAllAtFirst(a: string, pat: string, b: string)
    requires pat != []
    requires forall j :: 0 <= j < |a| ==> !Text.StartsWith((a + pat + b)[j..], pat)
    ensures RemoveAll(a + pat + b, pat) == a + RemoveAll(b, pat)
    decreases |a|
  {
    var s := a + pat + b;
    if a == [] {
      assert s == pat + b && s[..|pat|] == pat && s[|pat|..] == b;
    } else {
      assert s[0..] == s;
      var a' := a[1..];
      assert s[1..] == a' + pat + b;
      forall j | 0 <= j < |a'| ensures !Text.StartsWith((a' + pat + b)[j..], pat) {
        assert (a' + pat + b)[j..] == s[j + 1..];
      }
      var rest := RemoveAll(b, pat);
      calc {
        RemoveAll(s, pat);
        { RemoveAllKeepsHead(s, pat); }
        [s[0]] + RemoveAll(a' + pat + b, pat);
        { RemoveAllAtFirst(a', pat, b); }
        [a[0]] + (a' + rest);
        { assert [a[0]] + a' == a; }
        a + rest;
      }
    }
  }

  /** Without `pat` at the front, the first character is kept. */
  lemma RemoveAllKeepsHead(s: string, pat: string)
    requires pat != [] && s != [] && !Text.StartsWith(s, pat)
    ensures RemoveAll(s, pat) == [s[0]] + RemoveAll(s[1..], pat)
  {
  }

  /** Python's `s.replace(c, '')` for one character. */
  function DropChar(s: string, c: char): (r: string)
    ensures c !in r && |r| <= |s|
    ensures c !in s ==> r == s
    ensures forall x :: x in r <==> x in s && x != c
    decreases |s|
  {
    if s == [] then []
    else if s[0] == c then DropChar(s[1..], c)
    else [s[0]] + DropChar(s[1..], c)
  }

  predicate IsBrace(c: char) {
    c == '{' || c == '}'
  }

  /** `r` occurs in `s` at `i` with only characters `drop` accepts around it. */
  predicate DroppedAround(s: string, r: string, i: int, drop: char -> bool) {
    && 0 <= i <= |s| - |r| && s[i..i + |r|] == r
    && (forall k :: 0 <= k < i ==> drop(s[k]))
    && (forall k :: i + |r| <= k < |s| ==> drop(s[k]))
  }

  /** Stripping the characters `drop` accepts from both ends, as Python's
      `s.strip(chars)` does and as `int()` does with whitespace. The result
      is the slice of `s` left when every such character at either end is
      gone. */
  function StripChars(s: string, drop: char -> bool): (r: string)
    ensures |r| <= |s|
    ensures r == [] || (!drop(r[0]) && !drop(r[|r| - 1]))
    ensures exists i :: DroppedAround(s, r, i, drop)
    ensures |s| > 0 && !drop(s[0]) && !drop(s[|s| - 1]) ==> r == s
    decreases |s|
  {
    if s == [] then
      assert DroppedAround(s, [], 0, drop);
      []
    else if drop(s[0]) then
      var r := StripChars(s[1..], drop);
      DroppedAfterFirst(s, r, drop);
      r
    else if drop(s[|s| - 1]) then
      var r := StripChars(s[..|s| - 1], drop);
      DroppedBeforeLast(s, s[..|s| - 1], r, drop);
      r
    else
      assert DroppedAround(s, s, 0, drop);
      s
  }

  /** A dropped character in front keeps `r` surrounded in `s`, one place
      further on. */
  lemma DroppedAfterFirst(s: string, r: string, drop: char -> bool)
    requires |s| > 0 && drop(s[0])
    requires exists j :: DroppedAround(s[1..], r, j, drop)
    ensures exists i :: DroppedAround(s, r, i, drop)
  {
    var j :| DroppedAround(s[1..], r, j, drop);
    assert s[j + 1..j + 1 + |r|] == s[1..][j..j + |r|];
    assert forall k :: 0 < k < |s| ==> s[k] == s[1..][k - 1];
    assert DroppedAround(s, r, j + 1, drop);
  }

  /** A dropped character at the back keeps `r` surrounded in `s`, at the
      same place. */
  lemma DroppedBeforeLast(s: string, t: string, r: string, drop: char -> bool)
    requires |s| > 0 && drop(s[|s| - 1]) && t == s[..|s| - 1]
    requires exists j :: DroppedAround(t, r, j, drop)
    ensures exists i :: DroppedAround(s, r, i, drop)
  {
    var j :| DroppedAround(t, r, j, drop);
    assert s[j..j + |r|] == t[j..j + |r|];
    assert DroppedAround(s, r, j, drop);
  }

  /** The whitespace `int()` skips around its digits: C's `isspace` on
      ASCII, and every non-ASCII character `str.isspace` accepts, which
      `int()` first turns into a space. The information separators
      `\x1c`-`\x1f`, whitespace to `str.isspace`, are not skipped. */
  predicate IsIntSpace(c: char) {
    c == ' ' || ('\t' <= c <= '\r') || (c > '\U{7F}' && Text.IsSpace(c))
  }

  /** A run of hex digits with single underscores between digits, as
      `int` accepts after any sign and prefix. */
  predicate HexDigits(t: string) {
    && |t| > 0 && IsHexDigit(t[0]) && IsHexDigit(t[|t| - 1])
    && (forall i :: 0 <= i < |t| ==> IsHexDigit(t[i]) || t[i] == '_')
    && (forall i :: 0 <= i < |t| - 1 ==> !(t[i] == '_' && t[i + 1] == '_'))
  }

  /** Whether `int(h, 16)` returns instead of raising: the whitespace
      `int()` skips, then an optional sign, an optional `0x`/`0X` prefix that
      may be followed by one underscore, and the digits. */
  predicate ParsesAsHex(h: string): (ok: bool)
    ensures ok ==> exists k :: 0 <= k < |h| && IsHexDigit(h[k])
  {
    var t := StripChars(h, IsIntSpace);
    var u := if |t| > 0 && (t[0] == '+' || t[0] == '-') then t[1..] else t;
    var digits :=
      if |u| >= 2 && u[0] == '0' && (u[1] == 'x' || u[1] == 'X') then
        var v := u[2..];
        if |v| > 0 && v[0] == '_' then v[1..] else v
      else u;
    if HexDigits(digits) then
      assert digits == t[|t| - |digits|..];
      DigitWithin(h, t, digits);
      true
    else false
  }

  /** A hex digit at the head of a tail of the stripped string is a hex
      digit of the original. */
  lemma DigitWithin(h: string, t: string, x: string)
    requires exists i :: DroppedAround(h, t, i, IsIntSpace)
    requires 0 < |x| <= |t| && x == t[|t| - |x|..] && IsHexDigit(x[0])
    ensures exists k :: 0 <= k < |h| && IsHexDigit(h[k])
  {
    var i :| DroppedAround(h, t, i, IsIntSpace);
    var k := i + |t| - |x|;
    assert h[k] == t[|t| - |x|];
  }

  /** The characters `uuid.UUID(s)` hands to `int(h, 16)`. */
  function Normalise(s: string): (h: string)
    ensures |h| <= |s|
    ensures '-' !in h
  {
    DropChar(StripChars(RemoveAll(RemoveAll(s, "urn:"), "uuid:"), IsBrace), '-')
  }

  /** `uuid.UUID(s)` returns rather than raising `ValueError`. The value
      range check of the constructor never fails here: with every hyphen
      removed there is no minus sign, and 32 characters hold at most 32 hex
      digits. */
  predicate IsUuid(s: string): (ok: bool)
    ensures ok ==> HexLength <= |s|
  {
    var h := Normalise(s);
    |h| == HexLength && ParsesAsHex(h)
  }

  /** A string shorter than 32 characters is never a UUID. */
  lemma ShortRejected(s: string)
    requires |s| < HexLength
    ensures !IsUuid(s)
  {
  }

  /** The form `str(uuid)` produces: 8-4-4-4-12 lower-case hex digits. */
  predicate IsCanonical(s: string) {
    |s| == 36 &&
    forall i :: 0 <= i < |s| ==>
      if i == 8 || i == 13 || i == 18 || i == 23 then s[i] == '-' else IsLowerHexDigit(s[i])
  }

  lemma {:induction false} DropCharAppend(a: string, b: string, c: char)
    ensures DropChar(a + b, c) == DropChar(a, c) + DropChar(b, c)
    decreases |a|
  {
    if a != [] {
      assert (a + b)[1..] == a[1..] + b;
      DropCharAppend(a[1..], b, c);
    } else {
      assert a + b == b;
    }
  }

  /** Hex digits with single underscores between them and no other
      character pass `int(h, 16)`. */
  lemma PlainDigitsParse(h: string)
    requires HexDigits(h)
    ensures ParsesAsHex(h)
  {
    assert StripChars(h, IsIntSpace) == h;
  }

  /** Removing the hyphens from `a + "-" + b` when `a` has none. */
  lemma DropHyphenJoin(a: string, b: string)
    requires '-' !in a
    ensures DropChar(a + "-" + b, '-') == a + DropChar(b, '-')
  {
    DropCharAppend(a + "-", b, '-');
    DropCharAppend(a, "-", '-');
  }

  /** The 32 digits of a canonical UUID string, without its hyphens. */
  function CanonicalDigits(s: string): (h: string)
    requires IsCanonical(s)
    ensures |h| == HexLength && forall i :: 0 <= i < |h| ==> IsLowerHexDigit(h[i])
  {
    s[..8] + (s[9..13] + (s[14..18] + (s[19..23] + s[24..])))
  }

  /** The characters of a canonical string in `[a, b)`, a range clear of
      the four hyphen positions, are digits. */
  lemma DigitRun(s: string, a: int, b: int)
    requires IsCanonical(s) && 0 <= a <= b <= |s|
    requires !(a <= 8 < b) && !(a <= 13 < b) && !(a <= 18 < b) && !(a <= 23 < b)
    ensures '-' !in s[a..b] && 'u' !in s[a..b]
  {
    forall i | 0 <= i < b - a ensures IsLowerHexDigit(s[a..b][i]) {
      assert s[a..b][i] == s[a + i];
    }
  }

  /** A canonical string has no `u`, so no `urn:` or `uuid:` to remove. */
  lemma NoLetterU(s: string)
    requires IsCanonical(s)
    ensures 'u' !in s
  {
    DigitRun(s, 24, 36);
    DigitRun(s, 0, 8);
    assert s == s[..8] + s[8..24] + s[24..];
    assert forall i :: 8 <= i < 24 ==> s[i] != 'u';
  }

  /** A canonical string has no `urn:`, `uuid:` or braces to remove. */
  lemma CanonicalUntouched(s: string)
    requires IsCanonical(s)
    ensures StripChars(RemoveAll(RemoveAll(s, "urn:"), "uuid:"), IsBrace) == s
  {
    NoLetterU(s);
  }

  /** Removing `c` around one occurrence of it at `k`. */
  lemma DropAt(s: string, k: int, c: char)
    requires 0 <= k < |s| && s[k] == c
    ensures DropChar(s, c) == DropChar(s[..k], c) + DropChar(s[k + 1..], c)
  {
    assert s == s[..k] + s[k..];
    DropCharAppend(s[..k], s[k..], c);
    assert s[k..][1..] == s[k + 1..];
  }

  /** Removing the hyphens from a string whose first `g` characters hold
      none and whose next one is a hyphen. */
  lemma DropHyphenGroup(t: string, g: int)
    requires 0 <= g < |t| && t[g] == '-' && '-' !in t[..g]
    ensures DropChar(t, '-') == t[..g] + DropChar(t[g + 1..], '-')
  {
    DropAt(t, g, '-');
  }

  /** Where a canonical string has hyphens, and that it has no others. */
  lemma HyphenLayout(s: string)
    requires IsCanonical(s)
    ensures |s| == 36 && s[8] == '-' && s[13] == '-' && s[18] == '-' && s[23] == '-'
    ensures '-' !in s[..8] && '-' !in s[9..13] && '-' !in s[14..18] && '-' !in s[19..23] && '-' !in s[24..]
  {
    DigitRun(s, 0, 8);
    DigitRun(s, 9, 13);
    DigitRun(s, 14, 18);
    DigitRun(s, 19, 23);
    DigitRun(s, 24, 36);
  }

  /** Removing the hyphens of a string laid out as 8-4-4-4-rest. */
  lemma DropLayoutHyphens(s: string)
    requires |s| == 36 && s[8] == '-' && s[13] == '-' && s[18] == '-' && s[23] == '-'
    requires '-' !in s[..8] && '-' !in s[9..13] && '-' !in s[14..18] && '-' !in s[19..23] && '-' !in s[24..]
    ensures DropChar(s, '-') == s[..8] + (s[9..13] + (s[14..18] + (s[19..23] + s[24..])))
  {
    var t1, t2, t3 := s[9..], s[14..], s[19..];
    assert DropChar(t3, '-') == s[19..23] + s[24..] by {
      assert t3[..4] == s[19..23] && t3[5..] == s[24..];
      DropHyphenGroup(t3, 4);
    }
    assert DropChar(t2, '-') == s[14..18] + DropChar(t3, '-') by {
      assert t2[..4] == s[14..18] && t2[5..] == t3;
      DropHyphenGroup(t2, 4);
    }
    assert DropChar(t1, '-') == s[9..13] + DropChar(t2, '-') by {
      assert t1[..4] == s[9..13] && t1[5..] == t2;
      DropHyphenGroup(t1, 4);
    }
    DropHyphenGroup(s, 8);
  }

  /** Removing the four hyphens of a canonical string leaves its digits. */
  lemma CanonicalDropHyphens(s: string)
    requires IsCanonical(s)
    ensures DropChar(s, '-') == CanonicalDigits(s)
  {
    HyphenLayout(s);
    DropLayoutHyphens(s);
  }

  lemma CanonicalNormalise(s: string)
    requires IsCanonical(s)
    ensures Normalise(s) == CanonicalDigits(s)
  {
    CanonicalUntouched(s);
    CanonicalDropHyphens(s);
  }

  /** Every canonical UUID string is accepted. */
  lemma CanonicalIsUuid(s: string)
    requires IsCanonical(s)
    ensures IsUuid(s)
  {
    CanonicalNormalise(s);
    var h := CanonicalDigits(s);
    LowerDigitsAreHexDigits(h);
    PlainDigitsParse(h);
    assert Normalise(s) == h && |h| == HexLength && ParsesAsHex(h);
  }

  /** Lower-case hex digits alone form a digit run `int` accepts. */
  lemma LowerDigitsAreHexDigits(h: string)
    requires |h| > 0 && forall i :: 0 <= i < |h| ==> IsLowerHexDigit(h[i])
    ensures HexDigits(h)
  {
  }

  /** A canonical UUID in braces, `{...}`, is accepted too. */
  lemma BracedIsUuid(s: string)
    requires IsCanonical(s)
    ensures IsUuid("{" + s + "}")
  {
    var b := "{" + s + "}";
    NoLetterU(s);
    assert 'u' !in b;
    assert StripChars(b, IsBrace) == StripChars(s + "}", IsBrace) by { assert b[1..] == s + "}"; }
    assert StripChars(s + "}", IsBrace) == s by { assert (s + "}")[..|s|] == s; }
    assert Normalise(b) == Normalise(s) by { CanonicalUntouched(s); }
    CanonicalIsUuid(s);
  }

  /** `int()` does not skip an information separator, although `str.isspace`
      counts it as whitespace: `"\x1c"` followed by hex digits does not
      parse. */
  lemma {:induction false} SeparatorNotSkipped(d: string)
    requires HexDigits(d)
    ensures !ParsesAsHex(['\U{1C}'] + d)
  {
    var h := ['\U{1C}'] + d;
    assert h[|h| - 1] == d[|d| - 1];
    assert StripChars(h, IsIntSpace) == h;
    assert h[0] == '\U{1C}' && !IsHexDigit(h[0]);
    assert !HexDigits(h);
  }
}
