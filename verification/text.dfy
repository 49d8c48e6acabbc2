/**
 * Python string primitives the backend relies on: `str.isspace`, `str.strip`,
 * `str.startswith`, `sep.join` and `str.split` with a one-character separator.
 */
module Text {
  import opened Wrappers

  function Min(a: int, b: int): int { if a <= b then a else b }
  function Max(a: int, b: int): int { if a >= b then a else b }

  /** Python's `str.isspace` for one character: the ASCII separators,
      the C1 next-line character and the Unicode space separators. */
  predicate IsSpace(c: char) {
    || c == ' ' || c == '\t' || c == '\n' || c == '\r'
    || c == '\U{B}' || c == '\U{C}'
    || ('\U{1C}' <= c <= '\U{1F}')
    || c == '\U{85}' || c == '\U{A0}' || c == '\U{1680}'
    || ('\U{2000}' <= c <= '\U{200A}')
    || c == '\U{2028}' || c == '\U{2029}' || c == '\U{202F}' || c == '\U{205F}' || c == '\U{3000}'
  }

  /** Every character of `s[lo..hi]` is whitespace. */
  predicate AllSpace(s: string, lo: int, hi: int)
    requires 0 <= lo <= hi <= |s|
  {
    forall k :: lo <= k < hi ==> IsSpace(s[k])
  }

  /** `s` has no whitespace at either end. */
  predicate IsStripped(s: string) {
    s == [] || (!IsSpace(s[0]) && !IsSpace(s[|s| - 1]))
  }

  /** Python truthiness of an optional string field: present and non-empty. */
  predicate Truthy(o: Option<string>) {
    o.Some? && o.value != ""
  }

  predicate StartsWith(s: string, prefix: string) {
    |prefix| <= |s| && s[..|prefix|] == prefix
  }

  /** Number of whitespace characters at the front of `s`. */
  function LeadingSpace(s: string): (n: nat)
    ensures n <= |s|
    ensures AllSpace(s, 0, n)
    ensures n < |s| ==> !IsSpace(s[n])
  {
    if |s| > 0 && IsSpace(s[0]) then 1 + LeadingSpace(s[1..]) else 0
  }

  /** Number of whitespace characters at the back of `s`. */
  function TrailingSpace(s: string): (n: nat)
    ensures n <= |s|
    ensures AllSpace(s, |s| - n, |s|)
    ensures n < |s| ==> !IsSpace(s[|s| - n - 1])
  {
    if |s| > 0 && IsSpace(s[|s| - 1]) then 1 + TrailingSpace(s[..|s| - 1]) else 0
  }

  /** Python's `s.strip()`: the slice of `s` left after removing whitespace
      from both ends. */
  function Strip(s: string): (r: string)
    ensures IsStripped(r)
    ensures |r| <= |s|
    ensures r == [] <==> AllSpace(s, 0, |s|)
    ensures exists i :: 0 <= i <= |s| - |r| && StrippedAt(s, r, i)
  {
    var i := LeadingSpace(s);
    var rest := s[i..];
    var t := TrailingSpace(rest);
    var r := rest[..|rest| - t];
    assert r == s[i..i + |r|];
    assert AllSpace(s, i + |r|, |s|) by {
      forall k | i + |r| <= k < |s| ensures IsSpace(s[k]) {
        assert s[k] == rest[k - i];
      }
    }
    if r == [] then
      assert AllSpace(s, 0, |s|);
      assert StrippedAt(s, r, i);
      r
    else
      assert r[0] == s[i];
      assert StrippedAt(s, r, i);
      r
  }

  /** `r` occurs in `s` at `i` with only whitespace around it. */
  ghost predicate StrippedAt(s: string, r: string, i: int)
    requires 0 <= i <= |s| - |r|
  {
    s[i..i + |r|] == r && AllSpace(s, 0, i) && AllSpace(s, i + |r|, |s|)
  }

  /** Stripping twice is stripping once. */
  lemma {:induction false} StripIdempotent(s: string)
    requires IsStripped(s)
    ensures Strip(s) == s
  {
    if s != [] {
      assert LeadingSpace(s) == 0;
      assert TrailingSpace(s) == 0;
    }
  }

  /** Python's `sep.join(xs)`. */
  function Join(sep: string, xs: seq<string>): (r: string)
    ensures |xs| == 1 ==> r == xs[0]
  {
    if |xs| == 0 then ""
    else if |xs| == 1 then xs[0]
    else xs[0] + sep + Join(sep, xs[1..])
  }

  /** Joining with one more piece at the end appends the separator and the
      piece, so `Join` builds the same string from either end. */
  lemma {:induction false} JoinAppend(sep: string, xs: seq<string>, x: string)
    requires xs != []
    ensures Join(sep, xs + [x]) == Join(sep, xs) + sep + x
    decreases |xs|
  {
    if |xs| == 1 {
      assert xs + [x] == [xs[0], x];
      assert (xs + [x])[1..] == [x];
    } else {
      assert (xs + [x])[1..] == xs[1..] + [x];
      JoinAppend(sep, xs[1..], x);
    }
  }

  /** Python's `s.split(c)` for a single separator character: the pieces
      between separators, including empty ones at either end. */
  function Split(s: string, c: char): (pieces: seq<string>)
    ensures |pieces| >= 1
    ensures forall i :: 0 <= i < |pieces| ==> c !in pieces[i]
    ensures Join([c], pieces) == s
    decreases |s|
  {
    if |s| == 0 then [""]
    else
      var rest := Split(s[1..], c);
      if s[0] == c then
        assert s == [c] + Join([c], rest);
        [""] + rest
      else
        var first := [s[0]] + rest[0];
        var r := [first] + rest[1..];
        assert r[1..] == rest[1..];
        assert Join([c], r) == s by {
          if |rest| == 1 {
            assert s == [s[0]] + s[1..];
          } else {
            assert Join([c], rest) == rest[0] + [c] + Join([c], rest[1..]);
            assert s == [s[0]] + s[1..];
          }
        }
        r
  }

  /** `Split` undoes `Join`: pieces free of the separator come back unchanged.
      With `Split`'s own contract this says the split is the only
      decomposition of `s` into separator-free pieces. */
  lemma {:induction false} SplitJoin(pieces: seq<string>, c: char)
    requires |pieces| >= 1
    requires forall i :: 0 <= i < |pieces| ==> c !in pieces[i]
    ensures Split(Join([c], pieces), c) == pieces
    decreases |pieces|, |pieces[0]|
  {
    var s := Join([c], pieces);
    if pieces[0] == [] {
      if |pieces| == 1 {
        assert s == [];
      } else {
        assert s == [c] + Join([c], pieces[1..]);
        assert s[1..] == Join([c], pieces[1..]);
        SplitJoin(pieces[1..], c);
        assert pieces == [""] + pieces[1..];
      }
    } else {
      var head := pieces[0];
      var shorter := [head[1..]] + pieces[1..];
      assert shorter[1..] == pieces[1..];
      assert head[0] != c by { assert head[0] in head; }
      assert forall i :: 0 <= i < |shorter| ==> c !in shorter[i] by {
        forall i | 0 <= i < |shorter| ensures c !in shorter[i] {
          if i > 0 { assert shorter[i] == pieces[i]; }
        }
      }
      if |pieces| == 1 {
        assert s == head;
        assert Join([c], shorter) == head[1..];
        assert s[1..] == head[1..];
      } else {
        assert s == head + [c] + Join([c], pieces[1..]);
        assert Join([c], shorter) == head[1..] + [c] + Join([c], pieces[1..]);
        assert s[1..] == Join([c], shorter);
      }
      SplitJoin(shorter, c);
      assert s[0] == head[0];
      assert head == [head[0]] + head[1..];
      assert [[s[0]] + head[1..]] + pieces[1..] == pieces;
    }
  }
}
