/**
 * The pure parts of the ingestion tool: `chunk_text`, which cuts a document
 * into pieces of at most `chunk_size` characters, preferring to end a piece
 * just after a sentence end, and `extract_title_from_markdown`.
 *
 * Characters are Python code points, so `len` is `|s|`.
 */
module Ingest {
  import Text

  const UntitledDocument := "Untitled Document"
  /** Only the first ten lines are searched for a title. */
  const TitleLines := 10
  const HeadingPrefix := "# "

  /** The characters `chunk_text` treats as the end of a sentence. */
  predicate IsSentenceEnd(c: char) {
    c == '.' || c == '!' || c == '?' || c == '\n'
  }

  // ---------------------------------------------------------------------
  // str.rfind

  /** Python's normalisation of a slice bound against a length `n`:
      negative bounds count from the end, and both ends are clamped. */
  function Clamp(i: int, n: nat): (r: nat)
    ensures r <= n
    ensures 0 <= i <= n ==> r == i
    ensures i > n ==> r == n
    ensures i < 0 ==> r == Text.Max(i + n, 0)
  {
    if i < 0 then Text.Max(i + n, 0) else if i > n then n else i
  }

  /** The last index in `[a, b)` holding `c`, or -1. */
  function RFindIn(s: string, c: char, a: nat, b: nat): (r: int)
    requires b <= |s|
    ensures r == -1 || (a <= r < b && s[r] == c)
    ensures forall j :: a <= j < b && r < j ==> s[j] != c
    decreases b
  {
    if b <= a then -1
    else if s[b - 1] == c then b - 1
    else RFindIn(s, c, a, b - 1)
  }

  /** Python's `s.rfind(c, lo, hi)`: the last occurrence of `c` in the
      normalised range, or -1 when there is none. */
  function RFind(s: string, c: char, lo: int, hi: int): (r: int)
    ensures r == -1 || (Clamp(lo, |s|) <= r < Clamp(hi, |s|) && s[r] == c)
    ensures forall j :: Clamp(lo, |s|) <= j < Clamp(hi, |s|) && r < j ==> s[j] != c
  {
    RFindIn(s, c, Clamp(lo, |s|), Clamp(hi, |s|))
  }

  /** The largest of the four `rfind` results for `.`, `!`, `?` and a
      newline: the last sentence end in the normalised range, or -1. */
  function LastSentenceEnd(text: string, lo: int, hi: int): (r: int)
    ensures r == -1 || (Clamp(lo, |text|) <= r < Clamp(hi, |text|) && IsSentenceEnd(text[r]))
    ensures forall j :: Clamp(lo, |text|) <= j < Clamp(hi, |text|) && r < j ==> !IsSentenceEnd(text[j])
  {
    var sentenceEnd := -1;
    var sentenceEnd := Text.Max(sentenceEnd, RFind(text, '.', lo, hi));
    var sentenceEnd := Text.Max(sentenceEnd, RFind(text, '!', lo, hi));
    var sentenceEnd := Text.Max(sentenceEnd, RFind(text, '?', lo, hi));
    Text.Max(sentenceEnd, RFind(text, '\n', lo, hi))
  }

  // ---------------------------------------------------------------------
  // chunk_text

  /** Where the piece starting at `start` ends, as `chunk_text` computes
      it; `NextCutSpec` says where that is. */
  function NextCut(text: string, start: int, chunkSize: int, overlap: int): (end: int)
    requires 0 <= start < |text| && chunkSize > 0
    ensures start < end <= start + chunkSize
  {
    var end := start + chunkSize;
    if end < |text| then
      var searchStart := if start > 0 then end - overlap else end;
      var sentenceEnd := LastSentenceEnd(text, searchStart, end);
      if sentenceEnd != -1 && sentenceEnd > start then sentenceEnd + 1 else end
    else end
  }

  /** A piece ends `chunkSize` characters after its start, unless that is
      inside the text, the piece is not the first, and a sentence end lies
      after `start` within the last `overlap` characters of the window; then
      it ends just after the last such sentence end. */
  lemma NextCutSpec(text: string, start: int, chunkSize: int, overlap: int)
    requires 0 <= start < |text| && chunkSize > 0
    ensures var end := NextCut(text, start, chunkSize, overlap);
      && (start + chunkSize >= |text| || start == 0 ==> end == start + chunkSize)
      && (start + chunkSize < |text| && start > 0 ==>
            var lo := Text.Max(Clamp(start + chunkSize - overlap, |text|), start + 1);
            if exists j :: lo <= j < start + chunkSize && IsSentenceEnd(text[j])
            then lo <= end - 1 && IsSentenceEnd(text[end - 1])
                 && forall j :: end <= j < start + chunkSize ==> !IsSentenceEnd(text[j])
            else end == start + chunkSize)
  {
  }

  /** Cut positions that increase, all but the last inside the text. */
  predicate Ascending(cuts: seq<int>, n: nat) {
    forall k :: 0 <= k < |cuts| - 1 ==> 0 <= cuts[k] < cuts[k + 1] && cuts[k] <= n
  }

  /** The cut positions `chunk_text` visits: from 0, each the `NextCut` of
      the one before, until the text is used up. */
  ghost predicate Chunking(text: string, chunkSize: int, overlap: int, cuts: seq<int>)
    requires chunkSize > 0
  {
    |cuts| >= 2 && cuts[0] == 0 && cuts[|cuts| - 1] >= |text| && Steps(text, chunkSize, overlap, cuts)
  }

  /** Each cut but the last lies inside the text and is followed by its
      `NextCut`. */
  ghost predicate Steps(text: string, chunkSize: int, overlap: int, cuts: seq<int>)
    requires chunkSize > 0
  {
    forall k :: 0 <= k < |cuts| - 1 ==>
      0 <= cuts[k] < |text| && cuts[k + 1] == NextCut(text, cuts[k], chunkSize, overlap)
  }

  /** `text[a:b]` with Python's clamping of `b`. */
  function Slice(text: string, a: nat, b: int): (r: string)
    requires a <= |text| && a <= b
    ensures |r| <= b - a
  {
    text[a..Text.Min(b, |text|)]
  }

  /** The pieces the cuts delimit, stripped, keeping only the non-empty
      ones, in order. */
  function Pieces(text: string, cuts: seq<int>): (chunks: seq<string>)
    requires Ascending(cuts, |text|)
    ensures forall k :: 0 <= k < |chunks| ==> chunks[k] != [] && Text.IsStripped(chunks[k])
    decreases |cuts|
  {
    if |cuts| < 2 then []
    else
      var c := Text.Strip(Slice(text, cuts[|cuts| - 2], cuts[|cuts| - 1]));
      Pieces(text, cuts[..|cuts| - 1]) + (if c == [] then [] else [c])
  }

  /** `chunk_text(text, chunk_size, overlap)`. A text of at most `chunk_size`
      characters is returned whole, unstripped, even when empty. Otherwise
      the result is the stripped, non-empty pieces between the cuts
      `Chunking` describes, each at most `chunk_size` characters long. A
      size of zero or less makes the source loop forever on a non-empty
      text, so it is excluded. */
  method ChunkText(text: string, chunkSize: int, overlap: int) returns (chunks: seq<string>, ghost cuts: seq<int>)
    requires chunkSize > 0
    ensures |text| <= chunkSize ==> chunks == [text]
    ensures |text| > chunkSize ==> Chunking(text, chunkSize, overlap, cuts) && chunks == Pieces(text, cuts)
    ensures |text| > chunkSize ==>
      forall k :: 0 <= k < |chunks| ==> 0 < |chunks[k]| <= chunkSize && Text.IsStripped(chunks[k])
  {
    if |text| <= chunkSize {
      return [text], [0, |text|];
    }
    chunks, cuts := [], [0];
    var start := 0;
    while start < |text|
      invariant 0 <= start
      invariant |cuts| >= 1 && cuts[0] == 0 && cuts[|cuts| - 1] == start
      invariant Steps(text, chunkSize, overlap, cuts)
      invariant Ascending(cuts, |text|)
      invariant chunks == Pieces(text, cuts)
      decreases |text| - start
    {
      var end := NextCut(text, start, chunkSize, overlap);
      var chunk := Text.Strip(Slice(text, start, end));
      ChunkStep(text, chunkSize, overlap, cuts, end);
      if chunk != [] {
        chunks := chunks + [chunk];
      }
      start := if end > start then end else start + chunkSize;
      ghost var next := cuts + [start];
      assert chunks == Pieces(text, next);
      cuts := next;
    }
    StepsGaps(text, chunkSize, overlap, cuts);
    PiecesWithin(text, chunkSize, cuts);
  }

  /** Consecutive cuts at most `chunkSize` apart. */
  predicate Gaps(cuts: seq<int>, chunkSize: int) {
    forall k :: 0 <= k < |cuts| - 1 ==> cuts[k + 1] <= cuts[k] + chunkSize
  }

  /** No piece is longer than the chunk size when no cut is more than
      `chunkSize` past the one before, as in every chunking. */
  lemma {:induction false} PiecesWithin(text: string, chunkSize: int, cuts: seq<int>)
    requires Ascending(cuts, |text|) && Gaps(cuts, chunkSize)
    ensures forall k :: 0 <= k < |Pieces(text, cuts)| ==> |Pieces(text, cuts)[k]| <= chunkSize
    decreases |cuts|
  {
    if |cuts| >= 2 {
      var init := cuts[..|cuts| - 1];
      assert Ascending(init, |text|) && Gaps(init, chunkSize);
      PiecesWithin(text, chunkSize, init);
    }
  }

  lemma StepsGaps(text: string, chunkSize: int, overlap: int, cuts: seq<int>)
    requires chunkSize > 0 && Steps(text, chunkSize, overlap, cuts)
    ensures Gaps(cuts, chunkSize)
  {
  }

  /** One turn of the loop of `ChunkText`: appending the next cut keeps
      the cuts ascending and adds exactly the new piece, if non-empty. */
  lemma ChunkStep(text: string, chunkSize: int, overlap: int, cuts: seq<int>, end: int)
    requires chunkSize > 0 && |cuts| >= 1 && 0 <= cuts[|cuts| - 1] < |text|
    requires Ascending(cuts, |text|)
    requires Steps(text, chunkSize, overlap, cuts)
    requires end == NextCut(text, cuts[|cuts| - 1], chunkSize, overlap)
    ensures Ascending(cuts + [end], |text|) && Steps(text, chunkSize, overlap, cuts + [end])
    ensures Pieces(text, cuts + [end]) ==
              Pieces(text, cuts) + (var c := Text.Strip(Slice(text, cuts[|cuts| - 1], end)); if c == [] then [] else [c])
  {
    var next := cuts + [end];
    assert next[..|cuts|] == cuts;
    assert Ascending(next, |text|) by {
      forall k | 0 <= k < |next| - 1 ensures 0 <= next[k] < next[k + 1] && next[k] <= |text| {
        if k < |cuts| - 1 {
          assert next[k] == cuts[k] && next[k + 1] == cuts[k + 1];
        }
      }
    }
    assert Steps(text, chunkSize, overlap, next) by {
      forall k | 0 <= k < |next| - 1
        ensures 0 <= next[k] < |text| && next[k + 1] == NextCut(text, next[k], chunkSize, overlap)
      {
        if k < |cuts| - 1 {
          assert next[k] == cuts[k] && next[k + 1] == cuts[k + 1];
        }
      }
    }
  }

  /** Concatenation of the raw pieces between consecutive cuts. */
  function Tiles(text: string, cuts: seq<int>): string
    requires Ascending(cuts, |text|)
    decreases |cuts|
  {
    if |cuts| < 2 then ""
    else Tiles(text, cuts[..|cuts| - 1]) + Slice(text, cuts[|cuts| - 2], cuts[|cuts| - 1])
  }

  /** The pieces between the cuts cover the text from the first cut on,
      each character once: the chunks never overlap and nothing is dropped
      except the whitespace `strip` removes. */
  lemma {:induction false} TilesCover(text: string, cuts: seq<int>)
    requires Ascending(cuts, |text|) && |cuts| >= 2
    ensures 0 <= cuts[0] <= cuts[|cuts| - 1] && cuts[0] <= |text|
    ensures Tiles(text, cuts) == text[cuts[0]..Text.Min(cuts[|cuts| - 1], |text|)]
  {
    var init := cuts[..|cuts| - 1];
    var a, b := cuts[|cuts| - 2], cuts[|cuts| - 1];
    assert Tiles(text, cuts) == Tiles(text, init) + Slice(text, a, b);
    if |cuts| > 2 {
      assert Ascending(init, |text|) by {
        forall k | 0 <= k < |init| - 1 ensures 0 <= init[k] < init[k + 1] && init[k] <= |text| {
          assert init[k] == cuts[k] && init[k + 1] == cuts[k + 1];
        }
      }
      TilesCover(text, init);
      assert init[0] == cuts[0] && init[|init| - 1] == a;
      var lo, mid, hi := cuts[0], Text.Min(a, |text|), Text.Min(b, |text|);
      assert text[lo..mid] + text[mid..hi] == text[lo..hi];
    }
  }

  /** A chunking covers the whole text. */
  lemma ChunkingCoversText(text: string, chunkSize: int, overlap: int, cuts: seq<int>)
    requires chunkSize > 0 && Chunking(text, chunkSize, overlap, cuts)
    ensures Ascending(cuts, |text|) && Tiles(text, cuts) == text
  {
    TilesCover(text, cuts);
  }

  /** The first chunk is never shortened at a sentence end: the search
      window of the first piece is empty. */
  lemma FirstCutIsChunkSize(text: string, chunkSize: int, overlap: int, cuts: seq<int>)
    requires chunkSize > 0 && |text| > chunkSize && Chunking(text, chunkSize, overlap, cuts)
    ensures cuts[1] == chunkSize
  {
  }

  // ---------------------------------------------------------------------
  // extract_title_from_markdown

  /** The first of the lines `k` .. 9 that starts with `"# "`, or -1. */
  function HeadingIndex(lines: seq<string>, k: nat): (r: int)
    ensures r == -1 || (k <= r < Text.Min(|lines|, TitleLines) && Text.StartsWith(lines[r], HeadingPrefix))
    ensures forall j :: k <= j < Text.Min(|lines|, TitleLines) && (r == -1 || j < r) ==>
              !Text.StartsWith(lines[j], HeadingPrefix)
    decreases TitleLines - k
  {
    if k >= Text.Min(|lines|, TitleLines) then -1
    else if Text.StartsWith(lines[k], HeadingPrefix) then k
    else HeadingIndex(lines, k + 1)
  }

  /** `extract_title_from_markdown`: the first line among the first ten
      that starts with `"# "`, without that prefix and stripped (possibly
      empty), or `"Untitled Document"` when there is none. A title never
      spans lines and never has whitespace at its ends. */
  function ExtractTitle(content: string): (title: string)
    ensures '\n' !in title && Text.IsStripped(title)
    ensures var lines := Text.Split(content, '\n');
      if exists k :: 0 <= k < Text.Min(|lines|, TitleLines) && Text.StartsWith(lines[k], HeadingPrefix)
      then exists k :: 0 <= k < Text.Min(|lines|, TitleLines) && Text.StartsWith(lines[k], HeadingPrefix)
             && (forall j :: 0 <= j < k ==> !Text.StartsWith(lines[j], HeadingPrefix))
             && title == Text.Strip(lines[k][2..])
      else title == UntitledDocument
  {
    var lines := Text.Split(content, '\n');
    var i := HeadingIndex(lines, 0);
    if i < 0 then UntitledDocument
    else
      var line := lines[i][2..];
      assert '\n' !in lines[i];
      StripKeepsOut(line, '\n');
      Text.Strip(line)
  }

  /** Stripping never adds a character. */
  lemma StripKeepsOut(s: string, c: char)
    requires c !in s
    ensures c !in Text.Strip(s)
  {
    var r := Text.Strip(s);
    var i :| 0 <= i <= |s| - |r| && Text.StrippedAt(s, r, i);
    assert r == s[i..i + |r|];
  }
}
