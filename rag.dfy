/** backend/rag.js: the sliding-window chunker and the PDF-only text extractor. */
module Rag {
  import opened Wrappers
  import opened Text

  /** The default window size and overlap of `chunkText`. */
  const DefaultSize: nat := 500
  const DefaultOverlap: nat := 100

  function Min(a: int, b: int): (m: int) { if a <= b then a else b }

  /** The chunk the loop pushes when its cursor is at `start`: `text.slice(start, start + size)`. */
  function Window(text: string, start: nat, size: nat): (r: string)
    requires start < |text|
  {
    text[start..Min(start + size, |text|)]
  }

  /** The chunks the loop still pushes once its cursor has reached `start`.
      The window advances by `size - overlap`, which must be positive for the
      loop to end on non-empty text. */
  function Windows(text: string, start: nat, size: nat, overlap: nat): (r: seq<string>)
    requires |text| == 0 || overlap < size
    decreases |text| - start
  {
    if start >= |text| then []
    else [Window(text, start, size)] + Windows(text, start + (size - overlap), size, overlap)
  }

  /** What `chunkText(text, size, overlap)` returns. */
  function Chunks(text: string, size: nat, overlap: nat): (r: seq<string>)
    requires |text| == 0 || overlap < size
    ensures r == [] <==> |text| == 0
  {
    Windows(text, 0, size, overlap)
  }

  /** `chunkText`: the while loop over `start` pushing one slice per step. */
  method ChunkText(text: string, size: nat, overlap: nat) returns (chunks: seq<string>)
    requires |text| == 0 || overlap < size
    ensures chunks == Chunks(text, size, overlap)
  {
    chunks := [];
    var start: nat := 0;
    while start < |text|
      invariant chunks + Windows(text, start, size, overlap) == Chunks(text, size, overlap)
      decreases |text| - start
    {
      chunks := chunks + [text[start..Min(start + size, |text|)]];
      start := start + (size - overlap);
    }
  }

  /** `chunkText(text)` with the default window of 500 characters and overlap of 100. */
  method ChunkTextDefault(text: string) returns (chunks: seq<string>)
    ensures chunks == Chunks(text, DefaultSize, DefaultOverlap)
    ensures chunks == [] <==> text == []
    ensures forall i :: 0 <= i < |chunks| ==> 1 <= |chunks[i]| <= 500
  {
    chunks := ChunkText(text, DefaultSize, DefaultOverlap);
    forall i | 0 <= i < |chunks| ensures 1 <= |chunks[i]| <= 500 {
      ChunkAt(text, DefaultSize, DefaultOverlap, i);
    }
  }

  /** Chunk `i` (counting from the cursor `start`) is the slice at `start + i * step`. */
  lemma {:induction false} WindowsAt(text: string, start: nat, size: nat, overlap: nat, i: nat)
    requires overlap < size
    requires i < |Windows(text, start, size, overlap)|
    ensures start + i * (size - overlap) < |text|
    ensures Windows(text, start, size, overlap)[i] == Window(text, start + i * (size - overlap), size)
    decreases |text| - start
  {
    var step := size - overlap;
    if i > 0 {
      WindowsAt(text, start + step, size, overlap, i - 1);
      MulSucc(i - 1, step);
    }
  }

  /** Chunk `i` is `text[i*step .. min(i*step + size, |text|)]`, and it is neither empty
      nor longer than `size`. */
  lemma ChunkAt(text: string, size: nat, overlap: nat, i: nat)
    requires overlap < size
    requires i < |Chunks(text, size, overlap)|
    ensures i * (size - overlap) < |text|
    ensures Chunks(text, size, overlap)[i]
         == text[i * (size - overlap)..Min(i * (size - overlap) + size, |text|)]
    ensures 1 <= |Chunks(text, size, overlap)[i]| <= size
  {
    WindowsAt(text, 0, size, overlap, i);
    var at := i * (size - overlap);
    assert 0 + at == at;
    var w := Window(text, at, size);
    assert Chunks(text, size, overlap)[i] == w;
    assert |w| == Min(at + size, |text|) - at;
  }

  /** `ceil(n / d)` for a positive `d`. */
  function CeilDiv(n: nat, d: nat): nat
    requires d > 0
  {
    (n + d - 1) / d
  }

  lemma MulSucc(k: int, d: int)
    ensures (k + 1) * d == k * d + d
  {
  }

  lemma MulAtLeast(m: int, d: int)
    requires m >= 1 && d > 0
    ensures m * d >= d
  {
    MulSucc(m - 1, d);
    assert (m - 1) * d >= 0;
  }

  lemma DivUnique(a: int, d: int, q: int, r: int)
    requires d > 0 && 0 <= r < d && a == q * d + r
    ensures a / d == q
  {
    var q', r' := a / d, a % d;
    assert a == q' * d + r';
    assert (q' - q) * d == r - r' by {
      assert (q' - q) * d == q' * d - q * d;
    }
    if q' > q {
      MulAtLeast(q' - q, d);
    } else if q' < q {
      MulAtLeast(q - q', d);
    }
  }

  lemma {:induction false} WindowsCount(text: string, start: nat, size: nat, overlap: nat)
    requires overlap < size
    ensures start < |text| ==>
      var k := |Windows(text, start, size, overlap)|;
      k >= 1 && (k - 1) * (size - overlap) < |text| - start <= k * (size - overlap)
    ensures start >= |text| ==> |Windows(text, start, size, overlap)| == 0
    decreases |text| - start
  {
    var step := size - overlap;
    if start < |text| {
      WindowsCount(text, start + step, size, overlap);
      var k := |Windows(text, start, size, overlap)|;
      assert k == 1 + |Windows(text, start + step, size, overlap)|;
      MulSucc(k - 2, step);
      MulSucc(k - 1, step);
    }
  }

  /** The number of chunks is `ceil(|text| / (size - overlap))`: none for empty text,
      at least one otherwise. */
  lemma ChunkCount(text: string, size: nat, overlap: nat)
    requires overlap < size
    ensures |Chunks(text, size, overlap)| == CeilDiv(|text|, size - overlap)
    ensures |text| == 0 <==> |Chunks(text, size, overlap)| == 0
  {
    var step := size - overlap;
    WindowsCount(text, 0, size, overlap);
    var k := |Chunks(text, size, overlap)|;
    if |text| == 0 {
      DivUnique(step - 1, step, 0, step - 1);
    } else {
      DivUnique(|text| + step - 1, step, k, |text| - 1 - (k - 1) * step);
    }
  }

  /** Empty text gives no chunks whatever the configuration, since the loop body never runs. */
  lemma EmptyTextNoChunks(size: nat, overlap: nat)
    ensures Chunks("", size, overlap) == []
  {
  }

  /** A full-length chunk followed by another: the next one starts with the last
      `overlap` characters of this one. */
  lemma {:induction false} WindowsOverlap(text: string, start: nat, size: nat, overlap: nat, i: nat)
    requires overlap < size
    requires i + 1 < |Windows(text, start, size, overlap)|
    requires |Windows(text, start, size, overlap)[i]| == size
    ensures |Windows(text, start, size, overlap)[i + 1]| >= overlap
    ensures Windows(text, start, size, overlap)[i + 1][..overlap]
         == Windows(text, start, size, overlap)[i][size - overlap..]
    decreases |text| - start
  {
    var step := size - overlap;
    var ws := Windows(text, start, size, overlap);
    var rest := Windows(text, start + step, size, overlap);
    assert ws[1..] == rest;
    if i == 0 {
      assert ws[0] == Window(text, start, size);
      assert start + size <= |text|;
      assert ws[0] == text[start..start + size];
      var end := Min(start + step + size, |text|);
      assert rest[0] == text[start + step..end];
      assert start + step + overlap == start + size && start + size <= end;
      assert rest[0][..overlap] == text[start + step..start + size];
      assert ws[0][step..] == text[start + step..start + size];
    } else {
      WindowsOverlap(text, start + step, size, overlap, i - 1);
    }
  }

  lemma ChunkOverlap(text: string, size: nat, overlap: nat, i: nat)
    requires overlap < size
    requires i + 1 < |Chunks(text, size, overlap)|
    requires |Chunks(text, size, overlap)[i]| == size
    ensures |Chunks(text, size, overlap)[i + 1]| >= overlap
    ensures Chunks(text, size, overlap)[i + 1][..overlap]
         == Chunks(text, size, overlap)[i][size - overlap..]
  {
    WindowsOverlap(text, 0, size, overlap, i);
  }

  /** Chunks after the first, each with its first `min(overlap, |chunk|)` characters dropped. */
  function DropOverlaps(chunks: seq<string>, overlap: nat): string
  {
    if chunks == [] then ""
    else chunks[0][Min(overlap, |chunks[0]|)..] + DropOverlaps(chunks[1..], overlap)
  }

  /** The first chunk followed by the new part of every later chunk. */
  function Reassemble(chunks: seq<string>, overlap: nat): string
  {
    if chunks == [] then "" else chunks[0] + DropOverlaps(chunks[1..], overlap)
  }

  lemma {:induction false} DropOverlapsWindows(text: string, start: nat, size: nat, overlap: nat)
    requires overlap < size
    ensures DropOverlaps(Windows(text, start, size, overlap), overlap)
         == text[Min(start + overlap, |text|)..]
    decreases |text| - start
  {
    var step := size - overlap;
    if start < |text| {
      DropOverlapsWindows(text, start + step, size, overlap);
      var w := Window(text, start, size);
      var e := Min(start + size, |text|);
      assert w[Min(overlap, |w|)..] == text[Min(start + overlap, |text|)..e];
      assert Min(start + step + overlap, |text|) == e;
      assert text[Min(start + overlap, |text|)..] == text[Min(start + overlap, |text|)..e] + text[e..];
    }
  }

  /** Reconstruction: dropping the overlaps and concatenating gives back the text. */
  lemma Reconstruct(text: string, size: nat, overlap: nat)
    requires overlap < size
    ensures Reassemble(Chunks(text, size, overlap), overlap) == text
  {
    if |text| > 0 {
      var step := size - overlap;
      DropOverlapsWindows(text, step, size, overlap);
      assert Min(step + overlap, |text|) == Min(size, |text|);
      assert text == text[..Min(size, |text|)] + text[Min(size, |text|)..];
    }
  }

  /** `extractText`: only a MIME type mentioning "pdf" is read and parsed (`pdfText`
      stands for reading the file and `pdf-parse`, `None` when either throws);
      every other type yields the empty string. */
  function ExtractText(filePath: string, mimeType: string, pdfText: string -> Option<string>): (r: Option<string>)
    ensures !Contains(mimeType, "pdf") ==> r == Some("")
    ensures Contains(mimeType, "pdf") ==> r == pdfText(filePath)
  {
    if Contains(mimeType, "pdf") then pdfText(filePath) else Some("")
  }

  /** The usual PDF MIME type does select the parser. */
  lemma PdfMimeIsParsed(filePath: string, pdfText: string -> Option<string>)
    ensures ExtractText(filePath, "application/pdf", pdfText) == pdfText(filePath)
  {
    assert OccursAt("application/pdf", "pdf", 12);
  }
}
