/** src/backend/dataset.rs: a corpus as one token list per line, and the
    reshaping operations the tuning binary applies to it before training. */
module Dataset {
  import opened Wrappers
  import opened Seqs
  import opened Backend

  /** `struct Dataset { data: Vec<Vec<Token>> }`. `from_data` is the
      constructor, `get_data` and `get_data_out` read the field, and
      `Dataset::empty()` is `Dataset([])`. */
  datatype Dataset = Dataset(data: seq<seq<Token>>)

  function Min(a: nat, b: nat): nat
  {
    if a <= b then a else b
  }

  // ---------------------------------------------------------------------
  // shrink_to_size (src/backend/dataset.rs:113-131)

  /** The lines `shrink_to_size` produces, line by line: each line keeps as
      many of its tokens as the remaining budget allows. */
  function Shrunk(lines: seq<seq<Token>>, budget: nat): (r: seq<seq<Token>>)
    ensures |r| == |lines|
  {
    if lines == [] then []
    else
      var take := Min(|lines[0]|, budget);
      [lines[0][..take]] + Shrunk(lines[1..], budget - take)
  }

  /** Line i of the result is the longest prefix of input line i that fits
      in what the earlier lines left of the budget. */
  lemma {:induction false} ShrunkAt(lines: seq<seq<Token>>, budget: nat, i: nat)
    requires i < |lines|
    ensures |Shrunk(lines, budget)| == |lines|
    ensures Shrunk(lines, budget)[i]
      == lines[i][..Min(|lines[i]|, budget - Min(budget, TotalLength(lines[..i])))]
  {
    var take := Min(|lines[0]|, budget);
    if i > 0 {
      ShrunkAt(lines[1..], budget - take, i - 1);
      assert lines[..i] == [lines[0]] + lines[1..][..i - 1];
      TotalLengthAppend([lines[0]], lines[1..][..i - 1]);
      assert TotalLength([lines[0]]) == |lines[0]|;
    }
  }

  /** The result has one line per input line, each a prefix of its input line. */
  lemma ShrunkShape(lines: seq<seq<Token>>, budget: nat)
    ensures |Shrunk(lines, budget)| == |lines|
    ensures forall i :: 0 <= i < |lines| ==>
      |Shrunk(lines, budget)[i]| <= |lines[i]|
      && Shrunk(lines, budget)[i] == lines[i][..|Shrunk(lines, budget)[i]|]
  {
    forall i | 0 <= i < |lines|
      ensures |Shrunk(lines, budget)[i]| <= |lines[i]|
      ensures Shrunk(lines, budget)[i] == lines[i][..|Shrunk(lines, budget)[i]|]
    {
      ShrunkAt(lines, budget, i);
    }
  }

  /** The result holds min(budget, total input tokens) tokens; the test at
      src/backend/dataset.rs:234-238 expects exactly the budget. */
  lemma {:induction false} ShrunkTotal(lines: seq<seq<Token>>, budget: nat)
    ensures TotalLength(Shrunk(lines, budget)) == Min(budget, TotalLength(lines))
  {
    if lines != [] {
      var take := Min(|lines[0]|, budget);
      ShrunkTotal(lines[1..], budget - take);
      TotalLengthAppend([lines[0][..take]], Shrunk(lines[1..], budget - take));
      assert TotalLength([lines[0][..take]]) == take;
    }
  }

  /** Once the earlier lines have used the whole budget, every later line is
      kept as an empty line rather than dropped. */
  lemma ShrunkEmptyTail(lines: seq<seq<Token>>, budget: nat, k: nat)
    requires k <= |lines| && TotalLength(lines[..k]) >= budget
    ensures forall j :: k <= j < |lines| ==> Shrunk(lines, budget)[j] == []
  {
    forall j | k <= j < |lines|
      ensures Shrunk(lines, budget)[j] == []
    {
      ShrunkAt(lines, budget, j);
      assert lines[..j] == lines[..k] + lines[k..j];
      TotalLengthAppend(lines[..k], lines[k..j]);
    }
  }

  /** `Dataset::shrink_to_size`. The loop keeps `total_tokens <= tokens`, so
      the `continue` branch of line 121 never runs. */
  method ShrinkToSize(ds: Dataset, tokens: nat) returns (r: Dataset)
    ensures r.data == Shrunk(ds.data, tokens)
  {
    var totalTokens: nat := 0;
    var newDataset: seq<seq<Token>> := [];
    for i := 0 to |ds.data|
      invariant totalTokens <= tokens
      invariant newDataset + Shrunk(ds.data[i..], tokens - totalTokens) == Shrunk(ds.data, tokens)
    {
      var line := ds.data[i];
      assert ds.data[i..][1..] == ds.data[i + 1..];
      if totalTokens + |line| <= tokens {
        assert line[..Min(|line|, tokens - totalTokens)] == line;
        newDataset := newDataset + [line];
        totalTokens := totalTokens + |line|;
      } else if totalTokens > tokens {
        assert false;
      } else if totalTokens + |line| > tokens {
        var partialVec := line[0..tokens - totalTokens];
        assert partialVec == line[..Min(|line|, tokens - totalTokens)];
        totalTokens := totalTokens + |partialVec|;
        newDataset := newDataset + [partialVec];
      }
    }
    r := Dataset(newDataset);
  }

  // ---------------------------------------------------------------------
  // join_lines (src/backend/dataset.rs:134-147)

  /** One step of the fold: start the first chunk, extend the last chunk
      while it is shorter than `chunkSize`, otherwise start a new one. */
  function JoinStep(acc: seq<seq<Token>>, line: seq<Token>, chunkSize: nat): seq<seq<Token>>
  {
    if acc == [] then [line]
    else if |acc[|acc| - 1]| < chunkSize then acc[|acc| - 1 := acc[|acc| - 1] + line]
    else acc + [line]
  }

  /** The fold of `JoinStep` over the lines, from the left. */
  function Joined(lines: seq<seq<Token>>, chunkSize: nat): seq<seq<Token>>
  {
    if lines == [] then []
    else JoinStep(Joined(lines[..|lines| - 1], chunkSize), lines[|lines| - 1], chunkSize)
  }

  lemma FlattenSnoc<T>(xs: seq<seq<T>>, x: seq<T>)
    ensures Flatten(xs + [x]) == Flatten(xs) + x
  {
    FlattenAppend(xs, [x]);
    assert Flatten([x]) == x + Flatten([x][1..]);
  }

  /** Joining never loses, adds or reorders a token. */
  lemma {:induction false} JoinedKeepsTokens(lines: seq<seq<Token>>, chunkSize: nat)
    ensures Flatten(Joined(lines, chunkSize)) == Flatten(lines)
  {
    if lines != [] {
      var init, line := lines[..|lines| - 1], lines[|lines| - 1];
      var acc := Joined(init, chunkSize);
      JoinedKeepsTokens(init, chunkSize);
      assert lines == init + [line];
      FlattenSnoc(init, line);
      if acc == [] {
        assert Flatten([line]) == line + Flatten([line][1..]);
      } else if |acc[|acc| - 1]| < chunkSize {
        var front := acc[..|acc| - 1];
        assert acc == front + [acc[|acc| - 1]];
        assert JoinStep(acc, line, chunkSize) == front + [acc[|acc| - 1] + line];
        FlattenSnoc(front, acc[|acc| - 1]);
        FlattenSnoc(front, acc[|acc| - 1] + line);
      } else {
        FlattenSnoc(acc, line);
      }
    }
  }

  /** Every chunk but the last holds at least `chunkSize` tokens (the test at
      src/backend/dataset.rs:249-257), there is a chunk exactly when there
      is a line, and never more chunks than lines. */
  lemma {:induction false} JoinedShape(lines: seq<seq<Token>>, chunkSize: nat)
    ensures |Joined(lines, chunkSize)| <= |lines|
    ensures (|Joined(lines, chunkSize)| == 0) == (|lines| == 0)
    ensures forall i :: 0 <= i < |Joined(lines, chunkSize)| - 1 ==> |Joined(lines, chunkSize)[i]| >= chunkSize
  {
    if lines != [] {
      JoinedShape(lines[..|lines| - 1], chunkSize);
    }
  }

  /** `Dataset::join_lines`: the fold that extends the last chunk in place. */
  method JoinLines(ds: Dataset, chunkSize: nat) returns (r: Dataset)
    ensures r.data == Joined(ds.data, chunkSize)
  {
    var acc: seq<seq<Token>> := [];
    for i := 0 to |ds.data|
      invariant acc == Joined(ds.data[..i], chunkSize)
    {
      var line := ds.data[i];
      assert ds.data[..i + 1][..i] == ds.data[..i];
      if acc == [] {
        acc := acc + [line];
      } else if |acc[|acc| - 1]| < chunkSize {
        acc := acc[|acc| - 1 := acc[|acc| - 1] + line];
      } else {
        acc := acc + [line];
      }
    }
    assert ds.data[..|ds.data|] == ds.data;
    r := Dataset(acc);
  }

  // ---------------------------------------------------------------------
  // split_into_chunks (src/backend/dataset.rs:149-158)

  /** Rust `slice::chunks(size)`: consecutive slices of `size` lines, the
      last one possibly shorter. */
  function Chunks(lines: seq<seq<Token>>, size: nat): seq<seq<seq<Token>>>
    requires size > 0
    decreases |lines|
  {
    if lines == [] then []
    else if |lines| <= size then [lines]
    else [lines[..size]] + Chunks(lines[size..], size)
  }

  /** `(n as f64 / count as f64).ceil() as usize`, taken as the exact
      integer ceiling of n / count; the floating-point quotient agrees with it
      only while n and count stay below 2^53. For `count == 0` the quotient
      is infinite and the saturating cast yields `usize::MAX`. */
  function ChunkSize(n: nat, count: nat): nat
  {
    if count == 0 then USIZE_MAX else (n + count - 1) / count
  }

  lemma MulMonotone(a: nat, b: nat, s: nat)
    requires a <= b
    ensures a * s <= b * s
  {
  }

  lemma DivUnique(y: nat, d: nat, q: nat, r: nat)
    requires d > 0 && r < d && y == q * d + r
    ensures y / d == q
  {
    var q', r' := y / d, y % d;
    assert y == q' * d + r';
    if q' > q {
      MulMonotone(q + 1, q', d);
    }
    if q' < q {
      MulMonotone(q' + 1, q, d);
    }
  }

  lemma CeilDivBounds(n: nat, count: nat)
    requires n > 0 && count > 0
    ensures ChunkSize(n, count) >= 1
    ensures ChunkSize(n, count) * count >= n
    ensures (ChunkSize(n, count) - 1) * count < n
  {
    var s := ChunkSize(n, count);
    var y := n + count - 1;
    assert y == s * count + y % count;
    assert (s - 1) * count == s * count - count;
  }

  /** The chunks partition the lines in order. */
  lemma {:induction false} ChunksFlatten(lines: seq<seq<Token>>, size: nat)
    requires size > 0
    ensures Flatten(Chunks(lines, size)) == lines
    decreases |lines|
  {
    if lines == [] {
    } else if |lines| <= size {
      assert Flatten([lines]) == lines + Flatten([lines][1..]);
    } else {
      var rest := Chunks(lines[size..], size);
      ChunksFlatten(lines[size..], size);
      assert Flatten([lines[..size]] + rest) == lines[..size] + Flatten(rest);
      assert lines == lines[..size] + lines[size..];
    }
  }

  /** Each chunk but the last has exactly `size` lines and the last has
      between 1 and `size`; hence their number c satisfies
      (c - 1) * size < n <= c * size. */
  lemma {:induction false} ChunksShape(lines: seq<seq<Token>>, size: nat)
    requires size > 0
    ensures forall i :: 0 <= i < |Chunks(lines, size)| ==> 1 <= |Chunks(lines, size)[i]| <= size
    ensures forall i :: 0 <= i < |Chunks(lines, size)| - 1 ==> |Chunks(lines, size)[i]| == size
    ensures |Chunks(lines, size)| * size >= |lines|
    ensures lines != [] ==> (|Chunks(lines, size)| - 1) * size < |lines|
    ensures (lines == []) == (Chunks(lines, size) == [])
    decreases |lines|
  {
    if |lines| > size {
      var rest := Chunks(lines[size..], size);
      ChunksShape(lines[size..], size);
      assert (|rest| + 1) * size == |rest| * size + size;
      assert |rest| * size == (|rest| - 1) * size + size;
    }
  }

  /** `Dataset::split_into_chunks`. Panics on an empty dataset. */
  function SplitIntoChunks(ds: Dataset, chunkCount: nat): Outcome<seq<Dataset>>
  {
    if ds.data == [] then Panicked("Cannot split empty dataset into chunks")
    else
      var size := ChunkSize(|ds.data|, chunkCount);
      assert size > 0 by {
        if chunkCount > 0 { CeilDivBounds(|ds.data|, chunkCount); }
      }
      var parts := Chunks(ds.data, size);
      Returned(seq(|parts|, i requires 0 <= i < |parts| => Dataset(parts[i])))
  }

  /** The lines of a list of datasets, in order. */
  function AllLines(parts: seq<Dataset>): seq<seq<Token>>
  {
    if parts == [] then [] else parts[0].data + AllLines(parts[1..])
  }

  lemma {:induction false} AllLinesOfChunks(chunks: seq<seq<seq<Token>>>)
    ensures AllLines(seq(|chunks|, i requires 0 <= i < |chunks| => Dataset(chunks[i]))) == Flatten(chunks)
  {
    var parts := seq(|chunks|, i requires 0 <= i < |chunks| => Dataset(chunks[i]));
    if chunks != [] {
      assert parts[1..] == seq(|chunks[1..]|, i requires 0 <= i < |chunks[1..]| => Dataset(chunks[1..][i]));
      AllLinesOfChunks(chunks[1..]);
    }
  }

  /** Splitting fails exactly on the empty dataset. Otherwise the chunks hold
      all lines in order, every chunk but the last has exactly
      ceil(n / chunk_count) lines, and there are at most `chunk_count`
      chunks (exactly one when `chunk_count` is 0). */
  lemma SplitIntoChunksSpec(ds: Dataset, chunkCount: nat)
    ensures SplitIntoChunks(ds, chunkCount).Panicked? <==> ds.data == []
    ensures SplitIntoChunks(ds, chunkCount).Returned? ==>
      var parts := SplitIntoChunks(ds, chunkCount).value;
      && AllLines(parts) == ds.data
      && (forall i :: 0 <= i < |parts| - 1 ==> |parts[i].data| == ChunkSize(|ds.data|, chunkCount))
      && (forall i :: 0 <= i < |parts| ==> parts[i].data != [])
      && (if chunkCount == 0 then (|ds.data| <= USIZE_MAX ==> parts == [ds])
          else 1 <= |parts| <= chunkCount)
  {
    if ds.data != [] {
      var n := |ds.data|;
      var size := ChunkSize(n, chunkCount);
      if chunkCount > 0 { CeilDivBounds(n, chunkCount); }
      var chunks := Chunks(ds.data, size);
      ChunksShape(ds.data, size);
      ChunksFlatten(ds.data, size);
      AllLinesOfChunks(chunks);
      if chunkCount > 0 {
        var c := |chunks|;
        if c > chunkCount {
          MulMonotone(chunkCount, c - 1, size);
        }
      }
    }
  }

  /** When `chunk_count` divides the number of lines there are exactly
      `chunk_count` chunks (the test at src/backend/dataset.rs:241-247
      splits 1000 lines into 10). */
  lemma SplitIntoChunksExact(ds: Dataset, chunkCount: nat)
    requires ds.data != [] && chunkCount > 0 && |ds.data| % chunkCount == 0
    ensures |SplitIntoChunks(ds, chunkCount).value| == chunkCount
  {
    var n := |ds.data|;
    var q := n / chunkCount;
    assert n == q * chunkCount;
    DivUnique(n + chunkCount - 1, chunkCount, q, chunkCount - 1);
    assert q >= 1;
    ChunksShape(ds.data, q);
    ChunksFlatten(ds.data, q);
    var c := |Chunks(ds.data, q)|;
    if c < chunkCount {
      MulMonotone(c, chunkCount - 1, q);
    }
    if c > chunkCount {
      MulMonotone(chunkCount, c - 1, q);
    }
  }

  /** Fewer chunks than asked for can come out: 9 lines in 4 chunks of 3. */
  lemma SplitIntoChunksMayFallShort()
    ensures var ds := Dataset([[1], [2], [3], [4], [5], [6], [7], [8], [9]]);
      |SplitIntoChunks(ds, 4).value| == 3
  {
    var ds := Dataset([[1], [2], [3], [4], [5], [6], [7], [8], [9]]);
    assert ChunkSize(9, 4) == 3;
    assert Chunks(ds.data, 3) == [ds.data[..3]] + Chunks(ds.data[3..], 3);
    assert Chunks(ds.data[3..], 3) == [ds.data[3..][..3]] + Chunks(ds.data[6..], 3);
  }

  // ---------------------------------------------------------------------
  // split_train_test (src/backend/dataset.rs:66-70), with the rounded
  // `len * train_size` given as the split index.

  /** `self.data.split_at(train_size)`, which panics past the end. */
  function SplitTrainTest(ds: Dataset, trainSize: nat): (r: Outcome<(Dataset, Dataset)>)
    ensures r.Returned? <==> trainSize <= |ds.data|
    ensures r.Returned? ==>
      r.value.0.data + r.value.1.data == ds.data && |r.value.0.data| == trainSize
  {
    if trainSize > |ds.data| then Panicked("mid > len")
    else
      assert ds.data[..trainSize] + ds.data[trainSize..] == ds.data;
      Returned((Dataset(ds.data[..trainSize]), Dataset(ds.data[trainSize..])))
  }
}
