/** src/backend/clm_model.rs: the compression language model. zstd is a
    foreign library and stays abstract: a `Codec` stands for the encoder and
    decoder built from the model's dictionary. What is modelled is the
    handling of tokens and bytes around it and the next-token search. */
module ClmModel {
  import opened Wrappers
  import opened Seqs
  import opened Backend

  /** A compressed stream, a `Vec<u8>`; no buffer reaches `usize::MAX` bytes. */
  type Compressed = s: seq<Byte> | |s| < USIZE_MAX

  /** zstd with the model's dictionary: the stream encoder of lines 43-45 and
      the stream decoder of lines 105-109, whose `unwrap` panics when it
      yields `None`. Both are deterministic functions of their input. */
  datatype Codec = Codec(
    compress: seq<Byte> -> Compressed,
    decompress: seq<Byte> -> Option<seq<Byte>>)

  /** `ClmModel::compress` (lines 39-47): zstd applied to the token bytes. */
  function Compress(codec: Codec, tokens: seq<Token>): Compressed
  {
    codec.compress(TokensToBytes(tokens))
  }

  /** The decoder does not lose what the encoder produced from `bytes`. */
  predicate RoundTrips(codec: Codec, bytes: seq<Byte>)
  {
    codec.decompress(codec.compress(bytes)) == Some(bytes)
  }

  // ---------------------------------------------------------------------
  // decompress_to_tokens (lines 104-117)

  /** `bytes.chunks(8)`, each chunk read as `usize::from_be_bytes`; a final
      chunk shorter than eight bytes makes `i[k]` index out of bounds. */
  function DecodeBeChunks(bytes: seq<Byte>): Option<seq<Token>>
    decreases |bytes|
  {
    if bytes == [] then Some([])
    else if |bytes| < BYTES_PER_TOKEN then None
    else
      match DecodeBeChunks(bytes[BYTES_PER_TOKEN..])
      case None => None
      case Some(rest) => Some([TokenFromBeBytes(bytes[..BYTES_PER_TOKEN])] + rest)
  }

  /** The decoder succeeds exactly on whole multiples of eight bytes, yields
      one token per eight bytes, and the tokens encode back to the bytes. */
  lemma {:induction false} DecodeBeChunksSpec(bytes: seq<Byte>)
    ensures DecodeBeChunks(bytes).Some? <==> |bytes| % BYTES_PER_TOKEN == 0
    ensures DecodeBeChunks(bytes).Some? ==>
      |DecodeBeChunks(bytes).value| == |bytes| / BYTES_PER_TOKEN
      && TokensToBytes(DecodeBeChunks(bytes).value) == bytes
    decreases |bytes|
  {
    if |bytes| >= BYTES_PER_TOKEN {
      var chunk, later := bytes[..BYTES_PER_TOKEN], bytes[BYTES_PER_TOKEN..];
      DecodeBeChunksSpec(later);
      assert |bytes| % BYTES_PER_TOKEN == |later| % BYTES_PER_TOKEN;
      if DecodeBeChunks(later).Some? {
        var rest := DecodeBeChunks(later).value;
        var t := TokenFromBeBytes(chunk);
        assert DecodeBeChunks(bytes) == Some([t] + rest);
        TokenFromBeBytesInverse(chunk);
        assert ([t] + rest)[1..] == rest;
        assert TokensToBytes([t] + rest) == TokenToBeBytes(t) + TokensToBytes(rest);
        assert bytes == chunk + later;
      }
    }
  }

  /** Decoding the encoding of any token list gives the list back. */
  lemma {:induction false} DecodeOfEncode(tokens: seq<Token>)
    ensures DecodeBeChunks(TokensToBytes(tokens)) == Some(tokens)
  {
    if tokens != [] {
      var b := TokensToBytes(tokens);
      assert b[..BYTES_PER_TOKEN] == TokenToBeBytes(tokens[0]);
      assert b[BYTES_PER_TOKEN..] == TokensToBytes(tokens[1..]);
      DecodeOfEncode(tokens[1..]);
      TokenBytesRoundTrip(tokens[0]);
      assert tokens == [tokens[0]] + tokens[1..];
    }
  }

  /** What `decompress_to_tokens` returns or why it panics. */
  function DecompressedTokens(codec: Codec, compressed: seq<Byte>): Outcome<seq<Token>>
  {
    match codec.decompress(compressed)
    case None => Panicked("zstd decoder failed")
    case Some(bytes) =>
      match DecodeBeChunks(bytes)
      case None => Panicked("index out of bounds")
      case Some(tokens) => Returned(tokens)
  }

  /** `Some(tokens ++ rest)` when `rest` is present, else `None`. */
  function Prepend(tokens: seq<Token>, rest: Option<seq<Token>>): Option<seq<Token>>
  {
    match rest
    case None => None
    case Some(r) => Some(tokens + r)
  }

  /** `ClmModel::decompress_to_tokens`: the chunk loop pushing one token per
      eight bytes. */
  method DecompressToTokens(codec: Codec, compressed: seq<Byte>) returns (r: Outcome<seq<Token>>)
    ensures r == DecompressedTokens(codec, compressed)
  {
    var decoded := codec.decompress(compressed);
    if decoded.None? {
      return Panicked("zstd decoder failed");
    }
    var decompressed := decoded.value;
    var tokens: seq<Token> := [];
    var i := 0;
    assert decompressed[i..] == decompressed;
    assert Prepend(tokens, DecodeBeChunks(decompressed)) == DecodeBeChunks(decompressed) by {
      if DecodeBeChunks(decompressed).Some? {
        assert tokens + DecodeBeChunks(decompressed).value == DecodeBeChunks(decompressed).value;
      }
    }
    while i < |decompressed|
      invariant 0 <= i <= |decompressed|
      invariant DecodeBeChunks(decompressed) == Prepend(tokens, DecodeBeChunks(decompressed[i..]))
      decreases |decompressed| - i
    {
      var end := if i + BYTES_PER_TOKEN <= |decompressed| then i + BYTES_PER_TOKEN else |decompressed|;
      var chunk := decompressed[i..end];
      if |chunk| < BYTES_PER_TOKEN {
        return Panicked("index out of bounds");
      }
      var rest := decompressed[i..];
      assert rest[BYTES_PER_TOKEN..] == decompressed[end..];
      assert rest[..BYTES_PER_TOKEN] == chunk;
      var later := DecodeBeChunks(decompressed[end..]);
      assert DecodeBeChunks(rest) == Prepend([TokenFromBeBytes(chunk)], later);
      if later.Some? {
        assert tokens + ([TokenFromBeBytes(chunk)] + later.value)
          == (tokens + [TokenFromBeBytes(chunk)]) + later.value;
      }
      tokens := tokens + [TokenFromBeBytes(chunk)];
      i := end;
    }
    assert decompressed[i..] == [];
    assert tokens + [] == tokens;
    r := Returned(tokens);
  }

  /** Together with a codec that loses nothing, compressing and then
      decompressing gives back the tokens (the test at
      src/backend/mod.rs:128-136). */
  lemma CompressDecompressRoundTrip(codec: Codec, tokens: seq<Token>)
    requires RoundTrips(codec, TokensToBytes(tokens))
    ensures DecompressedTokens(codec, Compress(codec, tokens)) == Returned(tokens)
  {
    DecodeOfEncode(tokens);
  }

  // ---------------------------------------------------------------------
  // get_next_token_sizes (lines 56-65) and predict_tokens (lines 72-96)

  /** The model's `compress` on token lists (`Compress` with its codec); the
      search below depends on nothing else of the model. */
  type TokenCompressor = seq<Token> -> Compressed

  /** One candidate per token 1..MAX_TOKEN-1, with the compressed size of the
      prompt followed by that token. `par_bridge` collects them in no fixed
      order; they are listed by token here, and `predict_tokens` shuffles
      them anyway. */
  function NextTokenSizes(compress: TokenCompressor, tokens: seq<Token>): (r: seq<(Token, nat)>)
    ensures |r| == MAX_TOKEN - 1
    ensures forall i :: 0 <= i < |r| ==>
      r[i].0 == i + 1 && r[i].1 == |compress(tokens + [i + 1])|
  {
    seq(MAX_TOKEN - 1, i requires 0 <= i < MAX_TOKEN - 1 =>
      (i + 1, |compress(tokens + [i + 1])|))
  }

  /** Every token 1..MAX_TOKEN-1 is tried exactly once, with its own size. */
  lemma NextTokenSizesCandidates(compress: TokenCompressor, tokens: seq<Token>, e: (Token, nat))
    ensures e in NextTokenSizes(compress, tokens) <==>
      1 <= e.0 < MAX_TOKEN && e.1 == |compress(tokens + [e.0])|
    ensures forall i, j :: 0 <= i < j < |NextTokenSizes(compress, tokens)| ==>
      NextTokenSizes(compress, tokens)[i].0 != NextTokenSizes(compress, tokens)[j].0
  {
    var r := NextTokenSizes(compress, tokens);
    if 1 <= e.0 < MAX_TOKEN && e.1 == |compress(tokens + [e.0])| {
      assert r[e.0 - 1] == e;
    }
  }

  /** Sorted by size, ascending. */
  predicate SortedBySize(c: seq<(Token, nat)>)
  {
    forall i, j :: 0 <= i < j < |c| ==> c[i].1 <= c[j].1
  }

  /** A possible outcome of `c.shuffle(..)` followed by the sort by size: some
      arrangement of the same candidates, in ascending size. */
  predicate IsSortedArrangement(c: seq<(Token, nat)>, of: seq<(Token, nat)>)
  {
    multiset(c) == multiset(of) && SortedBySize(c)
  }

  /** Insertion into a list sorted by size, after the entries of equal size. */
  function InsertBySize(x: (Token, nat), c: seq<(Token, nat)>): (r: seq<(Token, nat)>)
    ensures |r| == |c| + 1
  {
    if c == [] then [x]
    else if c[0].1 <= x.1 then [c[0]] + InsertBySize(x, c[1..])
    else [x] + c
  }

  lemma {:induction false} InsertBySizeMembers(x: (Token, nat), c: seq<(Token, nat)>)
    ensures multiset(InsertBySize(x, c)) == multiset(c) + multiset{x}
  {
    if c != [] && c[0].1 <= x.1 {
      InsertBySizeMembers(x, c[1..]);
      assert c == [c[0]] + c[1..];
    }
  }

  lemma {:induction false} InsertBySizeBound(x: (Token, nat), c: seq<(Token, nat)>, lo: nat)
    requires lo <= x.1 && forall i :: 0 <= i < |c| ==> lo <= c[i].1
    ensures forall i :: 0 <= i < |c| + 1 ==> lo <= InsertBySize(x, c)[i].1
  {
    if c != [] && c[0].1 <= x.1 {
      InsertBySizeBound(x, c[1..], lo);
    }
  }

  lemma {:induction false} InsertBySizeSorted(x: (Token, nat), c: seq<(Token, nat)>)
    requires SortedBySize(c)
    ensures SortedBySize(InsertBySize(x, c))
  {
    if c != [] && c[0].1 <= x.1 {
      var rest := InsertBySize(x, c[1..]);
      InsertBySizeSorted(x, c[1..]);
      InsertBySizeBound(x, c[1..], c[0].1);
      var r := [c[0]] + rest;
      assert r == InsertBySize(x, c);
      forall i, j | 0 <= i < j < |r|
        ensures r[i].1 <= r[j].1
      {
        assert r[j] == rest[j - 1];
        if i > 0 {
          assert r[i] == rest[i - 1];
        }
      }
    }
  }

  /** A stable sort by size; it shows that an arrangement always exists. */
  function SortBySize(c: seq<(Token, nat)>): (r: seq<(Token, nat)>)
    ensures |r| == |c|
  {
    if c == [] then [] else InsertBySize(c[0], SortBySize(c[1..]))
  }

  lemma {:induction false} SortBySizeArranges(c: seq<(Token, nat)>)
    ensures IsSortedArrangement(SortBySize(c), c)
  {
    if c != [] {
      SortBySizeArranges(c[1..]);
      InsertBySizeMembers(c[0], SortBySize(c[1..]));
      InsertBySizeSorted(c[0], SortBySize(c[1..]));
      assert c == [c[0]] + c[1..];
    }
  }

  /** The smallest size among the candidates. */
  function MinSize(c: seq<(Token, nat)>): (m: nat)
    requires c != []
    ensures forall i :: 0 <= i < |c| ==> m <= c[i].1
    ensures exists i :: 0 <= i < |c| && c[i].1 == m
  {
    if |c| == 1 then c[0].1
    else
      var rest := MinSize(c[1..]);
      assert forall i :: 1 <= i < |c| ==> c[i] == c[1..][i - 1];
      if c[0].1 <= rest then c[0].1 else rest
  }

  /** The first entry of a sorted arrangement has the smallest size. */
  lemma ArrangementHead(c: seq<(Token, nat)>, of: seq<(Token, nat)>)
    requires of != [] && IsSortedArrangement(c, of)
    ensures c != [] && c[0] in of && c[0].1 == MinSize(of)
  {
    assert of[0] in multiset(c);
    assert c[0] in multiset(of);
    forall e | e in of
      ensures c[0].1 <= e.1
    {
      assert e in multiset(c);
      var k :| 0 <= k < |c| && c[k] == e;
    }
    var i :| 0 <= i < |of| && of[i].1 == MinSize(of);
  }

  /** The size `predict_tokens` returns when `m` is the smallest candidate
      size: the recursive call of line 90 is made with the same prompt and
      ignores the candidate token, so its size never depends on which token
      is tried; a loop that takes no candidate returns `usize::MAX`. */
  function PredictedSize(m: nat, depth: nat, width: nat): nat
  {
    if depth == 0 then m
    else if width == 0 then USIZE_MAX
    else PredictedSize(m, depth - 1, width / 2)
  }

  function Pow2(n: nat): (r: nat)
    ensures r >= 1
  {
    if n == 0 then 1 else 2 * Pow2(n - 1)
  }

  /** The search yields either the smallest size or `usize::MAX`. */
  lemma {:induction false} PredictedSizeValues(m: nat, depth: nat, width: nat)
    ensures PredictedSize(m, depth, width) == m || PredictedSize(m, depth, width) == USIZE_MAX
  {
    if depth > 0 && width > 0 {
      PredictedSizeValues(m, depth - 1, width / 2);
    }
  }

  /** The search finds the smallest size exactly when the width survives
      `depth - 1` halvings, and gives `usize::MAX` otherwise; in particular a
      search of depth 1 and width at least 1 returns the depth-0 minimum. */
  lemma {:induction false} PredictedSizeClosedForm(m: nat, depth: nat, width: nat)
    ensures PredictedSize(m, depth, width)
      == if depth == 0 || width >= Pow2(depth - 1) then m else USIZE_MAX
  {
    if depth > 1 && width > 0 {
      PredictedSizeClosedForm(m, depth - 1, width / 2);
      assert (width / 2 >= Pow2(depth - 2)) == (width >= Pow2(depth - 1));
    }
  }

  /** `c.shuffle(..)` then `c.sort_by(size)`: any of the sorted arrangements. */
  method ShuffleAndSort(sizes: seq<(Token, nat)>) returns (c: seq<(Token, nat)>)
    requires sizes != []
    ensures IsSortedArrangement(c, sizes)
    ensures |c| == |sizes| && c[0] in sizes && c[0].1 == MinSize(sizes)
  {
    SortBySizeArranges(sizes);
    c :| IsSortedArrangement(c, sizes);
    ArrangementHead(c, sizes);
    assert |multiset(c)| == |multiset(sizes)|;
  }

  /** `ClmModel::predict_tokens`. Every call shuffles and sorts the candidates
      afresh, so any sorted arrangement may come out of the sort. */
  method PredictTokens(compress: TokenCompressor, tokens: seq<Token>, depth: nat, width: nat) returns (r: (Token, nat))
    ensures r.1 == PredictedSize(MinSize(NextTokenSizes(compress, tokens)), depth, width)
    ensures r.1 < USIZE_MAX ==> r in NextTokenSizes(compress, tokens)
    ensures depth > 0 && r.1 == USIZE_MAX ==> r.0 == 0
    decreases depth
  {
    var sizes := NextTokenSizes(compress, tokens);
    var m := MinSize(sizes);
    var c := ShuffleAndSort(sizes);
    if depth == 0 {
      return c[0];
    }
    var next := PredictedSize(m, depth - 1, width / 2);
    PredictedSizeValues(m, depth - 1, width / 2);
    // what `best` holds once the first candidate has been tried
    ghost var winner: (Token, nat) := if next < USIZE_MAX then c[0] else (0, USIZE_MAX);
    assert winner == (if next < USIZE_MAX then c[0].0 else 0, next);
    var best: (Token, nat) := (0, USIZE_MAX);
    var taken := if width <= |c| then width else |c|;
    for i := 0 to taken
      invariant i == 0 ==> best == (0, USIZE_MAX)
      invariant i > 0 ==> best == winner
    {
      var token := c[i].0;
      var nextPrediction := PredictTokens(compress, tokens, depth - 1, width / 2);
      if nextPrediction.1 < best.1 {
        best := (token, nextPrediction.1);
      }
    }
    r := best;
  }

  /** The tokenizer's `decode`, or `fallback` when it fails (`unwrap_or`). */
  function DecodedOr(decode: seq<Token> -> Option<string>, tokens: seq<Token>, fallback: string): string
  {
    match decode(tokens)
    case Some(text) => text
    case None => fallback
  }

  /** `predict_next` (lines 49-54): the prompt's tokens, the predicted token
      appended, decoded; `next` is the prediction made. The tokenizer's
      `encode_ordinary` and `decode` are the parameters `encode` and
      `decode`. */
  method PredictNext(compress: TokenCompressor, encode: string -> seq<Token>,
                     decode: seq<Token> -> Option<string>, prompt: string, depth: nat, width: nat)
    returns (text: string, ghost next: (Token, nat))
    ensures next.1 == PredictedSize(MinSize(NextTokenSizes(compress, encode(prompt))), depth, width)
    ensures next.1 < USIZE_MAX ==> next in NextTokenSizes(compress, encode(prompt))
    ensures text == DecodedOr(decode, encode(prompt) + [next.0], prompt + "<error>")
  {
    var tokens := encode(prompt);
    var prediction := PredictTokens(compress, tokens, depth, width);
    next := prediction;
    tokens := tokens + [prediction.0];
    text := DecodedOr(decode, tokens, prompt + "<error>");
  }

  /** `compress_together` (lines 98-102): the compressed size of the prompt
      followed by the tokens, which is zstd applied to the prompt's bytes
      followed by the tokens' bytes. */
  function CompressTogether(codec: Codec, prompt: seq<Token>, tokens: seq<Token>): (n: nat)
    ensures n == |codec.compress(TokensToBytes(prompt) + TokensToBytes(tokens))|
  {
    TokensToBytesAppend(prompt, tokens);
    |Compress(codec, prompt + tokens)|
  }

  // ---------------------------------------------------------------------
  // evaluate (lines 119-129), without the final floating-point ratio

  /** Positions at which two token lists agree, over the shorter length
      (`zip` then `filter(a == b).count()`). */
  function MatchCount(a: seq<Token>, b: seq<Token>): (n: nat)
    ensures n <= |a| && n <= |b|
  {
    if a == [] || b == [] then 0
    else (if a[0] == b[0] then 1 else 0) + MatchCount(a[1..], b[1..])
  }

  lemma {:induction false} MatchCountSelf(a: seq<Token>)
    ensures MatchCount(a, a) == |a|
  {
    if a != [] {
      MatchCountSelf(a[1..]);
    }
  }

  /** What one test line comes back as: compressed, then decompressed. */
  type RoundTrip = seq<Token> -> Outcome<seq<Token>>

  /** The model's round trip, `decompress_to_tokens(&compress(tokens))`. */
  function RoundTripOf(codec: Codec): RoundTrip
  {
    tokens => DecompressedTokens(codec, Compress(codec, tokens))
  }

  /** The `(correct, total)` contribution of one test line, or the panic its
      decompression raises. */
  function LineCounts(roundTrip: RoundTrip, line: seq<Token>): Outcome<(nat, nat)>
  {
    match roundTrip(line)
    case Panicked(why) => Panicked(why)
    case Returned(decompressed) => Returned((MatchCount(line, decompressed), |line|))
  }

  /** The `(correct, total)` counts over `data`, or the panic of the first
      line whose decompression fails. Defined from the end, the order in
      which the loop of `evaluate` accumulates its prefix. */
  function EvaluateCounts(roundTrip: RoundTrip, data: seq<seq<Token>>): Outcome<(nat, nat)>
  {
    if data == [] then Returned((0, 0))
    else
      match EvaluateCounts(roundTrip, data[..|data| - 1])
      case Panicked(why) => Panicked(why)
      case Returned(counts) =>
        match LineCounts(roundTrip, data[|data| - 1])
        case Panicked(why) => Panicked(why)
        case Returned(line) => Returned((counts.0 + line.0, counts.1 + line.1))
  }

  /** `correct` never exceeds `total`, and `total` is the number of test tokens. */
  lemma {:induction false} EvaluateCountsBound(roundTrip: RoundTrip, data: seq<seq<Token>>)
    ensures EvaluateCounts(roundTrip, data).Returned? ==>
      EvaluateCounts(roundTrip, data).value.0 <= EvaluateCounts(roundTrip, data).value.1
      && EvaluateCounts(roundTrip, data).value.1 == TotalLength(data)
  {
    if data != [] {
      EvaluateCountsBound(roundTrip, data[..|data| - 1]);
      TotalLengthSnoc(data);
    }
  }

  /** Lines that all come back unchanged score every token. */
  lemma {:induction false} EvaluateCountsExact(roundTrip: RoundTrip, data: seq<seq<Token>>)
    requires forall i :: 0 <= i < |data| ==> roundTrip(data[i]) == Returned(data[i])
    ensures EvaluateCounts(roundTrip, data) == Returned((TotalLength(data), TotalLength(data)))
  {
    if data != [] {
      var init := data[..|data| - 1];
      assert forall i :: 0 <= i < |init| ==> init[i] == data[i];
      EvaluateCountsExact(roundTrip, init);
      MatchCountSelf(data[|data| - 1]);
      TotalLengthSnoc(data);
    }
  }

  /** Once a line panics, every longer prefix ends in that same panic. */
  lemma {:induction false} EvaluatePanicStays(roundTrip: RoundTrip, data: seq<seq<Token>>, k: nat)
    requires k <= |data| && EvaluateCounts(roundTrip, data[..k]).Panicked?
    ensures EvaluateCounts(roundTrip, data) == EvaluateCounts(roundTrip, data[..k])
    decreases |data| - k
  {
    if k < |data| {
      assert data[..k + 1][..k] == data[..k];
      EvaluatePanicStays(roundTrip, data, k + 1);
    } else {
      assert data[..k] == data;
    }
  }

  /** With a codec that loses nothing on the test lines, every token matches. */
  lemma EvaluateLossless(codec: Codec, data: seq<seq<Token>>)
    requires forall i :: 0 <= i < |data| ==> RoundTrips(codec, TokensToBytes(data[i]))
    ensures EvaluateCounts(RoundTripOf(codec), data) == Returned((TotalLength(data), TotalLength(data)))
  {
    forall i | 0 <= i < |data|
      ensures RoundTripOf(codec)(data[i]) == Returned(data[i])
    {
      CompressDecompressRoundTrip(codec, data[i]);
    }
    EvaluateCountsExact(RoundTripOf(codec), data);
  }

  /** `ClmModel::evaluate`: for each test line, compress, decompress, and
      count the tokens and the positions that came back unchanged. */
  method Evaluate(codec: Codec, testData: seq<seq<Token>>) returns (r: Outcome<(nat, nat)>)
    ensures r == EvaluateCounts(RoundTripOf(codec), testData)
  {
    r := EvaluateWith(codec, RoundTripOf(codec), testData);
  }

  /** `decompress_to_tokens(&compress(tokens))`, one line of `evaluate`. */
  method RoundTripLine(codec: Codec, ghost roundTrip: RoundTrip, tokens: seq<Token>)
    returns (r: Outcome<seq<Token>>)
    requires forall tokens {:trigger Compress(codec, tokens)} ::
      roundTrip(tokens) == DecompressedTokens(codec, Compress(codec, tokens))
    ensures r == roundTrip(tokens)
  {
    var compressed := Compress(codec, tokens);
    r := DecompressToTokens(codec, compressed);
  }

  /** The loop of `evaluate`, checked against any `roundTrip` that agrees
      with the model's compress and decompress. `counts` is the pair
      `(correct, total)` of the source; after `k` lines it holds their
      counts. */
  method EvaluateWith(codec: Codec, ghost roundTrip: RoundTrip, testData: seq<seq<Token>>)
    returns (r: Outcome<(nat, nat)>)
    requires forall tokens {:trigger Compress(codec, tokens)} ::
      roundTrip(tokens) == DecompressedTokens(codec, Compress(codec, tokens))
    ensures r == EvaluateCounts(roundTrip, testData)
  {
    var counts: (nat, nat) := (0, 0);
    var k := 0;
    while k < |testData|
      invariant k <= |testData|
      invariant EvaluateCounts(roundTrip, testData[..k]) == Returned(counts)
    {
      var tokens := testData[k];
      var decompressed := RoundTripLine(codec, roundTrip, tokens);
      assert testData[..k + 1][..k] == testData[..k];
      if decompressed.Panicked? {
        EvaluatePanicStays(roundTrip, testData, k + 1);
        return Panicked(decompressed.reason);
      }
      counts := (counts.0 + MatchCount(tokens, decompressed.value), counts.1 + |tokens|);
      k := k + 1;
    }
    assert testData[..k] == testData;
    r := Returned(counts);
  }
}
