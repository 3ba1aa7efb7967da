/** src/backend.rs: an earlier, self-contained version of the backend. Its
    `tokens_to_bytes` (lines 33-35), `tokenize_files` (lines 107-145),
    `compress` (lines 180-191) and `predict_tokens` (lines 207-243) are the
    same as the ones of src/backend/ and are modelled there (`TokensToBytes`,
    `Reduce`, `Compress`, `PredictTokens`). What differs is modelled here:
    the dictionary samples of `create_dictionary`, the decoder, which reads
    two-byte little-endian chunks, and the hill climb of
    `predict_tokens_diffusion`. */
module LegacyBackend {
  import opened Wrappers
  import opened Seqs
  import opened Backend
  import opened TrainingOptions
  import opened Trainer
  import opened ClmModel

  // ---------------------------------------------------------------------
  // create_dictionary (lines 46-105)

  /** The `ZDICT_fastCover_params_t` literal of lines 58-73. */
  function DictionaryParams(): (p: FastCoverParams)
    ensures p == ToZdictParams(Default())
  {
    FastCoverParams(50, 8, 25, 4, 8, 0.0, 1, 0, 0, ZdictParams(3, 4, 0))
  }

  /** `raw_data` and the scaled `sizes` built from what `tokenize_files`
      returns: the bytes of all tokens, and eight bytes per token of every
      line. The sizes add up to the buffer length, so the `assert_eq!` of
      line 54 never fires. */
  function DictionarySamples(tree: ReduceTree, encode: string -> seq<Token>): (r: (seq<Byte>, seq<nat>))
    ensures r.0 == TokensToBytes(Flatten(Encoded(tree.Lines(), encode)))
    ensures r.1 == SampleSizes(Encoded(tree.Lines(), encode))
    ensures Sum(r.1) == |r.0|
  {
    var (tokens, lengths) := Reduce(tree, encode);
    ReduceIsFold(tree, encode);
    SumScaled(lengths, BYTES_PER_TOKEN);
    (TokensToBytes(tokens), Scaled(lengths, BYTES_PER_TOKEN))
  }

  /** `create_dictionary` without the file write: the dictionary trained on
      every line, with a buffer as large as the samples, resized to what the
      trainer reports. */
  function CreateDictionary(tree: ReduceTree, encode: string -> seq<Token>, train: ZdictTrainer)
    : Outcome<seq<Byte>>
  {
    var (raw, sizes) := DictionarySamples(tree, encode);
    var (written, result) := train(Zeros(|raw|), raw, sizes, DictionaryParams());
    match result
    case ZdictError => Panicked("Failed to train dictionary")
    case ZdictSize(size) => Returned(Resize(written, size))
  }

  /** On at least one line, `create_dictionary` trains exactly what the later
      `train_model` trains on the tokenized lines with the default options
      and a buffer of 100% of the samples. */
  lemma CreateDictionaryIsTrainModel(tree: ReduceTree, encode: string -> seq<Token>, train: ZdictTrainer)
    requires tree.Lines() != []
    ensures CreateDictionary(tree, encode, train)
      == TrainModel(Encoded(tree.Lines(), encode), Default(),
                    |TokensToBytes(Flatten(Encoded(tree.Lines(), encode)))|, train)
  {
    RawDataIsTokenBytes(Encoded(tree.Lines(), encode));
  }

  // ---------------------------------------------------------------------
  // decompress_to_tokens (lines 147-160)

  /** `u16::from_le_bytes([lo, hi]) as Token`. */
  function LeU16(lo: Byte, hi: Byte): (t: Token)
    ensures t < 0x1_0000
  {
    lo as int + 256 * hi as int
  }

  /** `decompressed.chunks(2)`, each chunk read as `u16::from_le_bytes`; a
      final one-byte chunk makes `i[1]` index out of bounds. */
  function LeChunks(bytes: seq<Byte>): Option<seq<Token>>
    decreases |bytes|
  {
    if bytes == [] then Some([])
    else if |bytes| < 2 then None
    else
      match LeChunks(bytes[2..])
      case None => None
      case Some(rest) => Some([LeU16(bytes[0], bytes[1])] + rest)
  }

  /** The decoder succeeds exactly on even lengths, and then gives one token
      per two bytes. */
  lemma {:induction false} LeChunksLength(bytes: seq<Byte>)
    ensures LeChunks(bytes).Some? <==> |bytes| % 2 == 0
    ensures LeChunks(bytes).Some? ==> |LeChunks(bytes).value| == |bytes| / 2
    decreases |bytes|
  {
    if |bytes| >= 2 {
      LeChunksLength(bytes[2..]);
    }
  }

  /** Token `i` is read from bytes `2i` and `2i + 1`, the first being the low
      one. */
  lemma {:induction false} LeChunksValues(bytes: seq<Byte>, i: nat)
    requires LeChunks(bytes).Some? && i < |LeChunks(bytes).value|
    ensures 2 * i + 1 < |bytes|
    ensures LeChunks(bytes).value[i] == LeU16(bytes[2 * i], bytes[2 * i + 1])
    decreases |bytes|
  {
    LeChunksLength(bytes);
    if i > 0 {
      var rest := bytes[2..];
      LeChunksValues(rest, i - 1);
      assert rest[2 * (i - 1)] == bytes[2 * i];
      assert rest[2 * (i - 1) + 1] == bytes[2 * i + 1];
    }
  }

  /** What the legacy `decompress_to_tokens` returns or why it panics. */
  function LegacyDecompressed(codec: Codec, compressed: seq<Byte>): Outcome<seq<Token>>
  {
    match codec.decompress(compressed)
    case None => Panicked("zstd decoder failed")
    case Some(bytes) =>
      match LeChunks(bytes)
      case None => Panicked("index out of bounds")
      case Some(tokens) => Returned(tokens)
  }

  /** The legacy `decompress_to_tokens`: the chunk loop pushing one token per
      two bytes. */
  method LegacyDecompressToTokens(codec: Codec, compressed: seq<Byte>) returns (r: Outcome<seq<Token>>)
    ensures r == LegacyDecompressed(codec, compressed)
  {
    var decoded := codec.decompress(compressed);
    if decoded.None? {
      return Panicked("zstd decoder failed");
    }
    var decompressed := decoded.value;
    var tokens: seq<Token> := [];
    var i := 0;
    assert decompressed[i..] == decompressed;
    assert Prepend(tokens, LeChunks(decompressed)) == LeChunks(decompressed) by {
      if LeChunks(decompressed).Some? {
        assert tokens + LeChunks(decompressed).value == LeChunks(decompressed).value;
      }
    }
    while i < |decompressed|
      invariant 0 <= i <= |decompressed|
      invariant LeChunks(decompressed) == Prepend(tokens, LeChunks(decompressed[i..]))
      decreases |decompressed| - i
    {
      var end := if i + 2 <= |decompressed| then i + 2 else |decompressed|;
      var chunk := decompressed[i..end];
      if |chunk| < 2 {
        return Panicked("index out of bounds");
      }
      var rest := decompressed[i..];
      assert rest[2..] == decompressed[end..];
      var token := LeU16(chunk[0], chunk[1]);
      var later := LeChunks(decompressed[end..]);
      assert LeChunks(rest) == Prepend([token], later);
      if later.Some? {
        assert tokens + ([token] + later.value) == (tokens + [token]) + later.value;
      }
      tokens := tokens + [token];
      i := end;
    }
    assert decompressed[i..] == [];
    assert tokens + [] == tokens;
    r := Returned(tokens);
  }

  /** The encoder writes eight bytes per token and this decoder reads two, so
      no non-empty token list survives the round trip: it always comes back
      four times as long. */
  lemma LegacyRoundTripLength(tokens: seq<Token>)
    ensures LeChunks(TokensToBytes(tokens)).Some?
    ensures |LeChunks(TokensToBytes(tokens)).value| == 4 * |tokens|
    ensures tokens != [] ==> LeChunks(TokensToBytes(tokens)) != Some(tokens)
  {
    var b := TokensToBytes(tokens);
    var n := 4 * |tokens|;
    assert |b| == 2 * n;
    assert |b| % 2 == 0 && |b| / 2 == n;
    LeChunksLength(b);
  }

  /** The big-endian bytes of a number below 256: zeros, then the number. */
  lemma {:induction false} BeBytesOfSmall(x: nat, n: nat)
    requires n >= 1 && x < 256
    ensures BeBytes(x, n) == Zeros(n - 1) + [x]
  {
    if n > 1 {
      BeBytesOfSmall(0, n - 1);
      assert Zeros(n - 2) + [0] == Zeros(n - 1);
    }
  }

  /** The eight bytes of token 1, read two at a time. */
  lemma LegacyDecodeOne()
    ensures LeChunks(TokensToBytes([1])) == Some([0, 0, 0, 256])
  {
    var b := TokensToBytes([1]);
    assert [1][1..] == [];
    assert b == TokenToBeBytes(1) + TokensToBytes([]);
    BeBytesOfSmall(1, BYTES_PER_TOKEN);
    assert b == [0, 0, 0, 0, 0, 0, 0, 1];
    LeChunksLength(b);
    var t := LeChunks(b).value;
    LeChunksValues(b, 0);
    LeChunksValues(b, 1);
    LeChunksValues(b, 2);
    LeChunksValues(b, 3);
    assert t == [0, 0, 0, 256];
  }

  /** The round trip of the test at lines 317-329 fails: even with a
      lossless codec, the token list `[1]`, that is the bytes 0 0 0 0 0 0 0 1,
      comes back as `[0, 0, 0, 256]`. */
  lemma LegacyRoundTripFails(codec: Codec)
    requires RoundTrips(codec, TokensToBytes([1]))
    ensures LegacyDecompressed(codec, Compress(codec, [1])) == Returned([0, 0, 0, 256])
  {
    LegacyDecodeOne();
  }

  // ---------------------------------------------------------------------
  // compress_with_prompt (lines 245-249) and predict_tokens_diffusion
  // (lines 251-273)

  /** `(1..20)`: the number of tokens the diffusion guesses. */
  const DIFFUSION_LENGTH: nat := 19
  /** `0..1000000`: the number of mutations tried. */
  const DIFFUSION_ROUNDS: nat := 1000000

  /** `compress_with_prompt`: the compressed size of the prompt followed by
      the tokens. */
  function CompressWithPrompt(compress: TokenCompressor, prompt: seq<Token>, tokens: seq<Token>): nat
  {
    |compress(prompt + tokens)|
  }

  /** With the model's own compressor it is `compress_together`. */
  lemma CompressWithPromptIsCompressTogether(codec: Codec, prompt: seq<Token>, tokens: seq<Token>)
    ensures CompressWithPrompt(t => Compress(codec, t), prompt, tokens)
      == CompressTogether(codec, prompt, tokens)
  {
  }

  /** A random draw of the loop: the index `gen_range(0..len)` and the new
      token `gen_range(0..MAX_TOKEN)`. */
  type Mutation = (nat, Token)

  /** The random draws are in their ranges from round `from` on. */
  predicate ValidDraws(draws: nat -> Mutation, from: nat)
  {
    forall i: nat :: from <= i < DIFFUSION_ROUNDS ==>
      draws(i).0 < DIFFUSION_LENGTH && draws(i).1 < MAX_TOKEN
  }

  /** Every token of the guess is one `gen_range(0..MAX_TOKEN)` can draw. */
  predicate InTokenRange(tokens: seq<Token>)
  {
    forall i :: 0 <= i < |tokens| ==> tokens[i] < MAX_TOKEN
  }

  /** One round: the mutated guess replaces the current one only when it
      compresses strictly better. */
  function DiffusionStep(compress: TokenCompressor, prompt: seq<Token>, current: seq<Token>, m: Mutation)
    : (r: seq<Token>)
    requires m.0 < |current|
    ensures |r| == |current|
    ensures CompressWithPrompt(compress, prompt, r) <= CompressWithPrompt(compress, prompt, current)
    ensures r == current || (r == current[m.0 := m.1]
      && CompressWithPrompt(compress, prompt, r) < CompressWithPrompt(compress, prompt, current))
  {
    var next := current[m.0 := m.1];
    if CompressWithPrompt(compress, prompt, next) < CompressWithPrompt(compress, prompt, current)
    then next else current
  }

  /** The guess after rounds `from` to the end. */
  function Diffusion(compress: TokenCompressor, prompt: seq<Token>, current: seq<Token>,
                     draws: nat -> Mutation, from: nat): seq<Token>
    requires |current| == DIFFUSION_LENGTH && ValidDraws(draws, from)
    decreases DIFFUSION_ROUNDS - from
  {
    if from >= DIFFUSION_ROUNDS then current
    else Diffusion(compress, prompt, DiffusionStep(compress, prompt, current, draws(from)), draws, from + 1)
  }

  /** The hill climb keeps the guess at nineteen tokens a random draw could
      produce, and never makes it compress worse. */
  lemma {:induction false} DiffusionDescends(compress: TokenCompressor, prompt: seq<Token>,
                                             current: seq<Token>, draws: nat -> Mutation, from: nat)
    requires |current| == DIFFUSION_LENGTH && ValidDraws(draws, from)
    ensures |Diffusion(compress, prompt, current, draws, from)| == DIFFUSION_LENGTH
    ensures InTokenRange(current) ==> InTokenRange(Diffusion(compress, prompt, current, draws, from))
    ensures CompressWithPrompt(compress, prompt, Diffusion(compress, prompt, current, draws, from))
      <= CompressWithPrompt(compress, prompt, current)
    decreases DIFFUSION_ROUNDS - from
  {
    if from < DIFFUSION_ROUNDS {
      var next := DiffusionStep(compress, prompt, current, draws(from));
      DiffusionDescends(compress, prompt, next, draws, from + 1);
    }
  }

  /** `predict_tokens_diffusion`: the random start guess and the random draws
      of every round come in as `start` and `draws`. */
  method PredictTokensDiffusion(compress: TokenCompressor, prompt: seq<Token>, start: seq<Token>,
                                draws: nat -> Mutation) returns (r: seq<Token>)
    requires |start| == DIFFUSION_LENGTH && InTokenRange(start) && ValidDraws(draws, 0)
    ensures r == Diffusion(compress, prompt, start, draws, 0)
    ensures |r| == DIFFUSION_LENGTH && InTokenRange(r)
    ensures CompressWithPrompt(compress, prompt, r) <= CompressWithPrompt(compress, prompt, start)
  {
    var currentTokens: seq<Token> := start;
    var currentCompression := CompressWithPrompt(compress, prompt, currentTokens);
    for i := 0 to DIFFUSION_ROUNDS
      invariant |currentTokens| == DIFFUSION_LENGTH
      invariant currentCompression == CompressWithPrompt(compress, prompt, currentTokens)
      invariant Diffusion(compress, prompt, start, draws, 0)
        == Diffusion(compress, prompt, currentTokens, draws, i)
    {
      var (randomIndex, value) := draws(i);
      var nextTokens := currentTokens[randomIndex := value];
      var nextCompression := CompressWithPrompt(compress, prompt, nextTokens);
      if nextCompression < currentCompression {
        currentTokens := nextTokens;
        currentCompression := nextCompression;
      }
    }
    DiffusionDescends(compress, prompt, start, draws, 0);
    r := currentTokens;
  }
}
