# ChatCLM, modelled in Dafny

ChatCLM is a "compression language model". It trains a zstd dictionary on a
tokenised text corpus. To predict the next token of a prompt, it appends each
candidate token to the prompt's tokens, compresses the result with the
dictionary, and picks the token whose compressed size is smallest. A web
frontend offers this model next to a few stand-ins and keeps a chat history.
Two Python scripts go with it:
- `train_tokenizer.py` prepares tokenizer training data by dropping rare
  characters;
- `tune.py` drives a hyper-parameter sweep over the Rust tuning binary.

The model covers these parts:

- **Token bytes** (`Backend`). Every compressor call goes through the
  token-to-byte encoding: eight big-endian bytes per `usize` token. The
  corpus line cleaner (`^\d+\s` removed) and the (tokens, lengths)
  reduction of `tokenize_files` are modelled too. The rayon reduction runs in
  parallel, so it is an arbitrary binary tree over the lines.
- **The compression model** (`ClmModel`).
  - zstd stays abstract. A `Codec` is a pair of functions: a total compressor
    and a partial decompressor. A failing decompressor means an `unwrap`
    panic.
  - Modelled on top of it:
    - decompression back to tokens;
    - the candidate sizes for the next token;
    - the shuffle-then-sort and the depth/width search of `predict_tokens`;
    - `predict_next` and `compress_together`;
    - the counting loop of `evaluate`.
- **Datasets** (`Dataset`): `shrink_to_size`, `join_lines`,
  `split_into_chunks`, `split_train_test` and the trivial accessors.
- **Training** (`TrainingOptions`, `Trainer`):
  - the option record and its translation to the ZDICT fastCover parameters;
  - `train_model`'s samples, buffer, error check and resize around the ZDICT
    call, which stays a parameter.
- **The earlier backend** (`LegacyBackend`, `src/backend.rs`). Its
  `tokens_to_bytes`, `tokenize_files`, `compress` and `predict_tokens` are
  the same behaviour as in `src/backend/`. They share the members listed for
  those. The parts that differ are modelled here:
  - the dictionary samples of `create_dictionary`;
  - the two-byte little-endian decoder;
  - the random hill climb of `predict_tokens_diffusion`. Its random draws
    are a parameter.
- **The frontend** (`Chat`, `FrontendModels`):
  - the chat history, as a class whose message list the methods update;
  - the model list;
  - the dispatch of a next-token request;
  - `cut_prompt`, built on Rust's `str::trim` (module `Text`).
- **The Python scripts** (`TrainTokenizer`, `Tune`):
  - the two passes of `data_iterator`;
  - the parameter copy of `evaluate`;
  - the "last output line as JSON" rule, through an exact model of Python's
    `str.splitlines`.

Integers are unbounded in Dafny. `usize` is bounded explicitly where it
matters: the `usize::MAX` sentinel of the search, the `u32 as c_int` cast of
the compression level, and the saturating `f64 as usize` of a division by a
zero chunk count.

Three behaviours of the code that are easy to misread:
- `tune.py` decodes the very last element of `splitlines()`, which may be an
  empty line. It is not the last non-empty line.
- A JSON value that is not an object is passed to `wandb.log` unchanged.
- The removal set of `train_tokenizer.py` holds characters seen at most
  twice, although its name and comment say "once".

## Model

| member | source | states |
|---|---|---|
| Backend.Pow256Eight | src/backend/mod.rs:25-26 | 256^8 = 2^64: eight bytes hold exactly the range of a 64-bit `usize` token |
| Backend.BeValueOfBytes | src/backend/mod.rs:29-31 | reading back the n big-endian bytes of any value below 256^n gives that value |
| Backend.BeBytesOfValue | src/backend/mod.rs:29-31 | re-encoding the big-endian value of any byte string gives the same bytes |
| Backend.TokenBytesRoundTrip | src/backend/mod.rs:29-31 | `from_be_bytes(to_be_bytes(t)) == t` for every token |
| Backend.TokenFromBeBytesInverse | src/backend/clm_model.rs:113 | every 8-byte chunk is the encoding of the token read from it |
| Backend.TokensToBytes | src/backend/mod.rs:29-31 | the encoding of n tokens is 8·n bytes long |
| Backend.TokensToBytesAppend | src/backend/mod.rs:29-31 | encoding distributes over concatenation of token lists |
| Backend.TokensToBytesChunk | src/backend/mod.rs:29-31 | bytes 8i..8i+8 of the encoding are exactly the big-endian bytes of token i |
| Backend.DigitRun | src/backend/mod.rs:43 | the longest run of leading ASCII digits: all of them digits, the next character not |
| Backend.StripLinePrefix | src/backend/mod.rs:64 | the line is the matched prefix followed by the result |
| Backend.StripLinePrefixMatches | src/backend/mod.rs:43 | a match is one or more digits then one whitespace character, and it is removed; without a match the line is unchanged and no digit run is followed by whitespace |
| Backend.Combine | src/backend/mod.rs:71-78 | the reduce step keeps every accumulator consistent: its lengths sum to its token count |
| Backend.EncodedAppend | src/backend/mod.rs:63-65 | cleaning and tokenising line by line distributes over concatenation of line lists |
| Backend.ReduceIsFold | src/backend/mod.rs:55-78 | whatever tree the parallel reduction forms, it yields the concatenated tokens of the lines in order and their lengths, one per line |
| Backend.TokenToBeBytes | src/backend/mod.rs:30 | `to_be_bytes`: eight bytes per token; TokenBytesRoundTrip and TokenToBeBytesValue give their value |
| Backend.TokenFromBeBytes | src/backend/clm_model.rs:113 | `from_be_bytes` of an 8-byte chunk; TokenBytesRoundTrip and TokenFromBeBytesInverse make it the inverse of TokenToBeBytes |
| Backend.PrefixMatchLength | src/backend/mod.rs:43 | the length of the `^\d+\s` match, at most the line; StripLinePrefixMatches says what it matches |
| Backend.Encoded | src/backend/mod.rs:63-65 | one token list per line, cleaned and encoded; EncodedAppend and ReduceIsFold characterise it |
| Backend.Reduce | src/backend/mod.rs:66-78 | the rayon reduction over a tree of lines; ReduceIsFold states its result |
| Backend.TokenizeLines | src/backend/mod.rs:41-79 | the same (tokens, lengths) pair computed line by line in a loop; the lengths sum to the token count |
| ClmModel.Compress | src/backend/clm_model.rs:39-47 | zstd with the dictionary applied to the token bytes; CompressDecompressRoundTrip relates it to decompression |
| ClmModel.DecodeBeChunks | src/backend/clm_model.rs:111-116 | the chunk loop's decoding; DecodeBeChunksSpec and DecodeOfEncode characterise it |
| ClmModel.DecompressedTokens | src/backend/clm_model.rs:104-117 | decompression then chunk decoding, panicking on either failure; CompressDecompressRoundTrip states the round trip |
| ClmModel.DecodeBeChunksSpec | src/backend/clm_model.rs:111-116 | chunked decoding succeeds exactly when the byte count is a multiple of 8, and then yields n/8 tokens that re-encode to the input |
| ClmModel.DecodeOfEncode | src/backend/clm_model.rs:104-117 | decoding the bytes of a token list gives back that list |
| ClmModel.DecompressToTokens | src/backend/clm_model.rs:104-117 | the loop over 8-byte chunks decodes as the specification does, panicking when zstd fails or a trailing chunk is short |
| ClmModel.CompressDecompressRoundTrip | src/backend/mod.rs:128-136 | when zstd restores its input, `decompress_to_tokens(compress(tokens)) == tokens` |
| ClmModel.NextTokenSizes | src/backend/clm_model.rs:56-65 | one entry per token 1..50279: the token and the compressed size of the prompt followed by it |
| ClmModel.NextTokenSizesCandidates | src/backend/clm_model.rs:56-65 | a pair is a candidate iff its token is in 1..50279 and its size is that token's compressed size; the tokens are distinct |
| ClmModel.InsertBySizeMembers | src/backend/clm_model.rs:77 | the insertion step of the sort adds exactly the inserted element (multiset) |
| ClmModel.InsertBySizeSorted | src/backend/clm_model.rs:77 | inserting into a list sorted by size keeps it sorted |
| ClmModel.SortBySizeArranges | src/backend/clm_model.rs:75-77 | the sort yields a permutation of its input ordered by size |
| ClmModel.MinSize | src/backend/clm_model.rs:84-86 | the smallest size of a non-empty candidate list, attained by some entry |
| ClmModel.ArrangementHead | src/backend/clm_model.rs:84-86 | the first element of any size-sorted arrangement is a candidate of smallest size |
| ClmModel.ShuffleAndSort | src/backend/clm_model.rs:75-77 | shuffle then sort gives some size-sorted permutation whose head has the smallest size |
| ClmModel.SortBySize | src/backend/clm_model.rs:77 | a stable insertion sort by size, keeping the length; SortBySizeArranges makes it a sorted permutation |
| ClmModel.PredictedSize | src/backend/clm_model.rs:72-96 | the size the search reports; PredictedSizeValues and PredictedSizeClosedForm give its value |
| ClmModel.PredictedSizeValues | src/backend/clm_model.rs:84-95 | the search reports either the smallest candidate size or the `usize::MAX` sentinel |
| ClmModel.PredictedSizeClosedForm | src/backend/clm_model.rs:84-95 | the reported size is the smallest candidate size iff depth is 0 or the width survives depth−1 halvings, i.e. width ≥ 2^(depth−1); otherwise it is `usize::MAX` |
| ClmModel.PredictTokens | src/backend/clm_model.rs:72-96 | the recursive search returns that size, a genuine candidate whenever the size is below `usize::MAX`, and token 0 when a positive-depth search keeps its sentinel |
| ClmModel.PredictNext | src/backend/clm_model.rs:49-54 | the prompt's tokens plus the predicted token, decoded, or the prompt followed by `<error>` |
| ClmModel.CompressTogether | src/backend/clm_model.rs:98-102 | the compressed size of the bytes of the prompt followed by those of the tokens |
| ClmModel.MatchCount | src/backend/clm_model.rs:126 | the number of equal positions in the zip of two lists, bounded by both lengths |
| ClmModel.MatchCountSelf | src/backend/clm_model.rs:126 | a list matches itself everywhere |
| ClmModel.EvaluateCounts | src/backend/clm_model.rs:119-129 | the (correct, total) counts or the first panic; EvaluateCountsBound, EvaluateCountsExact and EvaluatePanicStays characterise it |
| ClmModel.EvaluateCountsBound | src/backend/clm_model.rs:119-129 | without a panic, correct ≤ total and total is the number of test tokens |
| ClmModel.EvaluateCountsExact | src/backend/clm_model.rs:119-129 | if every line comes back unchanged, correct = total = number of test tokens |
| ClmModel.EvaluatePanicStays | src/backend/clm_model.rs:122-124 | once one line's decompression panics, `evaluate` panics with that reason whatever follows |
| ClmModel.EvaluateLossless | src/backend/clm_model.rs:119-129 | with a lossless codec the evaluation counts every token as correct |
| ClmModel.Evaluate | src/backend/clm_model.rs:119-129 | the loop computes the (correct, total) counts of the specification, or its panic |
| ClmModel.RoundTripLine | src/backend/clm_model.rs:123-124 | one line compressed and decompressed is the given round trip of it |
| ClmModel.EvaluateWith | src/backend/clm_model.rs:119-129 | the loop computes the specification's counts for any round trip that matches the codec |
| Dataset.Shrunk | src/backend/dataset.rs:113-131 | shrinking keeps one entry per line |
| Dataset.ShrunkAt | src/backend/dataset.rs:117-127 | line i keeps the prefix of it that fits in what is left of the budget after lines 0..i |
| Dataset.ShrunkShape | src/backend/dataset.rs:117-127 | every kept line is a prefix of the original line |
| Dataset.ShrunkTotal | src/backend/dataset.rs:234-238 | the shrunk dataset holds min(budget, total) tokens |
| Dataset.ShrunkEmptyTail | src/backend/dataset.rs:117-127 | once the lines so far reach the budget, every later line is empty |
| Dataset.ShrinkToSize | src/backend/dataset.rs:113-131 | the loop builds the shrunk dataset; its "over budget" branch is never taken |
| Dataset.JoinStep | src/backend/dataset.rs:136-142 | one step of the fold: start a line, or extend the last one while it is shorter than `chunk_size` |
| Dataset.Joined | src/backend/dataset.rs:134-147 | the fold over all lines; JoinedKeepsTokens and JoinedShape characterise it |
| Dataset.JoinedKeepsTokens | src/backend/dataset.rs:134-147 | joining keeps every token, in order |
| Dataset.JoinedShape | src/backend/dataset.rs:250-257 | joining never adds lines, keeps emptiness, and every joined line but the last has at least `chunk_size` tokens |
| Dataset.JoinLines | src/backend/dataset.rs:134-147 | the fold computes the joined dataset |
| Dataset.ChunkSize | src/backend/dataset.rs:155 | the ceiling of n / count, `usize::MAX` for a zero count; CeilDivBounds characterises it |
| Dataset.Chunks | src/backend/dataset.rs:157 | `slice::chunks(size)`; ChunksFlatten and ChunksShape characterise it |
| Dataset.CeilDivBounds | src/backend/dataset.rs:155 | the chunk size is the ceiling of n / count: at least 1, count chunks cover n, one fewer token per chunk would not |
| Dataset.ChunksFlatten | src/backend/dataset.rs:157 | the chunks concatenate back to the lines |
| Dataset.ChunksShape | src/backend/dataset.rs:157 | every chunk has 1..size lines, all but the last exactly size, and there are ⌈n/size⌉ of them |
| Dataset.SplitIntoChunks | src/backend/dataset.rs:149-158 | the panic on an empty dataset, else the chunks as datasets; SplitIntoChunksSpec characterises it |
| Dataset.SplitIntoChunksSpec | src/backend/dataset.rs:149-158 | it panics iff the dataset is empty; otherwise the parts are non-empty, concatenate to the data, all but the last have the chunk size, there are between 1 and `chunk_count` of them, and a zero count gives the whole dataset as one part |
| Dataset.SplitIntoChunksExact | src/backend/dataset.rs:242-247 | when the count divides the number of lines there are exactly `chunk_count` parts |
| Dataset.SplitIntoChunksMayFallShort | src/backend/dataset.rs:155-157 | nine lines split into four chunks give only three |
| Dataset.SplitTrainTest | src/backend/dataset.rs:66-70 | it succeeds iff the train size is at most the length (`split_at` panics otherwise); train and test concatenate back to the data and train has the train size |
| TrainingOptions.New | src/backend/training_options.rs:17-30 | the default option values d=8, f=25, k=50, steps=4, 8 threads, split 0, accel 1, no shrinking, level 3 |
| TrainingOptions.Default | src/backend/training_options.rs:51-53 | `default()` is `new()` |
| TrainingOptions.U32AsI32 | src/backend/training_options.rs:44 | `u32 as c_int` keeps values below 2^31 and wraps larger ones to negatives |
| TrainingOptions.CastsInverse | src/backend/training_options.rs:44 | the two's-complement casts between u32 and i32 undo each other |
| TrainingOptions.ToZdictParams | src/backend/training_options.rs:32-49 | every option is copied to its ZDICT field, the level through the cast, notification level 4 and dictionary id 0 |
| TrainingOptions.ToZdictParamsInverse | src/backend/training_options.rs:32-49 | the options can be read back from the parameters |
| TrainingOptions.ToZdictParamsInjective | src/backend/training_options.rs:32-49 | different options give different parameters |
| TrainingOptions.DefaultParams | src/backend/training_options.rs:17-49 | the default options give the literal fastCover parameters also written out in the earlier backend |
| Trainer.SampleEncodings | src/backend/trainer.rs:14 | one byte string per sample, its tokens' big-endian bytes |
| Trainer.RawData | src/backend/trainer.rs:14 | the samples' bytes concatenated; RawDataIsTokenBytes and SampleAt characterise it |
| Trainer.SampleSizes | src/backend/trainer.rs:15 | one size per sample, 8 times its token count |
| Trainer.SampleSizesAreLengths | src/backend/trainer.rs:14-15 | the sizes are the lengths of the sample encodings |
| Trainer.SampleSizesSum | src/backend/trainer.rs:17 | the asserted equality holds for every input: the sizes sum to the raw data length |
| Trainer.RawDataIsTokenBytes | src/backend/trainer.rs:14 | the flattened sample bytes are the bytes of the flattened tokens |
| Trainer.SampleAt | src/backend/trainer.rs:14-15 | sample i sits in the raw data at the offset given by the sizes before it |
| Trainer.Zeros | src/backend/trainer.rs:18 | `vec![0u8; n]`: n zero bytes |
| Trainer.Resize | src/backend/trainer.rs:35 | `resize(size, 0)`: truncate or pad with zeros to the new size |
| Trainer.TrainModel | src/backend/trainer.rs:8-37 | no input gives the empty dictionary; otherwise it panics iff ZDICT reports an error, and else returns the buffer resized to the reported size, which for a trainer that writes in place and reports at most the capacity is the first `size` bytes it wrote |
| LegacyBackend.DictionaryParams | src/backend.rs:58-73 | the literal parameter block equals the translated default options |
| LegacyBackend.DictionarySamples | src/backend.rs:47-54 | the raw data are the tokens' bytes, the sizes 8 times the line lengths, and the asserted sum holds |
| LegacyBackend.CreateDictionary | src/backend.rs:46-94 | the trained dictionary or the panic; CreateDictionaryIsTrainModel relates it to `train_model` |
| LegacyBackend.CreateDictionaryIsTrainModel | src/backend.rs:46-94 | for a non-empty corpus it is `train_model` with default options and a buffer of the raw data size |
| LegacyBackend.LeU16 | src/backend.rs:156 | `u16::from_le_bytes` is below 2^16 |
| LegacyBackend.LeChunks | src/backend.rs:155-157 | the two-byte little-endian chunk loop; LeChunksLength and LeChunksValues characterise it |
| LegacyBackend.LegacyDecompressed | src/backend.rs:147-160 | decompression then two-byte decoding; LegacyRoundTripFails shows it does not invert compression |
| LegacyBackend.LeChunksLength | src/backend.rs:155-157 | two-byte decoding succeeds iff the byte count is even, yielding half as many tokens |
| LegacyBackend.LeChunksValues | src/backend.rs:155-157 | token i is the little-endian value of bytes 2i and 2i+1 |
| LegacyBackend.LegacyDecompressToTokens | src/backend.rs:147-160 | the loop decodes as the specification does, panicking when zstd fails |
| LegacyBackend.LegacyRoundTripLength | src/backend.rs:317-329 | decoding the encoder's bytes gives four times as many tokens, so never the original non-empty list |
| LegacyBackend.BeBytesOfSmall | src/backend.rs:33-35 | a value below 256 encodes as zeros followed by the value |
| LegacyBackend.LegacyDecodeOne | src/backend.rs:155-157 | the token list [1] comes back as [0, 0, 0, 256] |
| LegacyBackend.LegacyRoundTripFails | src/backend.rs:326-328 | even with a lossless codec the test's round trip of [1] yields [0, 0, 0, 256] |
| LegacyBackend.CompressWithPrompt | src/backend.rs:245-249 | the compressed size of prompt plus tokens; CompressWithPromptIsCompressTogether relates it to the newer function |
| LegacyBackend.CompressWithPromptIsCompressTogether | src/backend.rs:245-249 | `compress_with_prompt` is the newer `compress_together` |
| LegacyBackend.DiffusionStep | src/backend.rs:258-269 | one round keeps the length and either keeps the tokens or takes the mutation, which compresses strictly smaller |
| LegacyBackend.Diffusion | src/backend.rs:251-273 | the rounds of the hill climb from a given round on; DiffusionDescends characterises it |
| LegacyBackend.DiffusionDescends | src/backend.rs:257-270 | the rounds keep 19 in-range tokens and never increase the compressed size |
| LegacyBackend.PredictTokensDiffusion | src/backend.rs:251-273 | the loop returns the hill climb's result: 19 in-range tokens compressing no worse than the start |
| Chat.IsUserMsg | src/chat.rs:15-17 | the sender is the user; IsUserMsgExactly characterises it |
| Chat.IsUserMsgExactly | src/chat.rs:15-17 | a message is a user message iff it was not sent by ChatCLM |
| Chat.WithLastServerMessage | src/chat.rs:46-52 | replacing keeps the number of messages |
| Chat.WithLastServerMessageReplaces | src/chat.rs:46-52 | when the last message is ChatCLM's, only its text changes; time and sender stay |
| Chat.WithLastServerMessageKeeps | src/chat.rs:46-52 | an empty history, or one ending in a user message, is unchanged |
| Chat.WithLastServerMessageTwice | src/chat.rs:46-52 | replacing twice is replacing once with the second text |
| Chat.ChatHistory.constructor | src/chat.rs:28-31 | the default history is empty |
| Chat.ChatHistory.AddMessage | src/chat.rs:34-36 | the message is appended |
| Chat.ChatHistory.NewServerMessage | src/chat.rs:38-40 | a ChatCLM message with the given text and time is appended |
| Chat.ChatHistory.NewUserMessage | src/chat.rs:42-44 | a user message with the given text and time is appended |
| Chat.ChatHistory.ReplaceLastServerMessage | src/chat.rs:46-52 | the history becomes the replaced list, of the same length |
| FrontendModels.Name | src/model.rs:14-21 | the display name of each model; NamesDistinct shows they differ |
| FrontendModels.FromIndex | src/model.rs:23-31 | it returns a model iff the index is below 4, namely the model at that index; it panics otherwise |
| FrontendModels.FromIndexOfIndex | src/model.rs:23-31 | every model is found again from its index |
| FrontendModels.NamesDistinct | src/model.rs:14-21 | the four models have four different names |
| FrontendModels.ChatClmNextToken | src/model.rs:59-67 | nothing for prompts over 250 UTF-8 bytes; otherwise the prompt extended by a token of smallest compressed size, decoded |
| FrontendModels.Gpt4oNextToken | src/model.rs:69-83 | always `None` |
| FrontendModels.PredictNextToken | src/model.rs:35-42 | it panics iff the index is 4 or more; ChatCLM answers nothing for prompts over 250 bytes and otherwise the decoded prompt extended by a token of smallest compressed size; ChatGPT 4o answers nothing; the other two give the random reply |
| FrontendModels.CutPrompt | src/model.rs:93-101 | the result never starts or ends with whitespace |
| FrontendModels.CutPromptSelf | src/model.rs:93-101 | a reply equal to the prompt is cut to nothing |
| FrontendModels.CutPromptUnrelated | src/model.rs:98-99 | a reply not starting with the trimmed prompt comes back trimmed |
| FrontendModels.CutPromptOfContinuation | src/model.rs:93-101 | a reply that continues a trimmed prompt is cut to its continuation, trimmed |
| Text.Trim | src/model.rs:94-95 | `str::trim`, with no whitespace at either end; TrimIsMiddle and TrimUnique characterise it |
| Text.TrimStart | src/model.rs:94-95 | `trim_start` removes exactly the leading whitespace |
| Text.TrimEnd | src/model.rs:94-95 | `trim_end` removes exactly the trailing whitespace |
| Text.TrimIsMiddle | src/model.rs:94-95 | `trim` returns a middle slice with only whitespace removed on both sides and none left at its ends |
| Text.TrimUnique | src/model.rs:94-95 | that slice is the only one with these properties |
| Text.TrimIdempotent | src/model.rs:97 | trimming twice is trimming once |
| Text.TrimOfContinuation | src/model.rs:96-97 | after a non-empty trimmed head only the end of the rest is trimmed |
| Text.Utf8Len | src/model.rs:61 | `str::len` counts between 1 and 4 bytes per character |
| TrainTokenizer.CharCountPositive | train_tokenizer.py:15-22 | a character has a positive count iff it occurs in the text |
| TrainTokenizer.CountCharacters | train_tokenizer.py:15-22 | the counter has a key for exactly the characters of the data, each mapped to its number of occurrences |
| TrainTokenizer.Rare | train_tokenizer.py:24-26 | the characters of the data seen at most twice; RareCharacters and KeptAreFrequent characterise it |
| TrainTokenizer.RareCharacters | train_tokenizer.py:24-26 | the removal set is exactly the counted characters with count ≤ 2 |
| TrainTokenizer.WithoutChars | train_tokenizer.py:34 | the filtered line is no longer than the line and keeps only characters of it outside the removal set |
| TrainTokenizer.WithoutCharsAppend | train_tokenizer.py:34 | the filter distributes over concatenation, so it keeps the order of what it keeps |
| TrainTokenizer.WithoutCharsCount | train_tokenizer.py:34 | a removed character no longer occurs; every other character occurs as often as before |
| TrainTokenizer.DataIterator | train_tokenizer.py:10-35 | one yielded string per line: that line without the characters seen at most twice in the whole data |
| TrainTokenizer.KeptAreFrequent | train_tokenizer.py:24-35 | every character that survives occurs at least three times in the data |
| Tune.ParameterNames | tune.py:52 | the sweep's parameter names, in order |
| Tune.SearchSpaceWellFormed | tune.py:8-46 | every declared range has its minimum below its maximum, the value list is non-empty, and the six names are distinct |
| Tune.Selected | tune.py:51-53 | the copied dictionary has exactly the named keys, each with the run configuration's value |
| Tune.ConfDict | tune.py:51-53 | the loop succeeds iff every name is configured, and then builds exactly that dictionary; it raises `KeyError` otherwise |
| Tune.SplitLines | tune.py:71 | `splitlines()` gives no line for empty text only, and no line contains a boundary |
| Tune.SplitLinesAppend | tune.py:71 | text after a complete line splits independently of what precedes it |
| Tune.SplitLinesOfLine | tune.py:71 | a non-empty text without boundaries is a single line |
| Tune.SplitLinesOfTerminatedLine | tune.py:71 | such a text followed by `\n` is still that single line |
| Tune.ResultToLog | tune.py:69-78 | empty output logs `{}` |
| Tune.ResultIgnoresEarlierLines | tune.py:71 | only the last line matters: complete lines before it change nothing |
| Tune.ResultOfLastLine | tune.py:70-78 | a last line that is JSON is logged as decoded, anything else as `{}`, both for unterminated output and for output ending in `\n`, as `println!` leaves it |
| Tune.ResultOfTrailingBlankLine | tune.py:70-78 | output ending in a blank line logs `{}`, whatever precedes it |
| Tune.Evaluate | tune.py:48-78 | it raises iff a sweep parameter is missing from the run configuration; otherwise it logs the result of the binary's output for exactly the sweep's parameters |

## Left out

- File and process I/O are left out: dataset discovery by glob, file reading, msgpack and checkpoint files, dictionary files, SQLite, the tuning subprocess, `wandb.init`, and every `println!`/`print`, including the size histogram of `predict_tokens`. Files are modelled as the list of their lines.
- zstd itself is not modelled, because it is a foreign library. Its stream encoder and decoder are the `Codec` functions, and `ZDICT_optimizeTrainFromBuffer_fastCover` is the `ZdictTrainer` parameter.
- The tokenizers are not modelled, because they are outside libraries. The p50k/BPE `encode_ordinary` and `decode` are function parameters. The BPE training and normalisers of `train_tokenizer.py` (lines 37-58) are left out.
- Floating point is left out:
  - the accuracy ratio `correct / total` of `evaluate` (the model returns the two counts);
  - `next_token_distribution` (src/backend/clm_model.rs:66-70);
  - the `f32` fraction and rounding of `split_train_test` (the model takes the rounded train size);
  - the `f64` `dictionary_size_percentage` of `train_model`, which is not a field of `TrainingOptions` in the code. The buffer size is a parameter.
- Randomness is left out:
  - `shuffle` before the sort is any arrangement sorted by size;
  - `Dataset::shuffle` is not modelled;
  - the random start and mutations of `predict_tokens_diffusion` are parameters;
  - `random_next_token` is the `randomReply` parameter.
- Parallelism is left out. The `par_bridge` candidate order is fixed by token; the search shuffles it anyway. The rayon reduction is an arbitrary tree. Progress bars are not modelled.
- The Leptos UI components, `app.rs`, async server functions and the clock are not part of this model. The clock's text is a `timeIso` parameter of the chat methods.
- `src/tuning.rs`, `src/backend/ensemble_model.rs`, `src/backend/evaluation.rs` and `src/backend/tokenizer.rs` are not part of this model.
- Backend.DigitRun: the regex class `\d` is Unicode-aware in Rust, but it is modelled as ASCII digits only, because Unicode digit tables are not available.
- Tune.ResultToLog: `json.loads` is a parameter. A decoded value that is not an object goes to `wandb.log` unchanged; what wandb then does with it is not modelled.
- ClmModel.PredictTokens: the search is modelled for the candidate list of any token compressor. That the compressed sizes come from zstd is not modelled.

## Findings

| source | as written | input that shows it | evidently intended | confidence | as-written member | corrected member |
|---|---|---|---|---|---|---|
| src/backend.rs:154-157 | `decompress_to_tokens` reads two-byte little-endian chunks, but `tokens_to_bytes` writes eight big-endian bytes per token, so the `compress_data` test (line 328) cannot pass | the token list `[1]`, whose bytes `0,0,0,0,0,0,0,1` decode to `[0, 0, 0, 256]` | eight-byte big-endian chunks, as the decoder of src/backend/clm_model.rs:111-116 reads them | not executed | LegacyBackend.LegacyRoundTripFails | ClmModel.DecodeOfEncode |
