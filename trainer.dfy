/** src/backend/trainer.rs: `train_model`, which lays the tokenized samples
    out for zstd's dictionary trainer and keeps the dictionary it writes.
    The trainer itself (`ZDICT_optimizeTrainFromBuffer_fastCover`) stays
    abstract. */
module Trainer {
  import opened Wrappers
  import opened Seqs
  import opened Backend
  import opened TrainingOptions

  /** The encoding of every sample, in order. */
  function SampleEncodings(input: seq<seq<Token>>): (r: seq<seq<Byte>>)
    ensures |r| == |input|
    ensures forall i :: 0 <= i < |input| ==> r[i] == TokensToBytes(input[i])
  {
    seq(|input|, i requires 0 <= i < |input| => TokensToBytes(input[i]))
  }

  /** `raw_data` (line 14): `flat_map(tokens_to_bytes)` over the samples. */
  function RawData(input: seq<seq<Token>>): seq<Byte>
  {
    Flatten(SampleEncodings(input))
  }

  /** `sizes` (line 15): the byte length of every sample. */
  function SampleSizes(input: seq<seq<Token>>): (r: seq<nat>)
    ensures |r| == |input|
    ensures forall i :: 0 <= i < |input| ==> r[i] == |input[i]| * BYTES_PER_TOKEN
  {
    Scaled(Lengths(input), BYTES_PER_TOKEN)
  }

  /** The sizes are the lengths of the encodings. */
  lemma SampleSizesAreLengths(input: seq<seq<Token>>)
    ensures SampleSizes(input) == Lengths(SampleEncodings(input))
  {
  }

  /** The assertion of line 17 never fails: the sizes add up to the length
      of the buffer they describe. */
  lemma SampleSizesSum(input: seq<seq<Token>>)
    ensures Sum(SampleSizes(input)) == |RawData(input)|
  {
    SampleSizesAreLengths(input);
    SumOfLengths(SampleEncodings(input));
    TotalLengthIsFlattenLength(SampleEncodings(input));
  }

  /** The whole buffer is the encoding of all sample tokens in order. */
  lemma {:induction false} RawDataIsTokenBytes(input: seq<seq<Token>>)
    ensures RawData(input) == TokensToBytes(Flatten(input))
  {
    if input != [] {
      RawDataIsTokenBytes(input[1..]);
      assert SampleEncodings(input) == [TokensToBytes(input[0])] + SampleEncodings(input[1..]);
      TokensToBytesAppend(input[0], Flatten(input[1..]));
    }
  }

  /** Sample `i` occupies the bytes from the sum of the sizes before it, for
      its own size: the layout the trainer reads `sizes` as. */
  lemma SampleAt(input: seq<seq<Token>>, i: nat)
    requires i < |input|
    ensures Sum(SampleSizes(input)[..i]) + SampleSizes(input)[i] <= |RawData(input)|
    ensures RawData(input)[Sum(SampleSizes(input)[..i])..Sum(SampleSizes(input)[..i]) + SampleSizes(input)[i]]
      == TokensToBytes(input[i])
  {
    var enc := SampleEncodings(input);
    assert SampleSizes(input)[..i] == Lengths(enc[..i]);
    SumOfLengths(enc[..i]);
    FlattenPart(enc, i);
  }

  /** What the trainer reports: an error code, or the dictionary size. */
  datatype ZdictResult = ZdictError | ZdictSize(size: nat)

  /** `ZDICT_optimizeTrainFromBuffer_fastCover`: given the zeroed output
      buffer, the samples, their sizes and the parameters, the buffer as the
      trainer leaves it and its result. The C function writes into the
      buffer in place, so the buffer it leaves has the length of the one it
      was given; `TrainModel` states its result for such a trainer too. */
  type ZdictTrainer = (seq<Byte>, seq<Byte>, seq<nat>, FastCoverParams) -> (seq<Byte>, ZdictResult)

  /** `vec![0u8; n]`. */
  function Zeros(n: nat): (r: seq<Byte>)
    ensures |r| == n && forall i :: 0 <= i < n ==> r[i] == 0
  {
    seq(n, i => 0)
  }

  /** `Vec::resize(size, 0)`: truncated, or padded with zeros. */
  function Resize(buffer: seq<Byte>, size: nat): (r: seq<Byte>)
    ensures |r| == size
    ensures forall i :: 0 <= i < size && i < |buffer| ==> r[i] == buffer[i]
    ensures forall i :: |buffer| <= i < size ==> r[i] == 0
  {
    if size <= |buffer| then buffer[..size] else buffer + Zeros(size - |buffer|)
  }

  /** `train_model` (lines 8-37): the dictionary the model is built from, or
      the panic when training fails. No samples give the empty dictionary
      without asking the trainer. `bufferSize` is the capacity offered to
      the trainer. */
  function TrainModel(input: seq<seq<Token>>, options: TrainingOptions, bufferSize: nat,
                      train: ZdictTrainer): (r: Outcome<seq<Byte>>)
    ensures input == [] ==> r == Returned([])
    ensures input != [] ==>
      var (written, result) := train(Zeros(bufferSize), RawData(input), SampleSizes(input),
                                     ToZdictParams(options));
      && (result.ZdictError? <==> r.Panicked?)
      && (result.ZdictSize? ==> r == Returned(Resize(written, result.size)))
    ensures input != [] ==>
      var (written, result) := train(Zeros(bufferSize), RawData(input), SampleSizes(input),
                                     ToZdictParams(options));
      result.ZdictSize? && |written| == bufferSize && result.size <= bufferSize ==>
        r == Returned(written[..result.size])
  {
    if input == [] then Returned([])
    else
      var raw, sizes := RawData(input), SampleSizes(input);
      SampleSizesSum(input);
      assert Sum(sizes) == |raw|;
      var (written, result) := train(Zeros(bufferSize), raw, sizes, ToZdictParams(options));
      match result
      case ZdictError => Panicked("Failed to train dictionary")
      case ZdictSize(size) => Returned(Resize(written, size))
  }
}
