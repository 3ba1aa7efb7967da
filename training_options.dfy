/** src/backend/training_options.rs: the options of dictionary training and
    their translation into zstd's `ZDICT_fastCover_params_t`. */
module TrainingOptions {

  const U32_LIMIT: int := 0x1_0000_0000
  const I32_LIMIT: int := 0x8000_0000

  /** Rust `u32` / C `unsigned`. */
  type U32 = x: int | 0 <= x < U32_LIMIT
  /** C `int` on the targets zstd-sys supports. */
  type I32 = x: int | -I32_LIMIT <= x < I32_LIMIT

  /** `TrainingOptions`. `split_point` is an `f64` that is only copied; it
      is carried as a `real`. */
  datatype TrainingOptions = TrainingOptions(
    d: U32, f: U32, k: U32, steps: U32, nbThreads: U32, splitPoint: real,
    accel: U32, shrinkDict: U32, shrinkDictMaxRegression: U32, compressionLevel: U32)

  /** `ZDICT_params_t`. */
  datatype ZdictParams = ZdictParams(compressionLevel: I32, notificationLevel: U32, dictId: U32)

  /** `ZDICT_fastCover_params_t`. */
  datatype FastCoverParams = FastCoverParams(
    k: U32, d: U32, f: U32, steps: U32, nbThreads: U32, splitPoint: real,
    accel: U32, shrinkDict: U32, shrinkDictMaxRegression: U32, zParams: ZdictParams)

  /** `TrainingOptions::new` (lines 17-30). */
  function New(): (o: TrainingOptions)
    ensures o.d == 8 && o.f == 25 && o.k == 50 && o.steps == 4 && o.nbThreads == 8
    ensures o.splitPoint == 0.0 && o.accel == 1 && o.shrinkDict == 0
    ensures o.shrinkDictMaxRegression == 0 && o.compressionLevel == 3
  {
    TrainingOptions(8, 25, 50, 4, 8, 0.0, 1, 0, 0, 3)
  }

  /** `TrainingOptions::default` (lines 51-53). */
  function Default(): (o: TrainingOptions)
    ensures o == New()
  {
    New()
  }

  /** `as c_int` on a `u32`: the same 32 bits read as two's complement, so
      values from 2^31 on wrap to negative numbers. */
  function U32AsI32(x: U32): (r: I32)
    ensures x < I32_LIMIT ==> r == x
    ensures x >= I32_LIMIT ==> r == x - U32_LIMIT && r < 0
  {
    if x < I32_LIMIT then x else x - U32_LIMIT
  }

  /** `as u32` on an `i32`, the inverse reinterpretation. */
  function I32AsU32(x: I32): U32
  {
    if x >= 0 then x else x + U32_LIMIT
  }

  /** The two casts undo each other: no compression level is lost or
      merged with another by the cast. */
  lemma CastsInverse(x: U32, y: I32)
    ensures I32AsU32(U32AsI32(x)) == x
    ensures U32AsI32(I32AsU32(y)) == y
  {
  }

  /** `to_zdict_params` (lines 32-49): every field copied, the compression
      level cast to `c_int`, notifications at level 4 and dictionary id 0. */
  function ToZdictParams(o: TrainingOptions): (p: FastCoverParams)
    ensures p.k == o.k && p.d == o.d && p.f == o.f && p.steps == o.steps
    ensures p.nbThreads == o.nbThreads && p.splitPoint == o.splitPoint && p.accel == o.accel
    ensures p.shrinkDict == o.shrinkDict && p.shrinkDictMaxRegression == o.shrinkDictMaxRegression
    ensures p.zParams.compressionLevel == U32AsI32(o.compressionLevel)
    ensures p.zParams.notificationLevel == 4 && p.zParams.dictId == 0
  {
    FastCoverParams(o.k, o.d, o.f, o.steps, o.nbThreads, o.splitPoint, o.accel,
      o.shrinkDict, o.shrinkDictMaxRegression,
      ZdictParams(U32AsI32(o.compressionLevel), 4, 0))
  }

  /** Reading the options back from the parameters. */
  function FromZdictParams(p: FastCoverParams): TrainingOptions
  {
    TrainingOptions(p.d, p.f, p.k, p.steps, p.nbThreads, p.splitPoint, p.accel,
      p.shrinkDict, p.shrinkDictMaxRegression, I32AsU32(p.zParams.compressionLevel))
  }

  /** The translation loses nothing: distinct options give distinct
      parameters. */
  lemma ToZdictParamsInverse(o: TrainingOptions)
    ensures FromZdictParams(ToZdictParams(o)) == o
  {
  }

  lemma ToZdictParamsInjective(a: TrainingOptions, b: TrainingOptions)
    ensures ToZdictParams(a) == ToZdictParams(b) ==> a == b
  {
  }

  /** The parameters the default options produce: the zstd fastCover
      defaults used throughout (k 50, d 8, f 25, 4 steps, 8 threads, level 3). */
  lemma DefaultParams()
    ensures ToZdictParams(Default())
      == FastCoverParams(50, 8, 25, 4, 8, 0.0, 1, 0, 0, ZdictParams(3, 4, 0))
  {
  }
}
