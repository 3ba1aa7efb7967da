/** tune.py: the adapter between the sweep controller and the Rust tuning
    binary. `evaluate` (lines 47-78) copies the sweep's parameters out of
    the run configuration, hands them to the binary, and logs the JSON
    object the binary prints on its last output line, or `{}` when there is
    no line or the line is not JSON. */
module Tune {
  import opened Wrappers
  import opened Seqs

  datatype Json =
    | JNull
    | JBool(b: bool)
    | JNumber(n: real)
    | JString(s: string)
    | JArray(items: seq<Json>)
    | JObject(members: seq<(string, Json)>)

  /** What `wandb.log({})` logs. */
  const EMPTY_OBJECT: Json := JObject([])

  // ---------------------------------------------------------------------
  // sweep_config (lines 8-43)

  datatype Distribution =
    | IntUniform(lo: int, hi: int)
    | Uniform(lower: real, upper: real)
    | Values(values: seq<int>)

  datatype SweepConfig = SweepConfig(
    searchMethod: string,
    goal: string,
    metric: string,
    parameters: seq<(string, Distribution)>)

  const SWEEP_CONFIG: SweepConfig := SweepConfig(
    "bayes", "maximize", "train_inf_gain",
    [ ("datasetSize", IntUniform(1_000_000, 180_000_000)),
      ("dictionarySizePercentage", Uniform(0.0, 1.0)),
      ("compressionLevel", IntUniform(1, 8)),
      ("d", Values([6, 8])),
      ("f", IntUniform(5, 26)),
      ("k", IntUniform(16, 2048)) ])

  /** A range with its lower end below its upper end, or a non-empty list
      of values. */
  predicate WellFormed(d: Distribution)
  {
    match d
    case IntUniform(lo, hi) => lo < hi
    case Uniform(lower, upper) => lower < upper
    case Values(values) => values != []
  }

  /** The sweep's parameter names, in the order of the dictionary. */
  function ParameterNames(config: SweepConfig): (r: seq<string>)
    ensures |r| == |config.parameters|
    ensures forall i :: 0 <= i < |r| ==> r[i] == config.parameters[i].0
  {
    seq(|config.parameters|, i requires 0 <= i < |config.parameters| => config.parameters[i].0)
  }

  /** The declared search space is well formed, and its six names are
      distinct. */
  lemma SearchSpaceWellFormed()
    ensures forall i :: 0 <= i < |SWEEP_CONFIG.parameters| ==> WellFormed(SWEEP_CONFIG.parameters[i].1)
    ensures forall i, j :: 0 <= i < j < |SWEEP_CONFIG.parameters| ==>
      ParameterNames(SWEEP_CONFIG)[i] != ParameterNames(SWEEP_CONFIG)[j]
  {
    var names := ParameterNames(SWEEP_CONFIG);
    assert names == ["datasetSize", "dictionarySizePercentage", "compressionLevel", "d", "f", "k"];
  }

  // ---------------------------------------------------------------------
  // conf_dict (lines 51-53)

  /** The run configuration restricted to `names`. */
  function Selected(names: seq<string>, config: map<string, Json>): (r: map<string, Json>)
    requires forall n :: n in names ==> n in config
    ensures r.Keys == set n | n in names
    ensures forall n :: n in r ==> r[n] == config[n]
  {
    map n | n in names :: config[n]
  }

  /** The loop filling `conf_dict`; `wandb.config[param]` raises `KeyError`
      for a parameter the run configuration lacks. */
  method ConfDict(names: seq<string>, config: map<string, Json>) returns (r: Outcome<map<string, Json>>)
    ensures r.Returned? <==> forall n :: n in names ==> n in config
    ensures r.Returned? ==> r.value.Keys == set n | n in names
    ensures r.Returned? ==> forall n :: n in r.value ==> r.value[n] == config[n]
  {
    var conf: map<string, Json> := map[];
    var i := 0;
    while i < |names|
      invariant i <= |names|
      invariant forall k :: 0 <= k < i ==> names[k] in config
      invariant conf.Keys == set n | n in names[..i]
      invariant forall n :: n in conf ==> n in config && conf[n] == config[n]
    {
      if names[i] !in config {
        return Panicked("KeyError");
      }
      assert names[..i + 1] == names[..i] + [names[i]];
      conf := conf[names[i] := config[names[i]]];
      i := i + 1;
    }
    assert names[..i] == names;
    r := Returned(conf);
  }

  // ---------------------------------------------------------------------
  // str.splitlines

  /** The line boundaries of Python's `str.splitlines`. */
  const LINE_BREAKS: set<char> :=
    {'\n', '\r', '\U{B}', '\U{C}', '\U{1C}', '\U{1D}', '\U{1E}', '\U{85}', '\U{2028}', '\U{2029}'}

  predicate IsLineBreak(c: char)
  {
    c in LINE_BREAKS
  }

  predicate NoLineBreak(s: string)
  {
    forall i :: 0 <= i < |s| ==> !IsLineBreak(s[i])
  }

  /** A boundary is one character, except `\r\n`, which is two. */
  function BreakWidth(s: string, i: nat): (w: nat)
    requires i < |s|
    ensures 1 <= w <= 2 && i + w <= |s|
  {
    if s[i] == '\r' && i + 1 < |s| && s[i + 1] == '\n' then 2 else 1
  }

  /** Python `str.splitlines()`: the lines without their boundaries; a
      final boundary does not start another line. A boundary in front
      starts with an empty line; any other character joins the first line
      of what follows it. */
  function SplitLines(s: string): (r: seq<string>)
    ensures r == [] <==> s == []
    ensures forall i :: 0 <= i < |r| ==> NoLineBreak(r[i])
    decreases |s|
  {
    if s == [] then []
    else if IsLineBreak(s[0]) then [[]] + SplitLines(s[BreakWidth(s, 0)..])
    else
      var rest := SplitLines(s[1..]);
      if rest == [] then [[s[0]]] else [[s[0]] + rest[0]] + rest[1..]
  }

  /** `p` is empty or ends with a boundary that does not pair with the
      start of `q` into one `\r\n`. */
  predicate EndsLine(p: string, q: string)
  {
    p == [] || (IsLineBreak(p[|p| - 1]) && !(p[|p| - 1] == '\r' && q != [] && q[0] == '\n'))
  }

  /** Text after a complete line splits on its own. */
  lemma {:induction false} SplitLinesAppend(p: string, q: string)
    requires EndsLine(p, q)
    ensures SplitLines(p + q) == SplitLines(p) + SplitLines(q)
    decreases |p|
  {
    var s := p + q;
    if p == [] {
      assert s == q;
    } else if IsLineBreak(p[0]) {
      var w := BreakWidth(p, 0);
      assert BreakWidth(s, 0) == w;
      DropOfAppend(p, q, w);
      SplitLinesAppend(p[w..], q);
      AppendAssoc([[]], SplitLines(p[w..]), SplitLines(q));
    } else {
      var p' := p[1..];
      DropOfAppend(p, q, 1);
      SplitLinesAppend(p', q);
      var rest := SplitLines(p');
      assert rest != [];
      assert SplitLines(p' + q) == rest + SplitLines(q);
      assert (rest + SplitLines(q))[0] == rest[0];
      assert (rest + SplitLines(q))[1..] == rest[1..] + SplitLines(q);
      AppendAssoc([[p[0]] + rest[0]], rest[1..], SplitLines(q));
    }
  }

  /** A line without boundaries is one line. */
  lemma {:induction false} SplitLinesOfLine(t: string)
    requires t != [] && NoLineBreak(t)
    ensures SplitLines(t) == [t]
  {
    assert !IsLineBreak(t[0]);
    if |t| > 1 {
      SplitLinesOfLine(t[1..]);
      assert [t[0]] + t[1..] == t;
    } else {
      assert t[1..] == [] && [t[0]] == t;
    }
  }

  /** A line followed by its `\n` is that one line. */
  lemma {:induction false} SplitLinesOfTerminatedLine(t: string)
    requires t != [] && NoLineBreak(t)
    ensures SplitLines(t + "\n") == [t]
    decreases |t|
  {
    var s := t + "\n";
    assert s[0] == t[0] && !IsLineBreak(s[0]);
    assert s[1..] == t[1..] + "\n";
    if |t| > 1 {
      SplitLinesOfTerminatedLine(t[1..]);
      assert [t[0]] + t[1..] == t;
    } else {
      assert t[1..] + "\n" == "\n";
      assert "\n"[1..] == [];
      assert SplitLines("\n") == [[]];
      assert [t[0]] + [] == t;
    }
  }

  // ---------------------------------------------------------------------
  // The result (lines 70-78)

  /** What `evaluate` logs for the binary's output: `json.loads` of the
      last element of `output.splitlines()`, or `{}` when there is no line
      (`IndexError`) or `decode` rejects it (`JSONDecodeError`). `decode`
      stands for `json.loads`. */
  function ResultToLog(output: string, decode: string -> Option<Json>): (r: Json)
    ensures output == [] ==> r == EMPTY_OBJECT
  {
    var lines := SplitLines(output);
    if lines == [] then EMPTY_OBJECT
    else
      match decode(lines[|lines| - 1])
      case None => EMPTY_OBJECT
      case Some(j) => j
  }

  /** Only the last line counts: whatever complete lines come before it
      change nothing. */
  lemma ResultIgnoresEarlierLines(p: string, q: string, decode: string -> Option<Json>)
    requires EndsLine(p, q) && q != []
    ensures ResultToLog(p + q, decode) == ResultToLog(q, decode)
  {
    SplitLinesAppend(p, q);
  }

  /** A last line that is JSON is logged as decoded, and one that is not
      is logged as `{}`, whether or not a `\n` ends it (the tuning binary
      ends its output with one). */
  lemma ResultOfLastLine(p: string, t: string, decode: string -> Option<Json>)
    requires t != [] && NoLineBreak(t)
    ensures EndsLine(p, t) ==>
      (decode(t).Some? ==> ResultToLog(p + t, decode) == decode(t).value)
      && (decode(t).None? ==> ResultToLog(p + t, decode) == EMPTY_OBJECT)
    ensures EndsLine(p, t + "\n") ==>
      (decode(t).Some? ==> ResultToLog(p + (t + "\n"), decode) == decode(t).value)
      && (decode(t).None? ==> ResultToLog(p + (t + "\n"), decode) == EMPTY_OBJECT)
  {
    if EndsLine(p, t) {
      ResultIgnoresEarlierLines(p, t, decode);
      SplitLinesOfLine(t);
    }
    if EndsLine(p, t + "\n") {
      ResultIgnoresEarlierLines(p, t + "\n", decode);
      SplitLinesOfTerminatedLine(t);
    }
  }

  /** Output that ends in a blank line logs `{}`, since the empty line is
      what is decoded, and `json.loads("")` fails. */
  lemma ResultOfTrailingBlankLine(s: string, decode: string -> Option<Json>)
    requires decode([]) == None
    ensures ResultToLog(s + "\n\n", decode) == EMPTY_OBJECT
  {
    var p := s + "\n";
    assert s + "\n\n" == p + "\n";
    assert p[|p| - 1] == '\n';
    ResultIgnoresEarlierLines(p, "\n", decode);
    assert "\n"[1..] == [];
    assert SplitLines("\n") == [[]];
  }

  /** `evaluate`: the parameters of the sweep copied out of the run
      configuration, the binary's output for them (`run` stands for
      `json.dumps` and the subprocess), and what is logged. */
  method Evaluate(config: map<string, Json>, run: map<string, Json> -> string,
                  decode: string -> Option<Json>)
    returns (r: Outcome<Json>)
    ensures r.Panicked? <==> exists n :: n in ParameterNames(SWEEP_CONFIG) && n !in config
    ensures r.Returned? ==> r.value == ResultToLog(run(Selected(ParameterNames(SWEEP_CONFIG), config)), decode)
  {
    var names := ParameterNames(SWEEP_CONFIG);
    var conf := ConfDict(names, config);
    if conf.Panicked? {
      return Panicked(conf.reason);
    }
    assert conf.value == Selected(names, config);
    var output := run(conf.value);
    r := Returned(ResultToLog(output, decode));
  }
}
