/** src/backend/mod.rs: the token type, the token-to-byte encoding every
    compressor call goes through, the line-number strip applied to corpus
    lines, and the (tokens, lengths) accumulation of `tokenize_files`. */
module Backend {
  import opened Seqs
  import opened Text

  /** 2^64: `usize` on the 64-bit targets the program is built for. */
  const USIZE_LIMIT: int := 0x1_0000_0000_0000_0000
  const USIZE_MAX: int := USIZE_LIMIT - 1

  type Byte = b: int | 0 <= b < 256

  /** `pub type Token = usize`. */
  type Token = t: int | 0 <= t < USIZE_LIMIT

  /** `size_of::<Token>()` on a 64-bit target. */
  const BYTES_PER_TOKEN: nat := 8

  /** One past the largest token id of the p50k tokenizer. */
  const MAX_TOKEN: Token := 50280

  function Pow256(n: nat): (r: nat)
    ensures r >= 1
  {
    if n == 0 then 1 else 256 * Pow256(n - 1)
  }

  lemma Pow256Eight()
    ensures Pow256(BYTES_PER_TOKEN) == USIZE_LIMIT
  {
    assert Pow256(2) == 0x1_0000;
    assert Pow256(4) == 0x1_0000_0000 by { assert Pow256(3) == 256 * Pow256(2); }
    assert Pow256(6) == 0x1_0000_0000_0000 by { assert Pow256(5) == 256 * Pow256(4); }
    assert Pow256(8) == USIZE_LIMIT by { assert Pow256(7) == 256 * Pow256(6); }
  }

  /** The `n` low-order base-256 digits of `x`, most significant first. */
  function BeBytes(x: nat, n: nat): (r: seq<Byte>)
    ensures |r| == n
    decreases n
  {
    if n == 0 then [] else BeBytes(x / 256, n - 1) + [x % 256]
  }

  /** The number whose base-256 digits, most significant first, are `s`. */
  function BeValue(s: seq<Byte>): (r: nat)
    ensures r < Pow256(|s|)
  {
    if s == [] then 0
    else
      var hi := BeValue(s[..|s| - 1]);
      assert hi * 256 + s[|s| - 1] < 256 * Pow256(|s| - 1) by {
        assert hi <= Pow256(|s| - 1) - 1;
        assert hi * 256 <= (Pow256(|s| - 1) - 1) * 256;
      }
      hi * 256 + s[|s| - 1]
  }

  /** Reading back the digits of a number that fits gives the number. */
  lemma {:induction false} BeValueOfBytes(x: nat, n: nat)
    requires x < Pow256(n)
    ensures BeValue(BeBytes(x, n)) == x
    decreases n
  {
    if n > 0 {
      var s := BeBytes(x, n);
      assert s[..n - 1] == BeBytes(x / 256, n - 1);
      assert x / 256 < Pow256(n - 1);
      BeValueOfBytes(x / 256, n - 1);
    }
  }

  /** Writing out the value of a digit string gives the digit string back. */
  lemma {:induction false} BeBytesOfValue(s: seq<Byte>)
    ensures BeBytes(BeValue(s), |s|) == s
  {
    if s != [] {
      var hi := BeValue(s[..|s| - 1]);
      var v := hi * 256 + s[|s| - 1];
      assert v / 256 == hi && v % 256 == s[|s| - 1];
      BeBytesOfValue(s[..|s| - 1]);
      assert s == s[..|s| - 1] + [s[|s| - 1]];
    }
  }

  /** Rust `usize::to_be_bytes`: the eight base-256 digits of `t`, most
      significant first. */
  function TokenToBeBytes(t: Token): (r: seq<Byte>)
    ensures |r| == BYTES_PER_TOKEN
  {
    BeBytes(t, BYTES_PER_TOKEN)
  }

  /** Rust `usize::from_be_bytes` on an 8-byte chunk. */
  function TokenFromBeBytes(chunk: seq<Byte>): Token
    requires |chunk| == BYTES_PER_TOKEN
  {
    Pow256Eight();
    BeValue(chunk)
  }

  /** The eight bytes, read most significant first, are the token. */
  lemma TokenToBeBytesValue(t: Token)
    ensures BeValue(TokenToBeBytes(t)) == t
  {
    Pow256Eight();
    BeValueOfBytes(t, BYTES_PER_TOKEN);
  }

  /** `from_be_bytes` undoes `to_be_bytes`. */
  lemma TokenBytesRoundTrip(t: Token)
    ensures TokenFromBeBytes(TokenToBeBytes(t)) == t
  {
    TokenToBeBytesValue(t);
  }

  /** `to_be_bytes` undoes `from_be_bytes`: every 8-byte chunk is the
      encoding of exactly one token. */
  lemma TokenFromBeBytesInverse(chunk: seq<Byte>)
    requires |chunk| == BYTES_PER_TOKEN
    ensures TokenToBeBytes(TokenFromBeBytes(chunk)) == chunk
  {
    BeBytesOfValue(chunk);
  }

  /** `tokens_to_bytes` (src/backend/mod.rs:29-31): every token becomes its
      eight big-endian bytes, in order. */
  function TokensToBytes(tokens: seq<Token>): (r: seq<Byte>)
    ensures |r| == BYTES_PER_TOKEN * |tokens|
  {
    if tokens == [] then [] else TokenToBeBytes(tokens[0]) + TokensToBytes(tokens[1..])
  }

  /** Encoding distributes over concatenation, which is what the `flat_map`
      callers (the trainer's sample buffer) rely on. */
  lemma {:induction false} TokensToBytesAppend(a: seq<Token>, b: seq<Token>)
    ensures TokensToBytes(a + b) == TokensToBytes(a) + TokensToBytes(b)
  {
    if a == [] {
      assert a + b == b;
    } else {
      assert (a + b)[1..] == a[1..] + b;
      TokensToBytesAppend(a[1..], b);
    }
  }

  /** Bytes [8i, 8i+8) of the encoding are the big-endian bytes of token i. */
  lemma {:induction false} TokensToBytesChunk(tokens: seq<Token>, i: nat)
    requires i < |tokens|
    ensures BYTES_PER_TOKEN * i + BYTES_PER_TOKEN <= |TokensToBytes(tokens)|
    ensures TokensToBytes(tokens)[BYTES_PER_TOKEN * i..BYTES_PER_TOKEN * i + BYTES_PER_TOKEN]
      == TokenToBeBytes(tokens[i])
  {
    var head, rest := TokenToBeBytes(tokens[0]), TokensToBytes(tokens[1..]);
    assert TokensToBytes(tokens) == head + rest;
    if i == 0 {
      AppendSplit(head, rest);
    } else {
      var lo := BYTES_PER_TOKEN * (i - 1);
      TokensToBytesChunk(tokens[1..], i - 1);
      SliceOfAppend(head, rest, lo + 8, lo + 16);
      assert BYTES_PER_TOKEN * i == lo + 8;
    }
  }

  // ---------------------------------------------------------------------
  // The `^\d+\s` strip (src/backend/mod.rs:43, 64; dataset.rs:35, 53)

  /** Length of the run of digits `line` starts with. */
  function DigitRun(line: string): (k: nat)
    ensures k <= |line|
    ensures forall i :: 0 <= i < k ==> IsAsciiDigit(line[i])
    ensures k < |line| ==> !IsAsciiDigit(line[k])
  {
    if line != [] && IsAsciiDigit(line[0]) then 1 + DigitRun(line[1..]) else 0
  }

  predicate AllDigits(s: string)
  {
    forall i :: 0 <= i < |s| ==> IsAsciiDigit(s[i])
  }

  /** Length of the text `^\d+\s` matches at the start of `line`, 0 if it does
      not match. */
  function PrefixMatchLength(line: string): (n: nat)
    ensures n <= |line|
  {
    var k := DigitRun(line);
    if 1 <= k < |line| && IsWhitespace(line[k]) then k + 1 else 0
  }

  /** `re.replace_all(&x, "")` with the anchored pattern `^\d+\s`. */
  function StripLinePrefix(line: string): (r: string)
    ensures line == line[..PrefixMatchLength(line)] + r
  {
    line[PrefixMatchLength(line)..]
  }

  /** The strip removes a leading run of at least one digit followed by one
      whitespace character when the line has one, and otherwise leaves the
      line unchanged; the rest of the line is never touched. */
  lemma StripLinePrefixMatches(line: string)
    ensures PrefixMatchLength(line) > 0 ==>
      PrefixMatchLength(line) >= 2
      && AllDigits(line[..PrefixMatchLength(line) - 1])
      && IsWhitespace(line[PrefixMatchLength(line) - 1])
      && StripLinePrefix(line) == line[PrefixMatchLength(line)..]
    ensures PrefixMatchLength(line) == 0 ==>
      StripLinePrefix(line) == line
      && forall j :: 1 <= j < |line| && AllDigits(line[..j]) ==> !IsWhitespace(line[j])
  {
    var k := DigitRun(line);
    if PrefixMatchLength(line) > 0 {
      forall i | 0 <= i < k
        ensures IsAsciiDigit(line[..k][i])
      {
        assert line[..k][i] == line[i];
      }
    } else {
      forall j | 1 <= j < |line| && AllDigits(line[..j])
        ensures !IsWhitespace(line[j])
      {
        if j < k {
          assert IsAsciiDigit(line[j]);
        }
      }
    }
  }

  // ---------------------------------------------------------------------
  // The (tokens, lengths) accumulation of `tokenize_files`
  // (src/backend/mod.rs:41-79)

  /** Every line, stripped and run through the tokenizer `encode`. */
  function Encoded(lines: seq<string>, encode: string -> seq<Token>): (r: seq<seq<Token>>)
    ensures |r| == |lines|
  {
    seq(|lines|, i requires 0 <= i < |lines| => encode(StripLinePrefix(lines[i])))
  }

  lemma EncodedAppend(a: seq<string>, b: seq<string>, encode: string -> seq<Token>)
    ensures Encoded(a + b, encode) == Encoded(a, encode) + Encoded(b, encode)
  {
  }

  /** The accumulated pair is consistent: as many tokens as the lengths add up to. */
  predicate Consistent(acc: (seq<Token>, seq<nat>))
  {
    Sum(acc.1) == |acc.0|
  }

  /** The `reduce` step, `(tok_acc ++ tok, len_acc ++ len)`. */
  function Combine(a: (seq<Token>, seq<nat>), b: (seq<Token>, seq<nat>)): (r: (seq<Token>, seq<nat>))
    ensures Consistent(a) && Consistent(b) ==> Consistent(r)
  {
    SumAppend(a.1, b.1);
    (a.0 + b.0, a.1 + b.1)
  }

  /** The shape of one parallel reduction: rayon splits the stream of lines
      arbitrarily, combines each part starting from the identity
      `(Vec::new(), Vec::new())`, and combines the parts. */
  datatype ReduceTree = Identity | Line(text: string) | Merge(left: ReduceTree, right: ReduceTree)
  {
    /** The lines of the tree, left to right. */
    function Lines(): seq<string>
    {
      match this
      case Identity => []
      case Line(t) => [t]
      case Merge(l, r) => l.Lines() + r.Lines()
    }
  }

  /** What a reduction over `tree` produces. */
  function Reduce(tree: ReduceTree, encode: string -> seq<Token>): (seq<Token>, seq<nat>)
  {
    match tree
    case Identity => ([], [])
    case Line(t) =>
      var x := encode(StripLinePrefix(t));
      (x, [|x|])
    case Merge(l, r) => Combine(Reduce(l, encode), Reduce(r, encode))
  }

  /** Whatever the split, the reduction yields the concatenated tokens of its
      lines and one length per line, in tree order; so the lengths always sum
      to the token count, whatever order `par_bridge` delivers the lines in. */
  lemma {:induction false} ReduceIsFold(tree: ReduceTree, encode: string -> seq<Token>)
    ensures Reduce(tree, encode).0 == Flatten(Encoded(tree.Lines(), encode))
    ensures Reduce(tree, encode).1 == Lengths(Encoded(tree.Lines(), encode))
    ensures |Reduce(tree, encode).1| == |tree.Lines()|
    ensures Consistent(Reduce(tree, encode))
  {
    match tree
    case Identity =>
    case Line(t) =>
      var e := Encoded([t], encode);
      assert Flatten(e) == e[0] + Flatten(e[1..]);
    case Merge(l, r) =>
      ReduceIsFold(l, encode);
      ReduceIsFold(r, encode);
      var el, er := Encoded(l.Lines(), encode), Encoded(r.Lines(), encode);
      EncodedAppend(l.Lines(), r.Lines(), encode);
      FlattenAppend(el, er);
      LengthsAppend(el, er);
  }

  /** `tokenize_files` with its reduction run sequentially over the lines in
      the order given: the tokens of all lines, and the token count of each. */
  method TokenizeLines(lines: seq<string>, encode: string -> seq<Token>)
    returns (tokens: seq<Token>, lens: seq<nat>)
    ensures tokens == Flatten(Encoded(lines, encode))
    ensures lens == Lengths(Encoded(lines, encode))
    ensures |lens| == |lines| && Sum(lens) == |tokens|
  {
    var enc := Encoded(lines, encode);
    tokens, lens := [], [];
    var i := 0;
    while i < |lines|
      invariant 0 <= i <= |lines|
      invariant tokens == Flatten(enc[..i])
      invariant lens == Lengths(enc[..i])
    {
      var x := encode(StripLinePrefix(lines[i]));
      assert x == enc[i];
      assert enc[..i + 1] == enc[..i] + [x];
      FlattenAppend(enc[..i], [x]);
      assert Flatten([x]) == x + Flatten([x][1..]);
      tokens := tokens + x;
      lens := lens + [|x|];
      i := i + 1;
    }
    assert enc[..i] == enc;
    SumOfLengths(enc);
    TotalLengthIsFlattenLength(enc);
  }
}
