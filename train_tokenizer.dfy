/** train_tokenizer.py, `data_iterator` (lines 10-35): a first pass counts
    every character of every line, newlines included; the characters seen
    at most twice form the removal set; a second pass yields each line
    with those characters deleted. The lines are the ones `readlines`
    returns, each with its line break. */
module TrainTokenizer {
  import opened Seqs

  /** How often `c` occurs in `text`. */
  function CharCount(text: string, c: char): nat
  {
    if text == [] then 0
    else CharCount(text[..|text| - 1], c) + (if text[|text| - 1] == c then 1 else 0)
  }

  lemma CharCountSnoc(text: string, ch: char, c: char)
    ensures CharCount(text + [ch], c) == CharCount(text, c) + (if ch == c then 1 else 0)
  {
    assert (text + [ch])[..|text|] == text;
  }

  /** A character is counted iff it occurs. */
  lemma {:induction false} CharCountPositive(text: string, c: char)
    ensures CharCount(text, c) > 0 <==> c in text
  {
    if text != [] {
      var init := text[..|text| - 1];
      CharCountPositive(init, c);
      assert text == init + [text[|text| - 1]];
    }
  }

  /** `counter` holds, for exactly the characters of `text`, how often
      each occurs. */
  predicate CountsOf(counter: map<char, nat>, text: string)
  {
    forall c :: (c in counter <==> CharCount(text, c) > 0)
      && (c in counter ==> counter[c] == CharCount(text, c))
  }

  /** One step of the counting loop keeps the counter exact. */
  lemma CountsOfSnoc(counter: map<char, nat>, text: string, ch: char)
    requires CountsOf(counter, text)
    ensures CountsOf(if ch in counter then counter[ch := counter[ch] + 1] else counter[ch := 1], text + [ch])
  {
    forall c {
      CharCountSnoc(text, ch, c);
    }
  }

  /** The first pass (lines 15-22): `char_counter`. */
  method CountCharacters(lines: seq<string>) returns (counter: map<char, nat>)
    ensures forall c :: c in counter <==> c in Flatten(lines)
    ensures forall c :: c in counter ==> counter[c] == CharCount(Flatten(lines), c)
  {
    counter := map[];
    ghost var seen: string := [];
    var i := 0;
    while i < |lines|
      invariant i <= |lines|
      invariant seen == Flatten(lines[..i])
      invariant CountsOf(counter, seen)
    {
      var line := lines[i];
      var j := 0;
      assert seen + line[..j] == seen;
      while j < |line|
        invariant j <= |line|
        invariant CountsOf(counter, seen + line[..j])
      {
        var ch := line[j];
        assert seen + line[..j + 1] == (seen + line[..j]) + [ch];
        CountsOfSnoc(counter, seen + line[..j], ch);
        if ch in counter {
          counter := counter[ch := counter[ch] + 1];
        } else {
          counter := counter[ch := 1];
        }
        j := j + 1;
      }
      assert line[..j] == line;
      assert lines[..i + 1] == lines[..i] + [line];
      FlattenAppend(lines[..i], [line]);
      assert Flatten([line]) == line + Flatten([]);
      seen := seen + line;
      i := i + 1;
    }
    assert lines[..i] == lines;
    forall c {
      CharCountPositive(seen, c);
    }
  }

  /** The removal set the code computes: the characters of the data that
      occur at most twice. */
  function Rare(lines: seq<string>): set<char>
  {
    set c | c in Flatten(lines) && CharCount(Flatten(lines), c) <= 2
  }

  /** The second pass over the counter (lines 24-26): `chars_used_once`. */
  method RareCharacters(counter: map<char, nat>) returns (rare: set<char>)
    ensures rare == set c | c in counter && counter[c] <= 2
  {
    rare := {};
    var keys := counter.Keys;
    while keys != {}
      invariant keys <= counter.Keys
      invariant rare == set c | c in counter.Keys - keys && counter[c] <= 2
      decreases |keys|
    {
      var ch :| ch in keys;
      if counter[ch] <= 2 {
        rare := rare + {ch};
      }
      keys := keys - {ch};
    }
  }

  /** `"".join([char for char in line if char not in chars_used_once])`. */
  function WithoutChars(line: string, removed: set<char>): (r: string)
    ensures |r| <= |line|
    ensures forall i :: 0 <= i < |r| ==> r[i] !in removed && r[i] in line
  {
    if line == [] then []
    else
      var init := WithoutChars(line[..|line| - 1], removed);
      var last := line[|line| - 1];
      if last in removed then init else init + [last]
  }

  /** The filter distributes over concatenation: it keeps the order of what
      it keeps. */
  lemma {:induction false} WithoutCharsAppend(a: string, b: string, removed: set<char>)
    ensures WithoutChars(a + b, removed) == WithoutChars(a, removed) + WithoutChars(b, removed)
    decreases |b|
  {
    if b != [] {
      var b' := b[..|b| - 1];
      assert (a + b)[..|a + b| - 1] == a + b';
      WithoutCharsAppend(a, b', removed);
    } else {
      assert a + b == a;
    }
  }

  /** Exactly the removed characters are gone: every other one occurs as
      often as before. */
  lemma {:induction false} WithoutCharsCount(line: string, removed: set<char>, c: char)
    ensures CharCount(WithoutChars(line, removed), c) == if c in removed then 0 else CharCount(line, c)
  {
    if line != [] {
      var init := line[..|line| - 1];
      WithoutCharsCount(init, removed, c);
      var last := line[|line| - 1];
      if last !in removed {
        CharCountSnoc(WithoutChars(init, removed), last, c);
      }
    }
  }

  /** `data_iterator`: what the generator yields, one string per line. */
  method DataIterator(lines: seq<string>) returns (yielded: seq<string>)
    ensures |yielded| == |lines|
    ensures forall i :: 0 <= i < |lines| ==> yielded[i] == WithoutChars(lines[i], Rare(lines))
  {
    var counter := CountCharacters(lines);
    var rare := RareCharacters(counter);
    assert rare == Rare(lines);
    yielded := [];
    var i := 0;
    while i < |lines|
      invariant i <= |lines|
      invariant |yielded| == i
      invariant forall k :: 0 <= k < i ==> yielded[k] == WithoutChars(lines[k], rare)
    {
      yielded := yielded + [WithoutChars(lines[i], rare)];
      i := i + 1;
    }
  }

  /** Every character that survives the filter occurs at least three times
      in the whole data. */
  lemma KeptAreFrequent(lines: seq<string>, i: nat, j: nat)
    requires i < |lines| && j < |WithoutChars(lines[i], Rare(lines))|
    ensures CharCount(Flatten(lines), WithoutChars(lines[i], Rare(lines))[j]) >= 3
  {
    var c := WithoutChars(lines[i], Rare(lines))[j];
    var k :| 0 <= k < |lines[i]| && lines[i][k] == c;
    FlattenPart(lines, i);
    var lo := TotalLength(lines[..i]);
    assert Flatten(lines)[lo + k] == lines[i][k];
    CharCountPositive(Flatten(lines), c);
  }
}
