/** Character classes and string measures shared by the Rust modules:
    Rust's `char::is_whitespace` (what `str::trim` and the regex class `\s`
    use), `str::trim`, and the byte length `str::len` of a UTF-8 string. */
module Text {

  /** Unicode White_Space, the set Rust's `char::is_whitespace` tests. */
  const WHITESPACE: set<char> := {
    '\U{9}', '\U{A}', '\U{B}', '\U{C}', '\U{D}', ' ', '\U{85}', '\U{A0}', '\U{1680}',
    '\U{2000}', '\U{2001}', '\U{2002}', '\U{2003}', '\U{2004}', '\U{2005}', '\U{2006}',
    '\U{2007}', '\U{2008}', '\U{2009}', '\U{200A}', '\U{2028}', '\U{2029}', '\U{202F}',
    '\U{205F}', '\U{3000}' }

  predicate IsWhitespace(c: char)
  {
    c in WHITESPACE
  }

  /** An ASCII digit. */
  predicate IsAsciiDigit(c: char)
  {
    '0' <= c <= '9'
  }

  /** Neither end of `s` is whitespace. */
  predicate NoEdgeWhitespace(s: string)
  {
    s == [] || (!IsWhitespace(s[0]) && !IsWhitespace(s[|s| - 1]))
  }

  /** Rust `str::trim_start`. */
  function TrimStart(s: string): (r: string)
    ensures |r| <= |s| && r == s[|s| - |r|..]
    ensures r == [] || !IsWhitespace(r[0])
    ensures forall i :: 0 <= i < |s| - |r| ==> IsWhitespace(s[i])
  {
    if s != [] && IsWhitespace(s[0]) then TrimStart(s[1..]) else s
  }

  /** Rust `str::trim_end`. */
  function TrimEnd(s: string): (r: string)
    ensures |r| <= |s| && r == s[..|r|]
    ensures r == [] || !IsWhitespace(r[|r| - 1])
    ensures forall i :: |r| <= i < |s| ==> IsWhitespace(s[i])
  {
    if s != [] && IsWhitespace(s[|s| - 1]) then TrimEnd(s[..|s| - 1]) else s
  }

  /** Rust `str::trim`: both ends. */
  function Trim(s: string): (r: string)
    ensures NoEdgeWhitespace(r)
  {
    TrimEnd(TrimStart(s))
  }

  /** `Trim` returns the middle of `s`, what it removes is whitespace,
      and what it keeps starts and ends with something else. */
  lemma TrimIsMiddle(s: string) returns (a: nat, b: nat)
    ensures a <= b <= |s| && Trim(s) == s[a..b]
    ensures forall i :: 0 <= i < a ==> IsWhitespace(s[i])
    ensures forall i :: b <= i < |s| ==> IsWhitespace(s[i])
    ensures NoEdgeWhitespace(Trim(s))
  {
    var t := TrimStart(s);
    a := |s| - |t|;
    var r := TrimEnd(t);
    b := a + |r|;
    assert t == s[a..];
    assert r == t[..|r|];
    assert r == s[a..b];
    forall i | b <= i < |s|
      ensures IsWhitespace(s[i])
    {
      assert s[i] == t[i - a];
    }
    if r != [] {
      assert r[0] == t[0];
    }
  }

  /** A string without whitespace at its ends is its own trim. */
  lemma TrimFixesTrimmed(s: string)
    requires NoEdgeWhitespace(s)
    ensures Trim(s) == s
  {
  }

  /** Trimming twice is trimming once. */
  lemma TrimIdempotent(s: string)
    ensures Trim(Trim(s)) == Trim(s)
  {
    var _, _ := TrimIsMiddle(s);
    TrimFixesTrimmed(Trim(s));
  }

  /** `Trim` is the only middle of `s` that leaves whitespace on both sides
      and none at its own ends. */
  lemma TrimUnique(s: string, a: nat, b: nat)
    requires a <= b <= |s|
    requires forall i :: 0 <= i < a ==> IsWhitespace(s[i])
    requires forall i :: b <= i < |s| ==> IsWhitespace(s[i])
    requires NoEdgeWhitespace(s[a..b])
    ensures Trim(s) == s[a..b]
  {
    var a', b' := TrimIsMiddle(s);
    if a < b {
      assert s[a..b][0] == s[a] && s[a..b][b - a - 1] == s[b - 1];
      assert a' <= a < b' && a' < b - 1 + 1 <= b';
      assert s[a'..b'][0] == s[a'] && s[a'..b'][b' - a' - 1] == s[b' - 1];
      assert a == a' && b == b';
    } else {
      assert forall i :: 0 <= i < |s| ==> IsWhitespace(s[i]);
      assert Trim(s) == [];
    }
  }

  lemma SliceOfPrefix<T>(s: seq<T>, n: nat, a: nat, b: nat)
    requires a <= b <= n <= |s|
    ensures s[..n][a..b] == s[a..b]
  {
  }

  /** Trimming the end first changes nothing about the trim. */
  lemma TrimOfTrimEnd(s: string)
    ensures Trim(TrimEnd(s)) == Trim(s)
  {
    var t := TrimEnd(s);
    var a, b := TrimIsMiddle(t);
    SliceOfPrefix(s, |t|, a, b);
    forall i | 0 <= i < a
      ensures IsWhitespace(s[i])
    {
      assert s[i] == t[i];
    }
    forall i | b <= i < |s|
      ensures IsWhitespace(s[i])
    {
      if i < |t| {
        assert s[i] == t[i];
      }
    }
    TrimUnique(s, a, b);
  }

  /** Text after a trimmed, non-empty head only has its end trimmed. */
  lemma TrimOfContinuation(head: string, rest: string)
    requires head != [] && NoEdgeWhitespace(head)
    ensures Trim(head + rest) == head + TrimEnd(rest)
  {
    var s, t := head + rest, TrimEnd(rest);
    var b := |head| + |t|;
    assert s[..b] == head + t by {
      assert t == rest[..|t|];
    }
    forall i | b <= i < |s|
      ensures IsWhitespace(s[i])
    {
      assert s[i] == rest[i - |head|];
    }
    var m := head + t;
    assert m[0] == head[0];
    if t != [] {
      assert m[|m| - 1] == t[|t| - 1];
    } else {
      assert m[|m| - 1] == head[|head| - 1];
    }
    TrimUnique(s, 0, b);
  }

  /** Number of bytes UTF-8 uses for the code point `c`. */
  function Utf8Width(c: char): (n: nat)
    ensures 1 <= n <= 4
  {
    if c as int < 0x80 then 1
    else if c as int < 0x800 then 2
    else if c as int < 0x10000 then 3
    else 4
  }

  /** Rust `str::len`: the length of the UTF-8 encoding, in bytes. */
  function Utf8Len(s: string): (n: nat)
    ensures |s| <= n <= 4 * |s|
  {
    if s == [] then 0 else Utf8Width(s[0]) + Utf8Len(s[1..])
  }
}
