/** Shared value types: optional values, results carrying a Python exception, bytes and the
    few string operations of Python's `str` that the model relies on. */
module Common {

  datatype Option<T> = None | Some(value: T)

  /** The Python exceptions that the modelled code raises or lets escape. */
  datatype PyError =
    | KeyError(key: string)
    | TypeError(message: string)
    | UnboundLocalError(name: string)
    | RuntimeError(message: string)
    | AttributeError(name: string)
    | ExtensionRepoError(message: string)
    | ValueError(message: string)

  datatype Result<T> = Ok(value: T) | Err(error: PyError)

  /** A call made for its effect: it returned normally or raised. */
  datatype Outcome = Pass | Fail(error: PyError)

  type byte = x: int | 0 <= x < 256

  /** `sub in s` for Python strings. */
  predicate Contains(s: string, sub: string)
    decreases |s|
  {
    |sub| <= |s| && (s[..|sub|] == sub || Contains(s[1..], sub))
  }

  /** `s.find(c, start)`: the first index at or after `start` holding `c`, or -1. */
  function FindFrom(s: string, c: char, start: nat): (i: int)
    ensures -1 <= i < |s|
    ensures i == -1 ==> forall k :: start <= k < |s| ==> s[k] != c
    ensures i >= 0 ==> start <= i && s[i] == c && forall k :: start <= k < i ==> s[k] != c
    decreases |s| - start
  {
    if start >= |s| then -1
    else if s[start] == c then start
    else FindFrom(s, c, start + 1)
  }

  /** `s.rfind(c)`: the last index holding `c`, or -1. */
  function RFind(s: string, c: char): (i: int)
    ensures -1 <= i < |s|
    ensures i == -1 ==> c !in s
    ensures i >= 0 ==> s[i] == c && forall k :: i < k < |s| ==> s[k] != c
  {
    if s == [] then -1
    else if s[|s| - 1] == c then |s| - 1
    else RFind(s[..|s| - 1], c)
  }

  /** `sep.join(parts)`. */
  function Join(parts: seq<string>, sep: string): (r: string)
    ensures parts == [] ==> r == ""
    ensures |parts| == 1 ==> r == parts[0]
  {
    if parts == [] then ""
    else if |parts| == 1 then parts[0]
    else parts[0] + sep + Join(parts[1..], sep)
  }

  function LowerChar(c: char): char
  {
    if 'A' <= c <= 'Z' then (c as int + 32) as char else c
  }

  /** `str.lower()` restricted to ASCII letters. */
  function Lower(s: string): (r: string)
    ensures |r| == |s|
    ensures forall i :: 0 <= i < |s| ==> r[i] == LowerChar(s[i])
  {
    seq(|s|, i requires 0 <= i < |s| => LowerChar(s[i]))
  }

  /** A string contains whatever is written inside it. */
  lemma {:induction false} ContainsInside(p: string, sub: string, q: string)
    ensures Contains(p + sub + q, sub)
  {
    if p != [] {
      ContainsInside(p[1..], sub, q);
      assert (p + sub + q)[1..] == p[1..] + sub + q;
    } else {
      assert (p + sub + q)[..|sub|] == sub;
    }
  }

  /** Lower-casing works character by character, so it distributes over concatenation. */
  lemma LowerConcat(a: string, b: string)
    ensures Lower(a + b) == Lower(a) + Lower(b)
  {
  }

  /** Every part sits inside the joined string. */
  lemma {:induction false} JoinAround(parts: seq<string>, sep: string, i: int) returns (p: string, q: string)
    requires 0 <= i < |parts|
    ensures Join(parts, sep) == p + parts[i] + q
  {
    if |parts| == 1 {
      p, q := "", "";
    } else if i == 0 {
      p, q := "", sep + Join(parts[1..], sep);
    } else {
      var p1, q1 := JoinAround(parts[1..], sep, i - 1);
      p, q := parts[0] + sep + p1, q1;
    }
  }
}
