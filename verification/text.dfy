/** Character and sequence helpers shared by the stream decoder, the chunk fold and the schema builder. */
module Text {

  /** True when `prefix` is an initial segment of `s` (Python's `startswith`). */
  predicate StartsWith<T(==)>(s: seq<T>, prefix: seq<T>) {
    |prefix| <= |s| && s[..|prefix|] == prefix
  }

  lemma AppendAssociative<T>(a: seq<T>, b: seq<T>, c: seq<T>)
    ensures a + (b + c) == (a + b) + c
  {
  }

  lemma StartsWithTransitive<T>(a: seq<T>, b: seq<T>, c: seq<T>)
    requires StartsWith(a, b) && StartsWith(b, c)
    ensures StartsWith(a, c)
  {
    assert a[..|c|] == a[..|b|][..|c|];
  }

  /** True when `a` is obtained from `b` by deleting elements, keeping the rest in order. */
  predicate IsSubsequence<T(==)>(a: seq<T>, b: seq<T>)
    decreases |b|
  {
    if |a| == 0 then true
    else if |b| == 0 then false
    else (a[0] == b[0] && IsSubsequence(a[1..], b[1..])) || IsSubsequence(a, b[1..])
  }

  /** The concatenation of a sequence of text fragments, in order. */
  function Concat(parts: seq<string>): string
    decreases |parts|
  {
    if |parts| == 0 then "" else parts[0] + Concat(parts[1..])
  }

  /** A fragment as a list of parts: itself when non-empty, nothing otherwise. */
  function NonEmptyParts(t: string): (parts: seq<string>)
    ensures Concat(parts) == t
    ensures |parts| <= 1
    ensures forall k :: 0 <= k < |parts| ==> |parts[k]| > 0
  {
    if |t| > 0 then
      var parts := [t];
      assert parts[1..] == [];
      parts
    else []
  }

  lemma {:induction false} ConcatAppend(a: seq<string>, b: seq<string>)
    ensures Concat(a + b) == Concat(a) + Concat(b)
    decreases |a|
  {
    if |a| == 0 {
      assert a + b == b;
    } else {
      assert (a + b)[1..] == a[1..] + b;
      ConcatAppend(a[1..], b);
    }
  }

  /** The whitespace bytes Python's `bytes.strip()` removes: space, tab, LF, CR, VT and FF. */
  predicate IsAsciiSpace(c: char) {
    c == ' ' || c == '\t' || c == '\n' || c == '\r' || c == '\U{000B}' || c == '\U{000C}'
  }

  predicate AllSpace(s: string) {
    forall i :: 0 <= i < |s| ==> IsAsciiSpace(s[i])
  }

  /** `s` without its leading whitespace: either empty or starting with a non-space. */
  function TrimStart(s: string): (r: string)
    ensures |r| <= |s|
    ensures |r| > 0 ==> !IsAsciiSpace(r[0])
    decreases |s|
  {
    if |s| > 0 && IsAsciiSpace(s[0]) then TrimStart(s[1..]) else s
  }

  /** Only whitespace is removed from the front: the result is the suffix of `s` after a
      whitespace-only front. */
  lemma {:induction false} TrimStartRemovesSpace(s: string)
    ensures TrimStart(s) == s[|s| - |TrimStart(s)|..]
    ensures AllSpace(s[..|s| - |TrimStart(s)|])
    decreases |s|
  {
    if |s| > 0 && IsAsciiSpace(s[0]) {
      TrimStartRemovesSpace(s[1..]);
      var k := |s| - |TrimStart(s)|;
      assert s[1..][k - 1..] == s[k..];
      assert forall i :: 1 <= i < k ==> s[i] == s[1..][i - 1];
    }
  }

  /** `s` without its trailing whitespace: either empty or ending with a non-space. */
  function TrimEnd(s: string): (r: string)
    ensures |r| <= |s|
    ensures |r| > 0 ==> !IsAsciiSpace(r[|r| - 1])
    decreases |s|
  {
    if |s| > 0 && IsAsciiSpace(s[|s| - 1]) then TrimEnd(s[..|s| - 1]) else s
  }

  /** Only whitespace is removed from the back: the result is the prefix of `s` before a
      whitespace-only back. */
  lemma {:induction false} TrimEndRemovesSpace(s: string)
    ensures TrimEnd(s) == s[..|TrimEnd(s)|]
    ensures AllSpace(s[|TrimEnd(s)|..])
    decreases |s|
  {
    if |s| > 0 && IsAsciiSpace(s[|s| - 1]) {
      TrimEndRemovesSpace(s[..|s| - 1]);
      var k := |TrimEnd(s)|;
      assert s[..|s| - 1][..k] == s[..k];
      assert forall i :: k <= i < |s| - 1 ==> s[i] == s[..|s| - 1][i];
    }
  }

  /** Python's `bytes.strip()` with no argument. */
  function Strip(s: string): (r: string)
    ensures |r| <= |s|
    ensures |r| > 0 ==> !IsAsciiSpace(r[0]) && !IsAsciiSpace(r[|r| - 1])
  {
    TrimEndRemovesSpace(TrimStart(s));
    TrimEnd(TrimStart(s))
  }

  lemma {:induction false} TrimStartSkipsSpace(a: string, t: string)
    requires AllSpace(a)
    requires |t| > 0 ==> !IsAsciiSpace(t[0])
    ensures TrimStart(a + t) == t
    decreases |a|
  {
    if |a| > 0 {
      assert (a + t)[1..] == a[1..] + t;
      TrimStartSkipsSpace(a[1..], t);
    } else {
      assert a + t == t;
    }
  }

  lemma {:induction false} TrimEndSkipsSpace(t: string, b: string)
    requires AllSpace(b)
    requires |t| > 0 ==> !IsAsciiSpace(t[|t| - 1])
    ensures TrimEnd(t + b) == t
    decreases |b|
  {
    if |b| > 0 {
      assert (t + b)[..|t + b| - 1] == t + b[..|b| - 1];
      TrimEndSkipsSpace(t, b[..|b| - 1]);
    } else {
      assert t + b == t;
    }
  }

  /** Stripping a text that has no surrounding whitespace of its own gives back exactly that text,
      whatever whitespace is put around it. */
  lemma StripSurrounded(a: string, t: string, b: string)
    requires AllSpace(a) && AllSpace(b)
    requires |t| > 0 ==> !IsAsciiSpace(t[0]) && !IsAsciiSpace(t[|t| - 1])
    ensures Strip(a + t + b) == t
  {
    if |t| > 0 {
      assert a + t + b == a + (t + b);
      TrimStartSkipsSpace(a, t + b);
      TrimEndSkipsSpace(t, b);
    } else {
      var w := a + b;
      assert AllSpace(w) by {
        forall i | 0 <= i < |w| ensures IsAsciiSpace(w[i]) {
          if i < |a| { assert w[i] == a[i]; } else { assert w[i] == b[i - |a|]; }
        }
      }
      assert a + t + b == w + t;
      TrimStartSkipsSpace(w, t);
    }
  }

  /** Python's `s.rstrip("\n")`: a prefix of `s` that does not end in a newline. */
  function RStripNewlines(s: string): (r: string)
    ensures StartsWith(s, r)
    ensures |r| > 0 ==> r[|r| - 1] != '\n'
    decreases |s|
  {
    if |s| > 0 && s[|s| - 1] == '\n' then RStripNewlines(s[..|s| - 1]) else s
  }

  /** Only newlines are removed: everything after the kept prefix is a newline. */
  lemma {:induction false} RStripRemovesNewlines(s: string)
    ensures forall i :: |RStripNewlines(s)| <= i < |s| ==> s[i] == '\n'
    decreases |s|
  {
    if |s| > 0 && s[|s| - 1] == '\n' {
      var init := s[..|s| - 1];
      RStripRemovesNewlines(init);
      assert forall i :: 0 <= i < |init| ==> init[i] == s[i];
    }
  }
}
