/** The string operations the device script relies on, with MicroPython
    semantics: `str.strip()` with no argument, `str.split(sep)` with a
    one-character separator, and `"".join(parts)`. */
module Text {

  /** MicroPython's default `strip()` set: space, tab, newline, carriage
      return, vertical tab and form feed. */
  predicate IsSpace(c: char) {
    c == ' ' || c == '\t' || c == '\n' || c == '\r' || c == '\U{0B}' || c == '\U{0C}'
  }

  predicate AllSpace(s: string) {
    forall i :: 0 <= i < |s| ==> IsSpace(s[i])
  }

  /** Drops leading whitespace: the result is a suffix of s, only whitespace was
      dropped, and the result does not start with whitespace. */
  function StripLeft(s: string): (r: string)
    ensures |r| <= |s| && r == s[|s| - |r|..]
    ensures AllSpace(s[..|s| - |r|])
    ensures |r| > 0 ==> !IsSpace(r[0])
  {
    if |s| > 0 && IsSpace(s[0]) then StripLeft(s[1..]) else s
  }

  /** Drops trailing whitespace: the result is a prefix of s, only whitespace
      was dropped, and the result does not end with whitespace. */
  function StripRight(s: string): (r: string)
    ensures |r| <= |s| && r == s[..|r|]
    ensures AllSpace(s[|r|..])
    ensures |r| > 0 ==> !IsSpace(r[|r| - 1])
  {
    if |s| > 0 && IsSpace(s[|s| - 1]) then StripRight(s[..|s| - 1]) else s
  }

  /** Drops whitespace at both ends: the result is the middle of s between a
      whitespace-only prefix and a whitespace-only suffix. */
  function Strip(s: string): (r: string)
    ensures Trimmed(r)
    ensures Middle(s, |s| - |StripLeft(s)|, r)
  {
    var l := StripLeft(s);
    var r := StripRight(l);
    MiddleOf(s, |s| - |l|, l, r);
    r
  }

  /** Neither end of t is whitespace. */
  predicate Trimmed(t: string) {
    |t| == 0 || (!IsSpace(t[0]) && !IsSpace(t[|t| - 1]))
  }

  /** r is the part of s after its first k characters and before a
      whitespace-only tail, and those first k characters are whitespace. */
  predicate Middle(s: string, k: int, r: string) {
    0 <= k && k + |r| <= |s| && r == s[k..k + |r|] && AllSpace(s[..k]) && AllSpace(s[k + |r|..])
  }

  /** Trimming both ends separately: if l is s without a whitespace prefix of
      length k and r is l without a whitespace suffix, then r is the middle
      slice of s and has non-space ends. */
  lemma MiddleOf(s: string, k: nat, l: string, r: string)
    requires k <= |s| && l == s[k..] && AllSpace(s[..k]) && (|l| > 0 ==> !IsSpace(l[0]))
    requires |r| <= |l| && r == l[..|r|] && AllSpace(l[|r|..]) && (|r| > 0 ==> !IsSpace(r[|r| - 1]))
    ensures Trimmed(r)
    ensures Middle(s, k, r)
  {
    if |r| > 0 {
      assert r[0] == l[0];
    }
    assert s[k + |r|..] == l[|r|..];
  }

  /** A text framed by whitespace strips to its non-blank core, whatever the
      amount of whitespace around it. */
  lemma StripCore(pre: string, core: string, post: string)
    requires AllSpace(pre) && AllSpace(post)
    requires |core| == 0 || (!IsSpace(core[0]) && !IsSpace(core[|core| - 1]))
    ensures Strip(pre + core + post) == core
  {
    if |core| == 0 {
      assert pre + core + post == pre + post;
      AllSpaceAppend(pre, post);
      StripLeftAllSpace(pre + post);
    } else {
      assert pre + core + post == pre + (core + post);
      StripLeftSpaces(pre, core + post);
      StripRightSpaces(core, post);
    }
  }

  lemma AllSpaceAppend(a: string, b: string)
    requires AllSpace(a) && AllSpace(b)
    ensures AllSpace(a + b)
  {
    forall i | 0 <= i < |a + b| ensures IsSpace((a + b)[i]) {
      if i >= |a| { assert (a + b)[i] == b[i - |a|]; }
    }
  }

  lemma {:induction false} StripLeftSpaces(pre: string, t: string)
    requires AllSpace(pre) && |t| > 0 && !IsSpace(t[0])
    ensures StripLeft(pre + t) == t
  {
    if |pre| > 0 {
      assert (pre + t)[1..] == pre[1..] + t;
      StripLeftSpaces(pre[1..], t);
    } else {
      assert pre + t == t;
    }
  }

  lemma {:induction false} StripRightSpaces(t: string, post: string)
    requires AllSpace(post) && |t| > 0 && !IsSpace(t[|t| - 1])
    ensures StripRight(t + post) == t
  {
    if |post| > 0 {
      assert (t + post)[..|t + post| - 1] == t + post[..|post| - 1];
      StripRightSpaces(t, post[..|post| - 1]);
    } else {
      assert t + post == t;
    }
  }

  lemma {:induction false} StripLeftAllSpace(s: string)
    requires AllSpace(s)
    ensures StripLeft(s) == ""
  {
    if |s| > 0 {
      StripLeftAllSpace(s[1..]);
    }
  }

  /** Position of the first occurrence of c in s. */
  function IndexOf(s: string, c: char): (i: nat)
    requires c in s
    ensures i < |s| && s[i] == c && c !in s[..i]
  {
    if s[0] == c then 0 else 1 + IndexOf(s[1..], c)
  }

  /** `sep.join(parts)` with a one-character separator. */
  function Join(parts: seq<string>, sep: char): string
    requires |parts| >= 1
  {
    if |parts| == 1 then parts[0] else parts[0] + [sep] + Join(parts[1..], sep)
  }

  /** `s.split(sep)`: the separator-free pieces between occurrences of sep,
      always at least one (an empty text splits into one empty piece). */
  function Split(s: string, sep: char): (parts: seq<string>)
    ensures |parts| >= 1
    ensures forall i :: 0 <= i < |parts| ==> sep !in parts[i]
    ensures Join(parts, sep) == s
    decreases |s|
  {
    if sep !in s then [s]
    else
      var i := IndexOf(s, sep);
      var rest := Split(s[i + 1..], sep);
      assert s == s[..i] + [sep] + s[i + 1..];
      [s[..i]] + rest
  }

  /** Split is the only separator-free decomposition whose join is s, so
      split undoes join. */
  lemma {:induction false} SplitJoin(parts: seq<string>, sep: char)
    requires |parts| >= 1
    requires forall i :: 0 <= i < |parts| ==> sep !in parts[i]
    ensures Split(Join(parts, sep), sep) == parts
  {
    if |parts| > 1 {
      var s := Join(parts, sep);
      var p := parts[0];
      assert s == p + [sep] + Join(parts[1..], sep);
      assert s[|p|] == sep;
      assert s[..|p|] == p;
      IndexOfAfter(p, sep, Join(parts[1..], sep));
      assert s[|p| + 1..] == Join(parts[1..], sep);
      SplitJoin(parts[1..], sep);
    }
  }

  lemma {:induction false} IndexOfAfter(p: string, c: char, rest: string)
    requires c !in p
    ensures IndexOf(p + [c] + rest, c) == |p|
  {
    if |p| > 0 {
      assert (p + [c] + rest)[1..] == p[1..] + [c] + rest;
      IndexOfAfter(p[1..], c, rest);
    }
  }

  lemma {:induction false} JoinAppend(a: seq<string>, b: seq<string>, sep: char)
    requires |a| >= 1 && |b| >= 1
    ensures Join(a + b, sep) == Join(a, sep) + [sep] + Join(b, sep)
  {
    if |a| > 1 {
      assert (a + b)[1..] == a[1..] + b;
      JoinAppend(a[1..], b, sep);
    }
  }

  /** `"".join(parts)`. */
  function Concat(parts: seq<string>): string
  {
    if |parts| == 0 then "" else parts[0] + Concat(parts[1..])
  }

  /** Pieces free of c join, without separator, into a text free of c. */
  lemma {:induction false} ConcatFree(parts: seq<string>, c: char)
    requires forall i :: 0 <= i < |parts| ==> c !in parts[i]
    ensures c !in Concat(parts)
  {
    if |parts| > 0 {
      ConcatFree(parts[1..], c);
      var r := Concat(parts);
      assert r == parts[0] + Concat(parts[1..]);
      forall k | 0 <= k < |r| ensures r[k] != c {
        if k < |parts[0]| { assert r[k] == parts[0][k]; }
        else { assert r[k] == Concat(parts[1..])[k - |parts[0]|]; }
      }
    }
  }

  /** s with every occurrence of c deleted. */
  function Remove(s: string, c: char): (r: string)
    ensures c !in r
  {
    if |s| == 0 then "" else (if s[0] == c then "" else [s[0]]) + Remove(s[1..], c)
  }

  lemma {:induction false} RemoveAppend(a: string, b: string, c: char)
    ensures Remove(a + b, c) == Remove(a, c) + Remove(b, c)
  {
    if |a| > 0 {
      assert (a + b)[1..] == a[1..] + b;
      RemoveAppend(a[1..], b, c);
    } else {
      assert a + b == b;
    }
  }

  lemma {:induction false} RemoveAbsent(s: string, c: char)
    requires c !in s
    ensures Remove(s, c) == s
  {
    if |s| > 0 {
      RemoveAbsent(s[1..], c);
    }
  }

  /** Deleting c from a text whose first c is at position i keeps the part
      before i intact. */
  lemma RemoveAt(s: string, i: nat, c: char)
    requires i < |s| && s[i] == c && c !in s[..i]
    ensures Remove(s, c) == s[..i] + Remove(s[i + 1..], c)
  {
    var head, tail := s[..i], s[i + 1..];
    assert Remove(s, c) == Remove(head, c) + Remove([c] + tail, c) by {
      assert s == head + ([c] + tail);
      RemoveAppend(head, [c] + tail, c);
    }
    assert Remove([c] + tail, c) == Remove(tail, c) by {
      assert ([c] + tail)[1..] == tail;
    }
    assert Remove(head, c) == head by {
      RemoveAbsent(head, c);
    }
  }

  /** Joining the pieces of a split without a separator deletes the separator. */
  lemma {:induction false} ConcatSplit(s: string, sep: char)
    ensures Concat(Split(s, sep)) == Remove(s, sep)
    decreases |s|
  {
    if sep !in s {
      assert Split(s, sep) == [s];
      assert [s][1..] == [];
      assert Concat([s]) == s + Concat([]);
      RemoveAbsent(s, sep);
    } else {
      var i := IndexOf(s, sep);
      var head, tail := s[..i], s[i + 1..];
      var parts := Split(s, sep);
      assert parts == [head] + Split(tail, sep);
      assert parts[1..] == Split(tail, sep);
      assert Concat(parts) == head + Concat(Split(tail, sep));
      ConcatSplit(tail, sep);
      RemoveAt(s, i, sep);
    }
  }
}
