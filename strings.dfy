/**
  The JavaScript string and array operations that the number conversion is built
  from: reversing (`Array.from(s).reverse().join('')`), joining an array of strings
  with a separator (`Array.prototype.join`), splitting on one character
  (`String.prototype.split`), and, for stating properties, deleting every
  occurrence of one character.
 */
module Strings {

  /** `s` read backwards. */
  function Reverse(s: string): (r: string)
    ensures |r| == |s|
    ensures forall i {:trigger r[i]} :: 0 <= i < |s| ==> r[i] == s[|s| - 1 - i]
  {
    if s == [] then [] else Reverse(s[1..]) + [s[0]]
  }

  lemma {:induction false} ReverseReverse(s: string)
    ensures Reverse(Reverse(s)) == s
  {
    var rr := Reverse(Reverse(s));
    assert forall i :: 0 <= i < |s| ==> rr[i] == s[i];
  }

  lemma {:induction false} ReverseAppend(a: string, b: string)
    ensures Reverse(a + b) == Reverse(b) + Reverse(a)
  {
    var l, r := Reverse(a + b), Reverse(b) + Reverse(a);
    assert |l| == |r|;
    forall i | 0 <= i < |l| ensures l[i] == r[i] {
      if i < |b| {
        assert l[i] == (a + b)[|a| + |b| - 1 - i] == b[|b| - 1 - i];
      } else {
        assert l[i] == (a + b)[|a| + |b| - 1 - i] == a[|a| - 1 - (i - |b|)];
      }
    }
  }

  /** The first `k` characters of the reversal are the last `k` of `s`, reversed; the rest is the reversal of the remainder. */
  lemma {:induction false} ReverseSlices(s: string, k: nat)
    requires k <= |s|
    ensures Reverse(s)[..k] == Reverse(s[|s| - k..])
    ensures Reverse(s)[k..] == Reverse(s[..|s| - k])
  {
    var r, n := Reverse(s), |s|;
    var a, b := Reverse(s[n - k..]), Reverse(s[..n - k]);
    forall i | 0 <= i < k ensures r[..k][i] == a[i] {
      calc {
        a[i];
        s[n - k..][k - 1 - i];
        s[n - 1 - i];
        r[i];
      }
    }
    forall i | 0 <= i < n - k ensures r[k..][i] == b[i] {
      calc {
        b[i];
        s[..n - k][n - k - 1 - i];
        s[n - 1 - (k + i)];
        r[k + i];
      }
    }
  }

  /** Concatenation regrouped to the right, and the empty string as a right unit. */
  lemma ConcatRegroup(a: string, b: string, c: string, d: string)
    ensures a + b + c + d == a + (b + (c + d))
    ensures a + b + "" == a + b
  {
  }

  /** `parts.join(sep)`: the parts with `sep` between consecutive ones. */
  function Join(parts: seq<string>, sep: string): string
  {
    if |parts| == 0 then ""
    else if |parts| == 1 then parts[0]
    else parts[0] + sep + Join(parts[1..], sep)
  }

  /** `s.split(d)` for a one-character delimiter: the pieces between occurrences of `d`, always at least one. */
  function Split(s: string, d: char): (parts: seq<string>)
    ensures |parts| >= 1
    ensures forall k :: 0 <= k < |parts| ==> d !in parts[k]
    ensures Join(parts, [d]) == s
    decreases |s|
  {
    if s == [] then [""]
    else
      var rest := Split(s[1..], d);
      if s[0] == d then
        assert ([""] + rest)[1..] == rest;
        [""] + rest
      else
        assert ([[s[0]] + rest[0]] + rest[1..])[1..] == rest[1..];
        assert |rest| > 1 ==> Join(rest, [d]) == rest[0] + [d] + Join(rest[1..], [d]);
        assert s == [s[0]] + s[1..];
        [[s[0]] + rest[0]] + rest[1..]
  }

  /** A string without the delimiter splits into itself alone. */
  lemma {:induction false} SplitAbsent(s: string, d: char)
    requires d !in s
    ensures Split(s, d) == [s]
    decreases |s|
  {
    if s != [] {
      SplitAbsent(s[1..], d);
      assert [s[0]] + s[1..] == s;
    }
  }

  /** A string with exactly one delimiter splits into the text before it and the text after it. */
  lemma {:induction false} SplitOnce(i: string, f: string, d: char)
    requires d !in i && d !in f
    ensures Split(i + [d] + f, d) == [i, f]
    decreases |i|
  {
    var s := i + [d] + f;
    if i == [] {
      assert s[1..] == f;
      SplitAbsent(f, d);
    } else {
      assert s[1..] == i[1..] + [d] + f;
      SplitOnce(i[1..], f, d);
      assert [i[0]] + i[1..] == i;
    }
  }

  /** The first piece of a split is a prefix of the string. */
  lemma {:induction false} SplitFirstIsPrefix(s: string, d: char)
    ensures |Split(s, d)[0]| <= |s| && Split(s, d)[0] == s[..|Split(s, d)[0]|]
    decreases |s|
  {
    if s != [] && s[0] != d {
      SplitFirstIsPrefix(s[1..], d);
    }
  }

  /** `s` with every occurrence of `c` deleted. */
  function Strip(s: string, c: char): (r: string)
    ensures c !in r
  {
    if s == [] then [] else (if s[0] == c then [] else [s[0]]) + Strip(s[1..], c)
  }

  lemma {:induction false} StripAppend(a: string, b: string, c: char)
    ensures Strip(a + b, c) == Strip(a, c) + Strip(b, c)
    decreases |a|
  {
    if a != [] {
      assert (a + b)[1..] == a[1..] + b;
      StripAppend(a[1..], b, c);
    } else {
      assert a + b == b;
    }
  }

  /** Stripping `c` from `c` alone leaves nothing. */
  lemma StripOnly(c: char)
    ensures Strip([c], c) == []
  {
    assert [c][1..] == [];
  }

  /** Stripping `c` from a text split by one `c` joins the stripped left side to the right side. */
  lemma StripAroundMark(p: string, tail: string, c: char)
    requires c !in tail
    ensures Strip(p + [c] + tail, c) == Strip(p, c) + tail
  {
    StripAppend(p + [c], tail, c);
    StripAppend(p, [c], c);
    StripOnly(c);
    StripAbsent(tail, c);
    assert Strip(p, c) + [] == Strip(p, c);
  }

  /** A character absent from a string is absent from both sides of any cut of it. */
  lemma NotInSlices(s: string, k: nat, c: char)
    requires c !in s && k <= |s|
    ensures c !in s[..k] && c !in s[k..]
  {
    assert s == s[..k] + s[k..];
  }

  lemma {:induction false} StripAbsent(s: string, c: char)
    requires c !in s
    ensures Strip(s, c) == s
    decreases |s|
  {
    if s != [] {
      StripAbsent(s[1..], c);
      assert [s[0]] + s[1..] == s;
    }
  }
}
