/**
  The digit-grouping pipeline of `convertNumberToNumberString`: reverse the integer
  digits, cut them into chunks of three, join the chunks with the digit separator
  and reverse the result back.
 */
module NumberGrouping {
  import opened Strings

  /** The chunk size used by the number conversion. */
  const GroupSize: nat := 3

  /**
    What `chunk(str, n)` returns: consecutive pieces of `str`, each `n` long except
    the last, which holds the 1 to `n` characters left over.
   */
  function Chunks(s: string, n: nat): (r: seq<string>)
    requires n > 0
    ensures |r| == 0 <==> |s| == 0
    ensures |r| <= |s|
    decreases |s|
  {
    if |s| == 0 then []
    else if |s| <= n then [s]
    else [s[..n]] + Chunks(s[n..], n)
  }

  /** The pieces of `chunk` concatenate back to `s`; the empty string gives no pieces. */
  lemma {:induction false} ChunksJoin(s: string, n: nat)
    requires n > 0
    ensures Join(Chunks(s, n), "") == s
    ensures |Chunks(s, n)| == 0 <==> |s| == 0
    decreases |s|
  {
    if |s| > n {
      var rest := Chunks(s[n..], n);
      ChunksJoin(s[n..], n);
      var pieces := [s[..n]] + rest;
      assert pieces == Chunks(s, n);
      assert pieces[1..] == rest;
      assert Join(pieces, "") == s[..n] + "" + Join(rest, "");
      assert s[..n] + "" + s[n..] == s;
    }
  }

  /** Every piece of `chunk` but the last is `n` long, and the last holds 1 to `n` characters. */
  lemma {:induction false} ChunksSizes(s: string, n: nat)
    requires n > 0
    ensures forall k :: 0 <= k < |Chunks(s, n)| - 1 ==> |Chunks(s, n)[k]| == n
    ensures |Chunks(s, n)| > 0 ==> 1 <= |Chunks(s, n)[|Chunks(s, n)| - 1]| <= n
    decreases |s|
  {
    if |s| > n {
      var rest := Chunks(s[n..], n);
      ChunksSizes(s[n..], n);
      var pieces := [s[..n]] + rest;
      assert pieces == Chunks(s, n);
      assert |rest| > 0;
      assert pieces[|pieces| - 1] == rest[|rest| - 1];
      forall k | 0 <= k < |pieces| - 1 ensures |pieces[k]| == n {
        if k > 0 { assert pieces[k] == rest[k - 1]; }
      }
    }
  }

  /** The inner `chunk` function: a loop that pushes `str.substr(i, n)` for `i = 0, n, 2n, ...`. */
  method Chunk(str: string, n: nat) returns (ret: seq<string>)
    requires n > 0
    ensures ret == Chunks(str, n)
  {
    ret := [];
    var i := 0;
    var len := |str|;
    while i < len
      invariant i < len ==> ret + Chunks(str[i..], n) == Chunks(str, n)
      invariant i >= len ==> ret == Chunks(str, n)
      decreases len - i
    {
      var rest := str[i..];
      var piece := str[i..if i + n <= len then i + n else len];
      if i + n < len {
        assert piece == rest[..n] && str[i + n..] == rest[n..];
      } else {
        assert piece == rest;
      }
      ret := ret + [piece];
      i := i + n;
    }
  }

  /**
    The grouping expression of the number conversion, applied to the integer digits
    `d` with the separator text `sep` exactly as configured.
   */
  function GroupDigits(d: string, sep: string): string
  {
    Reverse(Join(Chunks(Reverse(d), GroupSize), sep))
  }

  /**
    An independent reading of "groups of three from the right": the last three
    characters form a group, preceded by `mark` and the grouping of the rest.
   */
  function GroupFromRight(d: string, mark: string): string
    decreases |d|
  {
    if |d| <= 3 then d
    else GroupFromRight(d[..|d| - 3], mark) + mark + d[|d| - 3..]
  }

  /**
    The pipeline groups from the right, inserting the separator text REVERSED: the
    separator is joined in before the final reversal. For a one-character separator
    that is the separator itself; for `NONE` it is `ENON`.
   */
  lemma {:induction false} GroupDigitsFromRight(d: string, sep: string)
    ensures GroupDigits(d, sep) == GroupFromRight(d, Reverse(sep))
    decreases |d|
  {
    var rd := Reverse(d);
    if |d| == 0 {
    } else if |d| <= 3 {
      ReverseReverse(d);
    } else {
      var head, tail := d[..|d| - 3], d[|d| - 3..];
      ReverseSlices(d, 3);
      var rest := Chunks(rd[3..], GroupSize);
      assert Chunks(rd, GroupSize) == [rd[..3]] + rest;
      assert ([rd[..3]] + rest)[1..] == rest;
      assert |rest| > 0;
      var j := Join(rest, sep);
      assert Join(Chunks(rd, GroupSize), sep) == rd[..3] + sep + j;
      ReverseAppend(rd[..3] + sep, j);
      ReverseAppend(rd[..3], sep);
      ReverseReverse(tail);
      assert Reverse(rd[..3]) == tail;
      assert rd[3..] == Reverse(head);
      GroupDigitsFromRight(head, sep);
      assert Reverse(j) == GroupFromRight(head, Reverse(sep));
    }
  }

  /** Deleting every `mark` character from the grouped text gives the digits back. */
  lemma {:induction false} GroupFromRightStrip(d: string, c: char)
    requires c !in d
    ensures Strip(GroupFromRight(d, [c]), c) == d
    decreases |d|
  {
    if |d| <= 3 {
      StripAbsent(d, c);
    } else {
      var k := |d| - 3;
      var head, tail := d[..k], d[k..];
      NotInSlices(d, k, c);
      var p := GroupFromRight(head, [c]);
      assert GroupFromRight(d, [c]) == p + [c] + tail;
      GroupFromRightStrip(head, c);
      StripAroundMark(p, tail, c);
      assert head + tail == d;
    }
  }

  /** The grouped text is one separator longer for every full group of three beyond the first digit. */
  lemma {:induction false} GroupFromRightLength(d: string, mark: string)
    requires |d| > 0
    ensures |GroupFromRight(d, mark)| == |d| + |mark| * ((|d| - 1) / 3)
    decreases |d|
  {
    if |d| > 3 {
      GroupFromRightLength(d[..|d| - 3], mark);
      var q := (|d| - 4) / 3;
      assert (|d| - 1) / 3 == q + 1;
      assert |mark| * (q + 1) == |mark| * q + |mark|;
    }
  }

  /** The arithmetic of positions counted from the end, four characters per group. */
  lemma FourthFromEnd(x: int)
    ensures (x + 4) % 4 == 0 <==> x % 4 == 0
    ensures x == 0 ==> (x + 4) % 4 == 0
    ensures -3 <= x < 0 ==> (x + 4) % 4 != 0
  {
  }

  /** A position of `r` holds `c` exactly when its distance from the end is a multiple of four. */
  predicate MarksEveryFourth(r: string, c: char)
  {
    forall i :: 0 <= i < |r| ==> (r[i] == c <==> (|r| - i) % 4 == 0)
  }

  /** Appending a mark and a group of three that does not contain it keeps every mark four apart from the end. */
  lemma MarkThenGroup(p: string, tail: string, c: char)
    requires MarksEveryFourth(p, c)
    requires |tail| == 3 && c !in tail
    ensures MarksEveryFourth(p + [c] + tail, c)
  {
    var r := p + [c] + tail;
    forall i | 0 <= i < |r| ensures r[i] == c <==> (|r| - i) % 4 == 0 {
      if i < |p| {
        assert r[i] == p[i];
        var x := |p| - i;
        assert |r| - i == x + 4;
        FourthFromEnd(x);
      } else if i == |p| {
        assert |r| - i == 0 + 4;
        FourthFromEnd(0);
      } else {
        assert r[i] == tail[i - |p| - 1];
        assert tail[i - |p| - 1] in tail;
        var x := |r| - i - 4;
        assert |r| - i == x + 4 && -3 <= x < 0;
        FourthFromEnd(x);
      }
    }
  }

  /**
    With a one-character separator `c` that is not among the digits, a position of
    the grouped text holds `c` exactly when its distance from the end is a multiple
    of four: after every third digit counting from the right, never first, never last.
   */
  lemma {:induction false} GroupFromRightPositions(d: string, c: char)
    requires c !in d
    ensures MarksEveryFourth(GroupFromRight(d, [c]), c)
    decreases |d|
  {
    if |d| <= 3 {
      forall i | 0 <= i < |d| ensures d[i] != c && 1 <= |d| - i <= 3 {
        assert d[i] in d;
      }
    } else {
      var head, tail := d[..|d| - 3], d[|d| - 3..];
      NotInSlices(d, |d| - 3, c);
      GroupFromRightPositions(head, c);
      MarkThenGroup(GroupFromRight(head, [c]), tail, c);
    }
  }

  /** The grouping theorem for the number conversion's own pipeline with a one-character separator. */
  lemma GroupDigitsShape(d: string, c: char)
    requires c !in d
    ensures Strip(GroupDigits(d, [c]), c) == d
    ensures forall i :: 0 <= i < |GroupDigits(d, [c])| ==>
      (GroupDigits(d, [c])[i] == c <==> (|GroupDigits(d, [c])| - i) % 4 == 0)
    ensures |d| > 0 ==> |GroupDigits(d, [c])| == |d| + (|d| - 1) / 3
  {
    GroupDigitsFromRight(d, [c]);
    assert Reverse([c]) == [c];
    GroupFromRightStrip(d, c);
    GroupFromRightPositions(d, c);
    if |d| > 0 { GroupFromRightLength(d, [c]); }
  }

  /** The grouped text starts with the first character of the digits. */
  lemma {:induction false} GroupFromRightFirst(d: string, mark: string)
    requires |d| > 0
    ensures |GroupFromRight(d, mark)| > 0 && GroupFromRight(d, mark)[0] == d[0]
    decreases |d|
  {
    if |d| > 3 {
      GroupFromRightFirst(d[..|d| - 3], mark);
    }
  }
}
