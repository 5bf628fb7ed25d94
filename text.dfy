/** String splitting as Rust's `str::split(c)` and `str::rsplit(c)` perform it:
    every occurrence of the separator ends one part, so a string with k
    separators has k + 1 parts, some of which may be empty. */
module Text {

  /** The position of the first occurrence of `c` in `s`. */
  function IndexOf(s: string, c: char): (i: nat)
    requires c in s
    ensures i < |s| && s[i] == c && c !in s[..i]
  {
    if s[0] == c then 0
    else
      assert s == [s[0]] + s[1..];
      var j := IndexOf(s[1..], c);
      assert s[..j + 1] == [s[0]] + s[1..][..j];
      1 + j
  }

  /** The position of the last occurrence of `c` in `s`. */
  function LastIndexOf(s: string, c: char): (i: nat)
    requires c in s
    ensures i < |s| && s[i] == c && c !in s[i + 1..]
  {
    var n := |s| - 1;
    if s[n] == c then n
    else
      assert s == s[..n] + [s[n]];
      var j := LastIndexOf(s[..n], c);
      assert s[j + 1..] == s[..n][j + 1..] + [s[n]];
      j
  }

  /** `s.split(c)`: the parts of `s` from left to right. */
  function Split(s: string, c: char): (parts: seq<string>)
    ensures |parts| >= 1
    decreases |s|
  {
    if c !in s then [s]
    else
      var i := IndexOf(s, c);
      [s[..i]] + Split(s[i + 1..], c)
  }

  /** `s.rsplit(c)`: the parts of `s` from right to left. */
  function RSplit(s: string, c: char): (parts: seq<string>)
    ensures |parts| >= 1
    decreases |s|
  {
    if c !in s then [s]
    else
      var i := LastIndexOf(s, c);
      [s[i + 1..]] + RSplit(s[..i], c)
  }

  /** The parts glued back together with the separator between them. */
  function Join(parts: seq<string>, c: char): string
    requires |parts| >= 1
  {
    if |parts| == 1 then parts[0] else parts[0] + [c] + Join(parts[1..], c)
  }

  lemma Join3(parts: seq<string>, c: char)
    requires |parts| == 3
    ensures Join(parts, c) == parts[0] + [c] + parts[1] + [c] + parts[2]
  {
    assert parts[1..][1..] == [parts[2]];
    assert Join(parts[1..][1..], c) == parts[2];
    assert Join(parts[1..], c) == parts[1] + [c] + parts[2];
  }

  function Count(s: string, c: char): nat
  {
    if s == [] then 0 else (if s[0] == c then 1 else 0) + Count(s[1..], c)
  }

  function Reverse<T>(xs: seq<T>): seq<T>
  {
    if xs == [] then [] else Reverse(xs[1..]) + [xs[0]]
  }

  lemma CountAppend(a: string, b: string, c: char)
    ensures Count(a + b, c) == Count(a, c) + Count(b, c)
  {
    if a == [] {
      assert a + b == b;
    } else {
      assert (a + b)[0] == a[0] && (a + b)[1..] == a[1..] + b;
      CountAppend(a[1..], b, c);
    }
  }

  lemma CountAbsent(s: string, c: char)
    requires c !in s
    ensures Count(s, c) == 0
  {
    if s != [] {
      assert s == [s[0]] + s[1..];
      CountAbsent(s[1..], c);
    }
  }

  /** Splitting at the first separator of `a + [c] + r`. */
  lemma SplitAt(a: string, c: char, r: string)
    requires c !in a
    ensures Split(a + [c] + r, c) == [a] + Split(r, c)
  {
    var s := a + [c] + r;
    assert s[|a|] == c;
    assert s[..|a|] == a;
    var i := IndexOf(s, c);
    assert i <= |a| ==> s[..i] == a[..i];
    assert i == |a|;
    assert s[..i] == a && s[i + 1..] == r;
  }

  /** Splitting at the last separator of `s + [c] + e`. */
  lemma RSplitAt(s: string, c: char, e: string)
    requires c !in e
    ensures RSplit(s + [c] + e, c) == [e] + RSplit(s, c)
  {
    var t := s + [c] + e;
    assert t[|s|] == c;
    assert t[|s| + 1..] == e;
    var i := LastIndexOf(t, c);
    assert i >= |s| ==> t[i + 1..] == e[i - |s|..];
    assert i == |s|;
    assert t[..i] == s && t[i + 1..] == e;
  }

  /** Joining the parts of a split gives back the string, no part contains
      the separator, and there is one part more than there are separators. */
  lemma {:induction false} SplitJoin(s: string, c: char)
    ensures Join(Split(s, c), c) == s
    ensures forall k :: 0 <= k < |Split(s, c)| ==> c !in Split(s, c)[k]
    ensures |Split(s, c)| == Count(s, c) + 1
    decreases |s|
  {
    if c !in s {
      CountAbsent(s, c);
    } else {
      var i := IndexOf(s, c);
      var a, r := s[..i], s[i + 1..];
      assert s == a + [c] + r;
      SplitJoin(r, c);
      SplitAt(a, c, r);
      CountStep(a, c, r);
      PartsFreeStep(a, c, Split(r, c));
    }
  }

  /** The separators of `a + [c] + r` when `a` has none. */
  lemma CountStep(a: string, c: char, r: string)
    requires c !in a
    ensures Count(a + [c] + r, c) == Count(r, c) + 1
  {
    CountAbsent(a, c);
    assert a + [c] + r == a + ([c] + r);
    CountAppend(a, [c] + r, c);
    CountAppend([c], r, c);
    assert Count([c], c) == 1 by { assert [c][1..] == []; }
  }

  lemma PartsFreeStep(a: string, c: char, parts: seq<string>)
    requires c !in a && forall k :: 0 <= k < |parts| ==> c !in parts[k]
    ensures forall k :: 0 <= k < |[a] + parts| ==> c !in ([a] + parts)[k]
  {
    forall k | 0 <= k < |[a] + parts| ensures c !in ([a] + parts)[k] {
      if k > 0 {
        assert ([a] + parts)[k] == parts[k - 1];
      }
    }
  }

  /** Splitting a join of separator-free parts gives back the parts. */
  lemma {:induction false} JoinSplit(parts: seq<string>, c: char)
    requires |parts| >= 1
    requires forall k :: 0 <= k < |parts| ==> c !in parts[k]
    ensures Split(Join(parts, c), c) == parts
  {
    if |parts| > 1 {
      JoinSplit(parts[1..], c);
      SplitAt(parts[0], c, Join(parts[1..], c));
      assert parts == [parts[0]] + parts[1..];
    }
  }

  lemma {:induction false} RSplitPrepend(a: string, c: char, r: string)
    requires c !in a
    ensures RSplit(a + [c] + r, c) == RSplit(r, c) + [a]
    decreases |r|
  {
    if c !in r {
      RSplitAt(a, c, r);
    } else {
      var j := LastIndexOf(r, c);
      var r1, e := r[..j], r[j + 1..];
      assert r == r1 + [c] + e;
      assert a + [c] + r == (a + [c] + r1) + [c] + e;
      RSplitAt(a + [c] + r1, c, e);
      RSplitPrepend(a, c, r1);
    }
  }

  /** `rsplit` yields exactly the parts of `split`, in reverse order. */
  lemma {:induction false} RSplitIsReversedSplit(s: string, c: char)
    ensures RSplit(s, c) == Reverse(Split(s, c))
    decreases |s|
  {
    if c !in s {
      assert Reverse([s]) == Reverse([s][1..]) + [s];
    } else {
      var i := IndexOf(s, c);
      var a, r := s[..i], s[i + 1..];
      assert s == a + [c] + r;
      RSplitIsReversedSplit(r, c);
      RSplitPrepend(a, c, r);
      var parts := Split(s, c);
      assert parts == [a] + Split(r, c);
      assert parts[1..] == Split(r, c);
    }
  }

  lemma {:induction false} ReverseAt<T>(xs: seq<T>, k: nat)
    requires k < |xs|
    ensures |Reverse(xs)| == |xs| && Reverse(xs)[k] == xs[|xs| - 1 - k]
  {
    if k < |xs| - 1 {
      ReverseAt(xs[1..], k);
    } else {
      ReverseLength(xs[1..]);
    }
  }

  lemma {:induction false} ReverseLength<T>(xs: seq<T>)
    ensures |Reverse(xs)| == |xs|
  {
    if xs != [] {
      ReverseLength(xs[1..]);
    }
  }
}
