/**
 * String primitives of the JavaScript runtime that the intake server and the
 * wizard lean on: `trim`, `split(',')`, `Array.prototype.join` and substring
 * search. Strings are sequences of Unicode scalar values.
 */
module Text {

  /** The characters `String.prototype.trim` (and the regex class `\s`) treat as
      white space: ECMAScript's WhiteSpace and LineTerminator productions. */
  predicate IsSpace(c: char)
  {
    || c == ' ' || c == '\t' || c == '\n' || c == '\r'
    || c == '\U{000B}' || c == '\U{000C}' || c == '\U{00A0}' || c == '\U{1680}'
    || ('\U{2000}' <= c <= '\U{200A}')
    || c == '\U{2028}' || c == '\U{2029}' || c == '\U{202F}' || c == '\U{205F}'
    || c == '\U{3000}' || c == '\U{FEFF}'
  }

  predicate AllSpace(s: string)
  {
    forall i :: 0 <= i < |s| ==> IsSpace(s[i])
  }

  /** Neither end of `s` is white space. */
  predicate IsTrimmed(s: string)
  {
    s == [] || (!IsSpace(s[0]) && !IsSpace(s[|s| - 1]))
  }

  function TrimStart(s: string): (r: string)
    ensures |r| <= |s| && r == s[|s| - |r|..]
    ensures r == [] || !IsSpace(r[0])
    ensures AllSpace(s[..|s| - |r|])
  {
    if |s| > 0 && IsSpace(s[0]) then
      var r := TrimStart(s[1..]);
      assert s[1..][|s| - 1 - |r|..] == s[|s| - |r|..];
      assert forall i :: 1 <= i < |s| - |r| ==> s[i] == s[1..][i - 1];
      r
    else
      s
  }

  function TrimEnd(s: string): (r: string)
    ensures |r| <= |s| && r == s[..|r|]
    ensures r == [] || !IsSpace(r[|r| - 1])
    ensures AllSpace(s[|r|..])
  {
    if |s| > 0 && IsSpace(s[|s| - 1]) then
      var r := TrimEnd(s[..|s| - 1]);
      assert s[..|s| - 1][..|r|] == s[..|r|];
      assert forall i :: |r| <= i < |s| - 1 ==> s[i] == s[..|s| - 1][i];
      r
    else
      s
  }

  /** `r` is `s` with the `k` white-space characters in front and all the
      white space behind removed. */
  predicate Unpadded(s: string, r: string, k: nat)
  {
    && k + |r| <= |s| && s[k..k + |r|] == r
    && AllSpace(s[..k]) && AllSpace(s[k + |r|..])
  }

  /** `String.prototype.trim`. */
  function Trim(s: string): (r: string)
    ensures IsTrimmed(r)
    ensures |r| <= |s|
  {
    var t := TrimStart(s);
    var r := TrimEnd(t);
    assert r == [] || !IsSpace(r[0]) by {
      if r != [] { assert r[0] == t[0]; }
    }
    r
  }

  /** Together with `IsTrimmed`, this pins `Trim(s)` down: it is the part
      of `s` left between the leading and the trailing white space. */
  lemma TrimIsMiddle(s: string)
    ensures Unpadded(s, Trim(s), |s| - |TrimStart(s)|)
  {
    var t := TrimStart(s);
    var k := |s| - |t|;
    assert t == s[k..] && AllSpace(s[..k]);
    MiddleOf(s, k, t, TrimEnd(t));
  }

  /** Cutting white space off the end of `s[k..]` leaves a middle part of `s`. */
  lemma MiddleOf(s: string, k: nat, t: string, r: string)
    requires k <= |s| && t == s[k..] && AllSpace(s[..k])
    requires |r| <= |t| && r == t[..|r|] && AllSpace(t[|r|..])
    ensures Unpadded(s, r, k)
  {
    assert t[..|r|] == s[k..k + |r|];
    assert s[k + |r|..] == t[|r|..];
  }

  /** Trimming drops only surrounding white space: a string with no white space
      at either end comes back unchanged. */
  lemma TrimOfTrimmed(s: string)
    requires IsTrimmed(s)
    ensures Trim(s) == s
  {
    assert TrimStart(s) == s;
    assert TrimEnd(s) == s;
  }

  /** A string of white space trims from either end to nothing. */
  lemma {:induction false} AllSpaceTrimsAway(s: string)
    requires AllSpace(s)
    ensures TrimStart(s) == [] && TrimEnd(s) == []
  {
    if s != [] {
      AllSpaceTrimsAway(s[1..]);
      AllSpaceTrimsAway(s[..|s| - 1]);
    }
  }

  /** Trimming leaves nothing exactly when the string is all white space. */
  lemma TrimEmptyIffAllSpace(s: string)
    ensures Trim(s) == [] <==> AllSpace(s)
  {
    if AllSpace(s) {
      AllSpaceTrimsAway(s);
    }
    var t := TrimStart(s);
    if TrimEnd(t) == [] {
      assert t[0..] == t;
      assert t == [];
      assert s[..|s|] == s;
    }
  }

  /** Trimming twice is trimming once. */
  lemma TrimIdempotent(s: string)
    ensures Trim(Trim(s)) == Trim(s)
  {
    TrimOfTrimmed(Trim(s));
  }

  /** `xs.join(sep)` over strings. */
  function Join(xs: seq<string>, sep: string): string
  {
    if xs == [] then ""
    else if |xs| == 1 then xs[0]
    else xs[0] + sep + Join(xs[1..], sep)
  }

  function IndexOf(s: string, c: char): (i: nat)
    requires c in s
    ensures i < |s| && s[i] == c && c !in s[..i]
  {
    if s[0] == c then 0
    else
      var i := IndexOf(s[1..], c);
      assert s[1..][..i] == s[1..i + 1];
      1 + i
  }

  /** `IndexOf` finds the first occurrence. */
  lemma {:induction false} IndexOfFirst(s: string, c: char, k: nat)
    requires k < |s| && s[k] == c && c !in s[..k]
    ensures IndexOf(s, c) == k
  {
    if k > 0 {
      assert s[0] in s[..k];
      assert s[1..][k - 1] == c && s[1..][..k - 1] == s[1..k];
      assert forall x <- s[1..k] :: x in s[..k];
      IndexOfFirst(s[1..], c, k - 1);
    }
  }

  /** `s.split(c)` for a one-character separator: the pieces between the
      separators, in order; joining them again with the separator gives `s`. */
  function Split(s: string, c: char): (parts: seq<string>)
    ensures |parts| >= 1
    ensures forall p <- parts :: c !in p
    ensures Join(parts, [c]) == s
    decreases |s|
  {
    if c !in s then [s]
    else
      var i := IndexOf(s, c);
      var rest := Split(s[i + 1..], c);
      var parts := [s[..i]] + rest;
      assert parts[1..] == rest;
      assert s == s[..i] + [c] + s[i + 1..];
      parts
  }

  /** Splitting at the separator after the first piece gives that piece,
      then the pieces of the rest. */
  lemma SplitFirst(a: string, c: char, b: string)
    requires c !in a
    ensures Split(a + [c] + b, c) == [a] + Split(b, c)
  {
    var s := a + [c] + b;
    assert s[..|a|] == a && s[|a| + 1..] == b;
    IndexOfFirst(s, c, |a|);
  }

  /** The lines before the first one that holds the separator read back
      unchanged from the joined text. */
  lemma {:induction false} SplitJoinPrefix(xs: seq<string>, c: char, k: nat)
    requires k < |xs|
    requires forall x <- xs[..k] :: c !in x
    ensures |Split(Join(xs, [c]), c)| > k && Split(Join(xs, [c]), c)[..k] == xs[..k]
  {
    if k > 0 {
      assert xs[0] in xs[..k];
      SplitJoinHead(xs, c);
      TailAvoids(xs, c, k);
      SplitJoinPrefix(xs[1..], c, k - 1);
      ConsPrefix(xs[0], Split(Join(xs[1..], [c]), c), xs, k);
    }
  }

  /** The pieces after the first avoid `c` wherever the first `k` did. */
  lemma TailAvoids(xs: seq<string>, c: char, k: nat)
    requires 0 < k <= |xs|
    requires forall x <- xs[..k] :: c !in x
    ensures forall x <- xs[1..][..k - 1] :: c !in x
  {
    assert xs[1..][..k - 1] == xs[..k][1..];
  }

  /** Putting the first element back in front of a list that agrees with the
      rest on `k - 1` places makes it agree with the whole on `k`. */
  lemma ConsPrefix<T>(x: T, parts: seq<T>, xs: seq<T>, k: nat)
    requires 0 < k < |xs| && xs[0] == x
    requires |parts| > k - 1 && parts[..k - 1] == xs[1..][..k - 1]
    ensures |[x] + parts| > k && ([x] + parts)[..k] == xs[..k]
  {
    assert ([x] + parts)[..k] == [x] + parts[..k - 1];
    assert xs[..k] == [xs[0]] + xs[1..][..k - 1];
  }

  /** Splitting a joined list peels off its first line when that line has no
      separator. */
  lemma SplitJoinHead(xs: seq<string>, c: char)
    requires |xs| >= 2 && c !in xs[0]
    ensures Split(Join(xs, [c]), c) == [xs[0]] + Split(Join(xs[1..], [c]), c)
  {
    var rest := Join(xs[1..], [c]);
    assert Join(xs, [c]) == xs[0] + [c] + rest;
    SplitFirst(xs[0], c, rest);
  }

  /** Splitting undoes joining when no piece holds the separator. */
  lemma {:induction false} SplitJoin(xs: seq<string>, c: char)
    requires |xs| >= 1 && forall x <- xs :: c !in x
    ensures Split(Join(xs, [c]), c) == xs
  {
    if |xs| > 1 {
      SplitFirst(xs[0], c, Join(xs[1..], [c]));
      SplitJoin(xs[1..], c);
      assert xs == [xs[0]] + xs[1..];
    }
  }

  /** Joining two non-empty lists is joining each and putting the separator between. */
  lemma {:induction false} JoinAppend(xs: seq<string>, ys: seq<string>, sep: string)
    requires xs != [] && ys != []
    ensures Join(xs + ys, sep) == Join(xs, sep) + sep + Join(ys, sep)
  {
    if |xs| > 1 {
      assert (xs + ys)[1..] == xs[1..] + ys;
      JoinAppend(xs[1..], ys, sep);
    }
  }

  /** `xs.map(s => s.trim())`. */
  function TrimAll(xs: seq<string>): (r: seq<string>)
    ensures |r| == |xs|
    ensures forall i :: 0 <= i < |xs| ==> r[i] == Trim(xs[i])
  {
    if xs == [] then [] else [Trim(xs[0])] + TrimAll(xs[1..])
  }

  /** `xs.filter(Boolean)` over strings: the empty string is the only falsy one. */
  function NonEmpty(xs: seq<string>): (r: seq<string>)
    ensures |r| <= |xs|
    ensures forall x <- r :: x != "" && x in xs
    ensures forall x <- xs :: x != "" ==> x in r
  {
    if xs == [] then []
    else if xs[0] == "" then NonEmpty(xs[1..])
    else [xs[0]] + NonEmpty(xs[1..])
  }

  /** Filtering works piece by piece: the kept entries of `a + b` are those
      of `a` followed by those of `b`, each in its order. */
  lemma {:induction false} NonEmptySplits(a: seq<string>, b: seq<string>)
    ensures NonEmpty(a + b) == NonEmpty(a) + NonEmpty(b)
  {
    if a != [] {
      var s := a + b;
      assert s[0] == a[0] && s[1..] == a[1..] + b;
      NonEmptySplits(a[1..], b);
      var kept := if a[0] == "" then [] else [a[0]];
      assert NonEmpty(s) == kept + NonEmpty(s[1..]);
      assert NonEmpty(a) == kept + NonEmpty(a[1..]);
    } else {
      assert a + b == b;
    }
  }

  /** One entry is kept exactly when it is not empty. */
  lemma NonEmptyOne(x: string)
    ensures NonEmpty([x]) == if x == "" then [] else [x]
  {
    assert [x][1..] == [];
  }

  /** Dropping empty strings from a list that has none changes nothing. */
  lemma {:induction false} NonEmptyKeeps(xs: seq<string>)
    requires forall x <- xs :: x != ""
    ensures NonEmpty(xs) == xs
  {
    if xs != [] {
      assert xs[0] in xs;
      assert forall x <- xs[1..] :: x in xs;
      NonEmptyKeeps(xs[1..]);
      assert xs == [xs[0]] + xs[1..];
    }
  }

  predicate IsPrefix(p: string, s: string)
  {
    |p| <= |s| && s[..|p|] == p
  }

  /** `s.includes(p)`: `p` occurs somewhere in `s`. */
  predicate Contains(s: string, p: string)
    decreases |s|
  {
    IsPrefix(p, s) || (|s| > 0 && Contains(s[1..], p))
  }

  /** Whatever is glued between two strings occurs in the result. */
  lemma {:induction false} ContainsMiddle(a: string, p: string, b: string)
    ensures Contains(a + p + b, p)
    decreases |a|
  {
    if a == [] {
      assert a + p + b == p + b;
      assert (p + b)[..|p|] == p;
    } else {
      assert (a + p + b)[1..] == a[1..] + p + b;
      ContainsMiddle(a[1..], p, b);
    }
  }

  /** `s.slice(0, n)`. */
  function Take(s: string, n: nat): (r: string)
    ensures |r| <= n && IsPrefix(r, s)
    ensures |s| <= n ==> r == s
    ensures |r| == if |s| <= n then |s| else n
  {
    if |s| <= n then s else s[..n]
  }

  /** Trimming the start of a string that does not begin with white space
      only trims its end, so the result is a prefix of it. */
  lemma TrimKeepsUnspacedStart(s: string)
    requires s == [] || !IsSpace(s[0])
    ensures IsPrefix(Trim(s), s)
  {
    assert TrimStart(s) == s;
    var r := TrimEnd(s);
    assert r == s[..|r|];
  }

  /** A string opening with a non-space character still opens with it once trimmed. */
  lemma TrimOpensWith(ch: char, rest: string)
    requires !IsSpace(ch)
    ensures var t := Trim([ch] + rest); t != [] && t[0] == ch
  {
    var s := [ch] + rest;
    TrimKeepsUnspacedStart(s);
    assert Trim(s) != [] by {
      TrimEmptyIffAllSpace(s);
      assert !IsSpace(s[0]);
    }
  }
}
