/**
  The handful of Python `str` operations the bot relies on, for one-character
  separators: `s.split(c)`, `c.join(parts)`, `s.replace(a, b)` for single
  characters, and `s.replace(c, "")` (removal). Strings are `seq<char>`.
 */
module Text {

  /** Number of occurrences of `c` in `s`. */
  function Count(s: string, c: char): nat
  {
    if s == [] then 0 else (if s[0] == c then 1 else 0) + Count(s[1..], c)
  }

  /** `s` holds no `c`. */
  predicate Free(s: string, c: char)
  {
    forall j :: 0 <= j < |s| ==> s[j] != c
  }

  /** `s.endswith(suffix)`. */
  predicate EndsWith(s: string, suffix: string)
  {
    |suffix| <= |s| && s[|s| - |suffix|..] == suffix
  }

  /** Where the first `c` of `s` stands, or `|s|` when there is none. */
  function Find(s: string, c: char): (i: nat)
    ensures i <= |s|
    ensures i < |s| ==> s[i] == c
    ensures forall j :: 0 <= j < i ==> s[j] != c
  {
    if s == [] then 0
    else if s[0] == c then 0
    else 1 + Find(s[1..], c)
  }

  /** Python's `s.split(sep)`: the pieces between occurrences of `sep`, in order:
      the text before the first separator, then the pieces of the text after it.
      As in Python, the result is never empty (`"".split(sep) == [""]`). */
  function Split(s: string, sep: char): (parts: seq<string>)
    ensures |parts| >= 1
    decreases |s|
  {
    var i := Find(s, sep);
    if i == |s| then [s] else [s[..i]] + Split(s[i + 1..], sep)
  }

  /** Python's `sep.join(parts)`. */
  function Join(parts: seq<string>, sep: char): string
  {
    if parts == [] then ""
    else if |parts| == 1 then parts[0]
    else parts[0] + [sep] + Join(parts[1..], sep)
  }

  /** The last element of a non-empty sequence (Python's `xs[-1]`). */
  function Last<T>(xs: seq<T>): T
    requires |xs| > 0
  {
    xs[|xs| - 1]
  }

  /** A concatenation is free of `c` exactly when both parts are. */
  lemma FreeConcat(a: string, b: string, c: char)
    ensures Free(a + b, c) <==> Free(a, c) && Free(b, c)
  {
    assert forall j :: 0 <= j < |a| ==> (a + b)[j] == a[j];
    assert forall j :: 0 <= j < |b| ==> (a + b)[|a| + j] == b[j];
  }

  /** Python's `s.replace(a, b)` for single characters `a` and `b`. */
  function ReplaceChar(s: string, a: char, b: char): (r: string)
    ensures |r| == |s|
    ensures forall i :: 0 <= i < |s| ==> r[i] == (if s[i] == a then b else s[i])
  {
    if s == [] then [] else [if s[0] == a then b else s[0]] + ReplaceChar(s[1..], a, b)
  }

  /** Python's `s.replace(c, "")`: `s` with every `c` deleted; every other
      character occurs as often as before. */
  function RemoveChar(s: string, c: char): (r: string)
    ensures Free(r, c)
    ensures forall x :: x != c ==> Count(r, x) == Count(s, x)
    ensures |r| == |s| - Count(s, c)
  {
    if s == [] then []
    else if s[0] == c then RemoveChar(s[1..], c)
    else
      var r := [s[0]] + RemoveChar(s[1..], c);
      assert r[1..] == RemoveChar(s[1..], c);
      r
  }

  /** No piece of a split holds the separator. */
  lemma {:induction false} SplitPiecesFree(s: string, sep: char)
    ensures forall k :: 0 <= k < |Split(s, sep)| ==> Free(Split(s, sep)[k], sep)
    decreases |s|
  {
    var i := Find(s, sep);
    if i < |s| {
      SplitPiecesFree(s[i + 1..], sep);
      var rest := Split(s[i + 1..], sep);
      SplitAt(s, i, sep);
      assert Free(s[..i], sep);
      forall k | 0 <= k < |Split(s, sep)| ensures Free(Split(s, sep)[k], sep) {
        if k > 0 { assert Split(s, sep)[k] == rest[k - 1]; }
      }
    }
  }

  /** `Find` is determined by its contract: the first occurrence, or the length. */
  lemma FindIs(s: string, c: char, i: nat)
    requires i <= |s| && (i < |s| ==> s[i] == c)
    requires forall j :: 0 <= j < i ==> s[j] != c
    ensures Find(s, c) == i
  {
  }

  /** A string without the separator is a single piece. */
  lemma SplitFree(s: string, sep: char)
    requires Free(s, sep)
    ensures Split(s, sep) == [s]
  {
  }

  /** Splitting at a separator splits the string around it:
      the pieces of `x + sep + y` are those of `x` followed by those of `y`. */
  lemma {:induction false} SplitAround(x: string, sep: char, y: string)
    ensures Split(x + [sep] + y, sep) == Split(x, sep) + Split(y, sep)
    decreases |x|
  {
    var i := Find(x, sep);
    if i == |x| {
      SplitAroundFree(x, sep, y);
      SplitFree(x, sep);
    } else {
      SplitAround(x[i + 1..], sep, y);
      SplitAroundStep(x, i, sep, y);
    }
  }

  /** SplitAround when `x` holds no separator. */
  lemma SplitAroundFree(x: string, sep: char, y: string)
    requires Free(x, sep)
    ensures Split(x + [sep] + y, sep) == [x] + Split(y, sep)
  {
    var s := x + [sep] + y;
    assert forall j :: 0 <= j < |x| ==> s[j] == x[j];
    FindIs(s, sep, |x|);
    assert s[..|x|] == x;
    assert s[|x| + 1..] == y;
  }

  /** SplitAround when the first separator of `x` is at `i`, given it for the rest of `x`. */
  lemma SplitAroundStep(x: string, i: nat, sep: char, y: string)
    requires i < |x| && Find(x, sep) == i
    requires Split(x[i + 1..] + [sep] + y, sep) == Split(x[i + 1..], sep) + Split(y, sep)
    ensures Split(x + [sep] + y, sep) == Split(x, sep) + Split(y, sep)
  {
    var s := x + [sep] + y;
    var xs, ys := Split(x[i + 1..], sep), Split(y, sep);
    SliceAround(x, i, sep, y);
    FindIs(s, sep, i);
    SplitAt(s, i, sep);
    SplitAt(x, i, sep);
    ConsAppend(x[..i], xs, ys);
  }

  /** Unfolding a split at the first separator. */
  lemma SplitAt(x: string, i: nat, sep: char)
    requires i < |x| && Find(x, sep) == i
    ensures Split(x, sep) == [x[..i]] + Split(x[i + 1..], sep)
  {
  }

  lemma ConsAppend<T>(a: T, xs: seq<T>, ys: seq<T>)
    ensures [a] + (xs + ys) == ([a] + xs) + ys
  {
  }

  /** How `x + [sep] + y` looks around a position `i` inside `x`. */
  lemma SliceAround(x: string, i: nat, sep: char, y: string)
    requires i < |x|
    ensures forall j :: 0 <= j <= i ==> (x + [sep] + y)[j] == x[j]
    ensures (x + [sep] + y)[..i] == x[..i]
    ensures (x + [sep] + y)[i + 1..] == x[i + 1..] + [sep] + y
  {
  }

  /** Joining the pieces of a split gives back the original string. */
  lemma {:induction false} JoinSplit(s: string, sep: char)
    ensures Join(Split(s, sep), sep) == s
    decreases |s|
  {
    var i := Find(s, sep);
    if i < |s| {
      var rest := s[i + 1..];
      JoinSplit(rest, sep);
      SplitAt(s, i, sep);
      JoinCons(s[..i], Split(rest, sep), sep);
      Rejoin(s, i);
    }
  }

  /** Joining a piece in front of non-empty pieces puts a separator between. */
  lemma JoinCons(a: string, rest: seq<string>, sep: char)
    requires |rest| >= 1
    ensures Join([a] + rest, sep) == a + [sep] + Join(rest, sep)
  {
    assert ([a] + rest)[1..] == rest;
  }

  lemma Rejoin(s: string, i: nat)
    requires i < |s|
    ensures s[..i] + [s[i]] + s[i + 1..] == s
  {
  }

  /** Splitting the join of separator-free pieces gives back the pieces
      (the inverse direction of JoinSplit; Python's `"".join([])` is `""`,
      which splits into `[""]`, hence the non-empty precondition). */
  lemma {:induction false} SplitJoin(parts: seq<string>, sep: char)
    requires |parts| >= 1
    requires forall k :: 0 <= k < |parts| ==> Free(parts[k], sep)
    ensures Split(Join(parts, sep), sep) == parts
    decreases |parts|
  {
    var first := parts[0];
    SplitFree(first, sep);
    if |parts| > 1 {
      var rest := parts[1..];
      assert forall k :: 0 <= k < |rest| ==> rest[k] == parts[k + 1];
      SplitJoin(rest, sep);
      var joined := Join(rest, sep);
      assert Join(parts, sep) == first + [sep] + joined;
      SplitAround(first, sep, joined);
      assert parts == [first] + rest;
    }
  }

  /** The last piece of a split is the suffix after the last separator:
      it is a suffix of `s`, and unless it is all of `s` it is preceded by `sep`. */
  lemma {:induction false} LastPieceIsSuffix(s: string, sep: char)
    ensures var last := Last(Split(s, sep));
      |last| <= |s| && s[|s| - |last|..] == last &&
      (|last| < |s| ==> s[|s| - |last| - 1] == sep)
    decreases |s|
  {
    var i := Find(s, sep);
    if i < |s| {
      var rest := s[i + 1..];
      LastPieceIsSuffix(rest, sep);
      SplitAt(s, i, sep);
      LastCons(s[..i], Split(rest, sep));
      SuffixOfSuffix(s, i + 1, |Last(Split(rest, sep))|);
    }
  }

  lemma LastCons<T>(a: T, xs: seq<T>)
    requires |xs| > 0
    ensures Last([a] + xs) == Last(xs)
  {
  }

  /** A suffix of `s[from..]` is a suffix of `s`, with the same character before it. */
  lemma SuffixOfSuffix(s: string, from: nat, k: nat)
    requires from <= |s| && k <= |s| - from
    ensures s[|s| - k..] == s[from..][|s| - from - k..]
    ensures k < |s| - from ==> s[|s| - k - 1] == s[from..][|s| - from - k - 1]
  {
  }

  /** Occurrence counts add up over concatenation. */
  lemma {:induction false} CountConcat(a: string, b: string, c: char)
    ensures Count(a + b, c) == Count(a, c) + Count(b, c)
    decreases |a|
  {
    if a != [] {
      var ab := a + b;
      assert ab != [] && ab[0] == a[0];
      assert ab[1..] == a[1..] + b;
      CountConcat(a[1..], b, c);
      assert Count(ab, c) == (if a[0] == c then 1 else 0) + Count(a[1..] + b, c);
    } else {
      assert a + b == b;
    }
  }

  /** A string without `c` has no occurrence of it to count. */
  lemma {:induction false} CountFree(s: string, c: char)
    requires Free(s, c)
    ensures Count(s, c) == 0
    decreases |s|
  {
    if s != [] {
      assert s[0] != c;
      assert forall j :: 0 <= j < |s[1..]| ==> s[1..][j] == s[j + 1];
      CountFree(s[1..], c);
    }
  }

  /** Deleting a character introduces no other character. */
  lemma {:induction false} RemoveKeepsFree(s: string, c: char, x: char)
    requires Free(s, x)
    ensures Free(RemoveChar(s, c), x)
    decreases |s|
  {
    if s != [] {
      assert Free(s[1..], x) by {
        assert forall j :: 0 <= j < |s[1..]| ==> s[1..][j] == s[j + 1];
      }
      RemoveKeepsFree(s[1..], c, x);
      if s[0] != c {
        FreeConcat([s[0]], RemoveChar(s[1..], c), x);
      }
    }
  }

  /** Deleting from a single character keeps it unless it is the one deleted. */
  lemma RemoveCharSingle(x: char, c: char)
    ensures RemoveChar([x], c) == (if x == c then [] else [x])
  {
    assert [x][1..] == [];
  }

  /** Deleting works piece by piece: the kept characters of `a` come first, then
      those of `b`, so the kept characters stay in their original order. Together
      with RemoveCharSingle this determines `RemoveChar` completely. */
  lemma {:induction false} RemoveCharConcat(a: string, b: string, c: char)
    ensures RemoveChar(a + b, c) == RemoveChar(a, c) + RemoveChar(b, c)
    decreases |a|
  {
    if a == [] {
      assert a + b == b;
    } else {
      var ab := a + b;
      assert ab[0] == a[0] && ab[1..] == a[1..] + b;
      RemoveCharConcat(a[1..], b, c);
    }
  }

  /** Replacing `a` by `b` and then deleting `b` deletes both `a` and `b`. */
  lemma {:induction false} RemoveAfterReplace(s: string, a: char, b: char)
    ensures RemoveChar(ReplaceChar(s, a, b), b) == RemoveChar(RemoveChar(s, a), b)
    decreases |s|
  {
    if s != [] {
      RemoveAfterReplace(s[1..], a, b);
      var r := ReplaceChar(s, a, b);
      assert r[1..] == ReplaceChar(s[1..], a, b);
    }
  }
}
