/**
 * The JavaScript built-ins the application's logic relies on, stated over
 * Dafny strings (sequences of Unicode scalar values, where JavaScript counts
 * UTF-16 code units) and sequences:
 * `\s` / `trim`, `toLowerCase`, `includes`, `split`, `join`, `slice`,
 * `filter`, `findIndex`, and the `||` operator on numbers.
 */
module Js {

  // ---------------------------------------------------------------------------
  // Characters

  /** The code points matched by a regular expression's `\s` and removed by
      `String.prototype.trim`: WhiteSpace and LineTerminator of ECMAScript. */
  predicate IsSpace(c: char) {
    c == '\t' || c == '\n' || c == '\U{000B}' || c == '\U{000C}' || c == '\r' || c == ' '
    || c == '\U{00A0}' || c == '\U{1680}' || ('\U{2000}' <= c <= '\U{200A}')
    || c == '\U{2028}' || c == '\U{2029}' || c == '\U{202F}' || c == '\U{205F}'
    || c == '\U{3000}' || c == '\U{FEFF}'
  }

  /** The code points a regular expression's `.` does not match. */
  predicate IsLineTerminator(c: char) {
    c == '\n' || c == '\r' || c == '\U{2028}' || c == '\U{2029}'
  }

  /** What a regular expression's `.*` spans from the start of `s`: everything
      up to the first line terminator. */
  function LineText(s: string): (r: string)
    ensures r <= s
    ensures forall k :: 0 <= k < |r| ==> !IsLineTerminator(r[k])
    ensures |r| < |s| ==> IsLineTerminator(s[|r|])
  {
    if s != [] && !IsLineTerminator(s[0]) then [s[0]] + LineText(s[1..]) else []
  }

  /** `\d` without the `u` flag. */
  predicate IsDigit(c: char) {
    '0' <= c <= '9'
  }

  /** `\w` without the `u` flag: `[A-Za-z0-9_]`. */
  predicate IsWordChar(c: char) {
    'a' <= c <= 'z' || 'A' <= c <= 'Z' || IsDigit(c) || c == '_'
  }

  /** `toLowerCase` on one code unit; only the ASCII letters are mapped. */
  function LowerChar(c: char): (r: char)
    ensures 'A' <= c <= 'Z' ==> r != c && 'a' <= r <= 'z'
    ensures !('A' <= c <= 'Z') ==> r == c
  {
    if 'A' <= c <= 'Z' then (c as int + 32) as char else c
  }

  // ---------------------------------------------------------------------------
  // Strings

  /** `s.toLowerCase()`. */
  function ToLower(s: string): (r: string)
    ensures |r| == |s|
    ensures forall i :: 0 <= i < |s| ==> r[i] == LowerChar(s[i])
  {
    if s == [] then [] else [LowerChar(s[0])] + ToLower(s[1..])
  }

  lemma LowerCharMatches(c: char, d: char)
    requires !('A' <= d <= 'Z')
    ensures LowerChar(c) == d <==> (c == d || ('a' <= d <= 'z' && c as int == d as int - 32))
  {
    if 'A' <= c <= 'Z' {
      assert LowerChar(c) as int == c as int + 32;
    }
  }

  /** Lower-casing neither makes nor removes white space. */
  lemma LowerCharKeepsSpace(c: char)
    ensures IsSpace(LowerChar(c)) <==> IsSpace(c)
  {
    if 'A' <= c <= 'Z' {
      assert 'a' <= LowerChar(c) <= 'z';
    }
  }

  /** `s.toLowerCase() === t`, for a `t` without upper-case letters, holds
      exactly when each character of `s` is that of `t` or its upper-case form. */
  lemma ToLowerMatches(s: string, t: string)
    requires forall k :: 0 <= k < |t| ==> !('A' <= t[k] <= 'Z')
    ensures ToLower(s) == t <==>
      && |s| == |t|
      && forall k :: 0 <= k < |s| ==>
        s[k] == t[k] || ('a' <= t[k] <= 'z' && s[k] as int == t[k] as int - 32)
  {
    var low := ToLower(s);
    if |s| == |t| {
      forall k | 0 <= k < |s|
        ensures low[k] == t[k] <==> (s[k] == t[k] || ('a' <= t[k] <= 'z' && s[k] as int == t[k] as int - 32))
      {
        LowerCharMatches(s[k], t[k]);
      }
      if forall k :: 0 <= k < |s| ==> low[k] == t[k] {
        assert low == t;
      }
    }
  }

  /** The number of white space characters `s` starts with. */
  function LeadingSpaces(s: string): (n: nat)
    ensures n <= |s|
    ensures forall i :: 0 <= i < n ==> IsSpace(s[i])
    ensures n < |s| ==> !IsSpace(s[n])
  {
    if s != [] && IsSpace(s[0]) then 1 + LeadingSpaces(s[1..]) else 0
  }

  /** The number of white space characters `s` ends with. */
  function TrailingSpaces(s: string): (n: nat)
    ensures n <= |s|
    ensures forall i :: |s| - n <= i < |s| ==> IsSpace(s[i])
    ensures n < |s| ==> !IsSpace(s[|s| - n - 1])
  {
    if s != [] && IsSpace(s[|s| - 1]) then 1 + TrailingSpaces(s[..|s| - 1]) else 0
  }

  /** Removes the leading white space of `s`. */
  function TrimStart(s: string): (r: string)
    ensures |r| <= |s| && forall i :: 0 <= i < |r| ==> r[i] == s[|s| - |r| + i]
    ensures forall i :: 0 <= i < |s| - |r| ==> IsSpace(s[i])
    ensures r != [] ==> !IsSpace(r[0])
  {
    s[LeadingSpaces(s)..]
  }

  /** Removes the trailing white space of `s`. */
  function TrimEnd(s: string): (r: string)
    ensures |r| <= |s| && forall i :: 0 <= i < |r| ==> r[i] == s[i]
    ensures forall i :: |r| <= i < |s| ==> IsSpace(s[i])
    ensures r != [] ==> !IsSpace(r[|r| - 1])
  {
    s[..|s| - TrailingSpaces(s)]
  }

  /** Trimming the start of a string that does not start with white space changes nothing. */
  lemma TrimStartUnspaced(s: string)
    requires s == [] || !IsSpace(s[0])
    ensures TrimStart(s) == s
  {
    assert LeadingSpaces(s) == 0;
    assert s[0..] == s;
  }

  /** Trimming the end of a string that does not end with white space changes nothing. */
  lemma TrimEndUnspaced(s: string)
    requires s == [] || !IsSpace(s[|s| - 1])
    ensures TrimEnd(s) == s
  {
    assert TrailingSpaces(s) == 0;
    assert s[..|s|] == s;
  }

  /** One space in front of a string that does not start with white space is trimmed away. */
  lemma TrimStartAfterSpace(s: string)
    requires s == [] || !IsSpace(s[0])
    ensures TrimStart(" " + s) == s
  {
    var t := " " + s;
    assert t[1..] == s;
    assert LeadingSpaces(t) == 1 + LeadingSpaces(s);
    TrimStartUnspaced(s);
  }

  /** `s.trim()`. */
  function Trim(s: string): string {
    TrimEnd(TrimStart(s))
  }

  /** `!s.trim()`: the string is empty or white space only. */
  predicate IsBlank(s: string) {
    Trim(s) == ""
  }

  lemma BlankIffAllSpace(s: string)
    ensures IsBlank(s) <==> forall i :: 0 <= i < |s| ==> IsSpace(s[i])
  {
    var t := TrimStart(s);
    if IsBlank(s) {
      assert TrimEnd(t) == [];
      if t != [] {
        assert false;
      }
    }
  }

  /** `s.includes(t)`: `t` occurs in `s` as a contiguous substring. */
  predicate Includes(s: string, t: string) {
    exists i :: 0 <= i <= |s| && t <= s[i..]
  }

  lemma IncludesEmpty(s: string)
    ensures Includes(s, "")
  {
    assert "" <= s[0..];
  }

  /** `s.indexOf(t)`: where the first occurrence of `t` starts, or -1. */
  function IndexOf(s: string, t: string): (r: int)
    ensures -1 <= r <= |s|
    ensures r >= 0 ==> r + |t| <= |s| && s[r..r + |t|] == t
  {
    if t <= s then 0
    else if s == [] then -1
    else
      var k := IndexOf(s[1..], t);
      if k == -1 then -1 else k + 1
  }

  /** `indexOf` finds the first occurrence, and -1 means there is none. */
  lemma {:induction false} IndexOfFirst(s: string, t: string)
    ensures IndexOf(s, t) == -1 <==> !Includes(s, t)
    ensures forall p :: 0 <= p < IndexOf(s, t) ==> !(t <= s[p..])
  {
    if !(t <= s) && s != [] {
      IndexOfFirst(s[1..], t);
      assert forall p :: 1 <= p <= |s| ==> s[p..] == s[1..][p - 1..];
    } else if t <= s {
      assert t <= s[0..];
    }
  }

  /** A prefix that ends before the first occurrence of `t` does not contain `t`. */
  lemma PrefixBeforeFirst(s: string, t: string, i: nat)
    requires t != [] && i <= |s|
    requires forall p :: 0 <= p < i ==> !(t <= s[p..])
    ensures !Includes(s[..i], t)
  {
    forall p | 0 <= p <= i ensures !(t <= s[..i][p..]) {
      if p < i && |t| <= i - p {
        assert s[..i][p..][..|t|] == s[p..][..|t|];
      }
    }
  }

  /** `s.lastIndexOf(c)` for one character: its last position, or -1. */
  function LastIndexOf(s: string, c: char): (r: int)
    ensures -1 <= r < |s|
    ensures r == -1 <==> c !in s
    ensures r >= 0 ==> s[r] == c && forall p :: r < p < |s| ==> s[p] != c
  {
    if s == [] then -1
    else if s[|s| - 1] == c then |s| - 1
    else
      assert forall p :: 0 <= p < |s| - 1 ==> s[p] == s[..|s| - 1][p];
      LastIndexOf(s[..|s| - 1], c)
  }

  /** `s.startsWith(p)` */
  predicate StartsWith(s: string, p: string) {
    |p| <= |s| && s[..|p|] == p
  }

  /** `s.split(sep)` for a one-character separator. */
  function Split(s: string, sep: char): (parts: seq<string>)
    ensures |parts| >= 1
    ensures forall k :: 0 <= k < |parts| ==> sep !in parts[k]
  {
    if s == [] then [""]
    else
      var rest := Split(s[1..], sep);
      if s[0] == sep then [""] + rest else [[s[0]] + rest[0]] + rest[1..]
  }

  /** `parts.join(sep)`. */
  function Join(parts: seq<string>, sep: string): string {
    if parts == [] then ""
    else if |parts| == 1 then parts[0]
    else parts[0] + sep + Join(parts[1..], sep)
  }

  /** Splitting and joining again on the same separator gives the input back. */
  lemma {:induction false} SplitJoin(s: string, sep: char)
    ensures Join(Split(s, sep), [sep]) == s
  {
    if s != [] {
      var rest := Split(s[1..], sep);
      SplitJoin(s[1..], sep);
      if s[0] == sep {
        assert Split(s, sep) == [""] + rest;
        assert ([""] + rest)[1..] == rest;
      } else {
        var parts := [[s[0]] + rest[0]] + rest[1..];
        assert Split(s, sep) == parts;
        if |rest| == 1 {
          assert Join(rest, [sep]) == rest[0];
        } else {
          assert parts[1..] == rest[1..];
          assert Join(rest, [sep]) == rest[0] + [sep] + Join(rest[1..], [sep]);
        }
      }
    }
  }

  /** `a.localeCompare(b) < 0`, with collation abstracted as the
      lexicographic order of code units. */
  predicate StrLt(a: string, b: string) {
    if a == [] then b != []
    else if b == [] then false
    else a[0] < b[0] || (a[0] == b[0] && StrLt(a[1..], b[1..]))
  }

  lemma {:induction false} StrLtIrreflexive(a: string)
    ensures !StrLt(a, a)
  {
    if a != [] {
      StrLtIrreflexive(a[1..]);
    }
  }

  lemma {:induction false} StrLtTransitive(a: string, b: string, c: string)
    requires StrLt(a, b) && StrLt(b, c)
    ensures StrLt(a, c)
  {
    if a != [] && b != [] && c != [] && a[0] == b[0] == c[0] {
      StrLtTransitive(a[1..], b[1..], c[1..]);
    }
  }

  lemma StrLtAsymmetric(a: string, b: string)
    requires StrLt(a, b)
    ensures !StrLt(b, a)
  {
    if StrLt(b, a) {
      StrLtTransitive(a, b, a);
      StrLtIrreflexive(a);
    }
  }

  /** Any two different strings are ordered one way or the other. */
  lemma {:induction false} StrLtTotal(a: string, b: string)
    ensures a == b || StrLt(a, b) || StrLt(b, a)
  {
    if a != [] && b != [] && a[0] == b[0] {
      StrLtTotal(a[1..], b[1..]);
      if a[1..] == b[1..] {
        assert a == [a[0]] + a[1..] && b == [b[0]] + b[1..];
      }
    }
  }

  /** The sign `a.localeCompare(b)` returns. */
  function LocaleCompare(a: string, b: string): (r: int)
    ensures r < 0 <==> StrLt(a, b)
    ensures r > 0 <==> StrLt(b, a)
  {
    if StrLt(a, b) then StrLtAsymmetric(a, b); -1
    else if StrLt(b, a) then 1
    else 0
  }

  // ---------------------------------------------------------------------------
  // Numbers

  /** `x || y` on numbers: `x` unless it is 0. */
  function Or(x: int, y: int): (r: int)
    ensures x != 0 ==> r == x
    ensures x == 0 ==> r == y
  {
    if x != 0 then x else y
  }

  // ---------------------------------------------------------------------------
  // Arrays

  /** How `slice` turns an index argument into a position in `[0, len]`. */
  function SliceIndex(i: int, len: nat): (r: nat)
    ensures r <= len
    ensures 0 <= i <= len ==> r == i
    ensures i > len ==> r == len
  {
    if i < 0 then (if len + i < 0 then 0 else len + i)
    else if i > len then len
    else i
  }

  /** `s.slice(start, end)`. */
  function Slice<T>(s: seq<T>, start: int, end: int): (r: seq<T>)
    ensures 0 <= start <= end <= |s| ==> r == s[start..end]
    ensures 0 <= start && |s| <= start ==> r == []
    ensures 0 <= start <= |s| && |s| <= end ==> r == s[start..]
  {
    var from := SliceIndex(start, |s|);
    var to := SliceIndex(end, |s|);
    if from < to then s[from..to] else []
  }

  /** `s.map(f)` */
  function Map<A, B>(s: seq<A>, f: A -> B): (r: seq<B>)
    ensures |r| == |s|
    ensures forall k :: 0 <= k < |s| ==> r[k] == f(s[k])
  {
    if s == [] then [] else [f(s[0])] + Map(s[1..], f)
  }

  /** Mapping a prefix one element longer adds that element's image at the end. */
  lemma MapNext<A, B>(s: seq<A>, f: A -> B, i: nat)
    requires i < |s|
    ensures Map(s[..i + 1], f) == Map(s[..i], f) + [f(s[i])]
  {
    var a, b := Map(s[..i + 1], f), Map(s[..i], f);
    var c := b + [f(s[i])];
    forall k | 0 <= k <= i ensures a[k] == c[k] {
      assert s[..i + 1][k] == s[k];
      if k < i {
        assert s[..i][k] == s[k];
      }
    }
  }

  /** `s.filter(p)` */
  function Filter<T>(s: seq<T>, p: T -> bool): (r: seq<T>)
    ensures |r| <= |s|
    ensures forall k :: 0 <= k < |r| ==> p(r[k])
  {
    if s == [] then []
    else if p(s[0]) then [s[0]] + Filter(s[1..], p) else Filter(s[1..], p)
  }

  /** What the filter keeps: exactly the elements that pass, each at most as
      often as in `s`. */
  lemma {:induction false} FilterMembers<T>(s: seq<T>, p: T -> bool)
    ensures forall x :: x in Filter(s, p) ==> x in s && p(x)
    ensures forall x :: x in s && p(x) ==> x in Filter(s, p)
    ensures multiset(Filter(s, p)) <= multiset(s)
  {
    if s != [] {
      var t := s[1..];
      FilterMembers(t, p);
      assert s == [s[0]] + t;
      assert multiset(s) == multiset{s[0]} + multiset(t);
      if p(s[0]) {
        assert Filter(s, p) == [s[0]] + Filter(t, p);
      } else {
        assert Filter(s, p) == Filter(t, p);
      }
    }
  }

  /** `r` is the selection of `s` at the positions `idx`: one position per
      element of `r`, strictly increasing, and exactly the positions whose
      element passes `p`. */
  ghost predicate SelectedAt<T>(r: seq<T>, s: seq<T>, p: T -> bool, idx: seq<int>) {
    && |idx| == |r|
    && (forall k :: 0 <= k < |idx| ==> 0 <= idx[k] < |s| && r[k] == s[idx[k]])
    && (forall k, l :: 0 <= k < l < |idx| ==> idx[k] < idx[l])
    && (forall j :: 0 <= j < |s| ==> (p(s[j]) <==> j in idx))
  }

  /** `r` lists the elements of `s` that pass `p`, all of them and in the
      order of `s`. */
  ghost predicate InOrderSelection<T>(r: seq<T>, s: seq<T>, p: T -> bool) {
    exists idx :: SelectedAt(r, s, p, idx)
  }

  /** Every position moved one place on. */
  ghost function Shift(idx: seq<int>): (r: seq<int>)
    ensures |r| == |idx|
    ensures forall k :: 0 <= k < |r| ==> r[k] == idx[k] + 1
  {
    seq(|idx|, k requires 0 <= k < |idx| => idx[k] + 1)
  }

  /** The positions of `s` whose element passes `p`, in increasing order. */
  ghost function Positions<T>(s: seq<T>, p: T -> bool): seq<int> {
    if s == [] then []
    else if p(s[0]) then [0] + Shift(Positions(s[1..], p))
    else Shift(Positions(s[1..], p))
  }

  /** A selection from the tail is a selection from the whole list, one
      position on, when the head fails. */
  lemma SelectedSkip<T>(s: seq<T>, p: T -> bool, u: seq<T>, rest: seq<int>)
    requires s != [] && !p(s[0])
    requires SelectedAt(u, s[1..], p, rest)
    ensures SelectedAt(u, s, p, Shift(rest))
  {
    var t, idx := s[1..], Shift(rest);
    forall j | 0 <= j < |s| ensures p(s[j]) <==> j in idx {
      if j > 0 {
        assert s[j] == t[j - 1];
        assert j in idx <==> j - 1 in rest;
      } else {
        assert forall k :: 0 <= k < |idx| ==> idx[k] > 0;
      }
    }
  }

  /** ... and with the head in front when the head passes. */
  lemma SelectedKeep<T>(s: seq<T>, p: T -> bool, u: seq<T>, rest: seq<int>)
    requires s != [] && p(s[0])
    requires SelectedAt(u, s[1..], p, rest)
    ensures SelectedAt([s[0]] + u, s, p, [0] + Shift(rest))
  {
    KeepIndices(s, p, u, rest);
    KeepIncreasing(s, p, u, rest);
    KeepPositions(s, p, u, rest);
  }

  lemma KeepIndices<T>(s: seq<T>, p: T -> bool, u: seq<T>, rest: seq<int>)
    requires s != [] && p(s[0])
    requires SelectedAt(u, s[1..], p, rest)
    ensures var r, idx := [s[0]] + u, [0] + Shift(rest);
      forall k :: 0 <= k < |idx| ==> 0 <= idx[k] < |s| && r[k] == s[idx[k]]
  {
    var t, r, shifted := s[1..], [s[0]] + u, Shift(rest);
    var idx := [0] + shifted;
    forall k | 0 <= k < |idx| ensures 0 <= idx[k] < |s| && r[k] == s[idx[k]] {
      if k > 0 {
        assert idx[k] == shifted[k - 1] == rest[k - 1] + 1;
        assert r[k] == u[k - 1] == t[rest[k - 1]];
      }
    }
  }

  lemma KeepIncreasing<T>(s: seq<T>, p: T -> bool, u: seq<T>, rest: seq<int>)
    requires s != [] && p(s[0])
    requires SelectedAt(u, s[1..], p, rest)
    ensures var idx := [0] + Shift(rest);
      forall k, l :: 0 <= k < l < |idx| ==> idx[k] < idx[l]
  {
    var shifted := Shift(rest);
    var idx := [0] + shifted;
    forall k, l | 0 <= k < l < |idx| ensures idx[k] < idx[l] {
      assert idx[l] == rest[l - 1] + 1;
      if k > 0 {
        assert idx[k] == rest[k - 1] + 1;
      }
    }
  }

  lemma KeepPositions<T>(s: seq<T>, p: T -> bool, u: seq<T>, rest: seq<int>)
    requires s != [] && p(s[0])
    requires SelectedAt(u, s[1..], p, rest)
    ensures var idx := [0] + Shift(rest);
      forall j :: 0 <= j < |s| ==> (p(s[j]) <==> j in idx)
  {
    var t, shifted := s[1..], Shift(rest);
    var idx := [0] + shifted;
    forall j | 0 <= j < |s| ensures p(s[j]) <==> j in idx {
      if j > 0 {
        assert s[j] == t[j - 1];
        assert j in idx <==> j in shifted;
        assert j in shifted <==> j - 1 in rest;
      }
    }
  }

  /** The filter keeps exactly the passing elements, in the order of `s`. */
  lemma {:induction false} FilterInOrder<T>(s: seq<T>, p: T -> bool)
    ensures SelectedAt(Filter(s, p), s, p, Positions(s, p))
    ensures InOrderSelection(Filter(s, p), s, p)
  {
    if s != [] {
      FilterInOrder(s[1..], p);
      if p(s[0]) {
        SelectedKeep(s, p, Filter(s[1..], p), Positions(s[1..], p));
      } else {
        SelectedSkip(s, p, Filter(s[1..], p), Positions(s[1..], p));
      }
    }
  }

  /** Filtering a concatenation filters each part. */
  lemma {:induction false} FilterConcat<T>(a: seq<T>, b: seq<T>, p: T -> bool)
    ensures Filter(a + b, p) == Filter(a, p) + Filter(b, p)
  {
    if a == [] {
      assert a + b == b;
    } else {
      assert (a + b)[0] == a[0] && (a + b)[1..] == a[1..] + b;
      FilterConcat(a[1..], b, p);
    }
  }

  /** Filtering twice with the same predicate changes nothing further. */
  lemma {:induction false} FilterIdempotent<T>(s: seq<T>, p: T -> bool)
    ensures Filter(Filter(s, p), p) == Filter(s, p)
  {
    if s != [] {
      FilterIdempotent(s[1..], p);
      if p(s[0]) {
        assert ([s[0]] + Filter(s[1..], p))[1..] == Filter(s[1..], p);
      }
    }
  }

  /** Filtering keeps everything when every element passes. */
  lemma {:induction false} FilterAll<T>(s: seq<T>, p: T -> bool)
    requires forall k :: 0 <= k < |s| ==> p(s[k])
    ensures Filter(s, p) == s
  {
    if s != [] {
      FilterAll(s[1..], p);
      assert [s[0]] + s[1..] == s;
    }
  }

  /** Filtering keeps nothing when no element passes. */
  lemma {:induction false} FilterNone<T>(s: seq<T>, p: T -> bool)
    requires forall k :: 0 <= k < |s| ==> !p(s[k])
    ensures Filter(s, p) == []
  {
    if s != [] {
      FilterNone(s[1..], p);
    }
  }

  /** `ok` holds of every pair of elements, taken in their order in `s`. */
  ghost predicate Pairwise<T>(s: seq<T>, ok: (T, T) -> bool) {
    forall i, j :: 0 <= i < j < |s| ==> ok(s[i], s[j])
  }

  /** Filtering keeps the relative order of what it keeps, so a property of
      every ordered pair survives it. */
  lemma {:induction false} FilterPairwise<T>(s: seq<T>, p: T -> bool, ok: (T, T) -> bool)
    requires Pairwise(s, ok)
    ensures Pairwise(Filter(s, p), ok)
  {
    if s != [] {
      var t := s[1..];
      assert Pairwise(t, ok) by {
        forall i, j | 0 <= i < j < |t| ensures ok(t[i], t[j]) {
          assert t[i] == s[i + 1] && t[j] == s[j + 1];
        }
      }
      FilterPairwise(t, p, ok);
      var u := Filter(t, p);
      if p(s[0]) {
        var r := [s[0]] + u;
        forall i, j | 0 <= i < j < |r| ensures ok(r[i], r[j]) {
          if i == 0 {
            FilterMembers(t, p);
            var x := u[j - 1];
            assert x in Filter(t, p);
            assert x in t;
            var m :| 0 <= m < |t| && t[m] == u[j - 1];
            assert s[m + 1] == r[j];
          } else {
            assert r[i] == u[i - 1] && r[j] == u[j - 1];
          }
        }
      }
    }
  }

  /** Two filters can be applied in either order. */
  lemma {:induction false} FilterCommute<T>(s: seq<T>, p: T -> bool, q: T -> bool)
    ensures Filter(Filter(s, p), q) == Filter(Filter(s, q), p)
  {
    if s != [] {
      FilterCommute(s[1..], p, q);
      var x, t := s[0], s[1..];
      if p(x) {
        assert ([x] + Filter(t, p))[1..] == Filter(t, p);
      }
      if q(x) {
        assert ([x] + Filter(t, q))[1..] == Filter(t, q);
      }
      if p(x) && q(x) {
        assert ([x] + Filter(Filter(t, p), q))[1..] == Filter(Filter(t, p), q);
        assert ([x] + Filter(Filter(t, q), p))[1..] == Filter(Filter(t, q), p);
      }
    }
  }

  /** No two elements of `s` share a key. */
  ghost predicate UniqueKeys<T, K>(s: seq<T>, key: T -> K) {
    forall i, j :: 0 <= i < j < |s| ==> key(s[i]) != key(s[j])
  }

  lemma {:induction false} UniqueKeysOnce<T, K>(s: seq<T>, key: T -> K, x: T)
    requires UniqueKeys(s, key)
    ensures multiset(s)[x] <= 1
  {
    if s != [] {
      var t := s[1..];
      assert s == [s[0]] + t;
      assert UniqueKeys(t, key) by {
        forall i, j | 0 <= i < j < |t| ensures key(t[i]) != key(t[j]) {
          assert t[i] == s[i + 1] && t[j] == s[j + 1];
        }
      }
      UniqueKeysOnce(t, key, x);
      forall m | 0 <= m < |t| ensures key(t[m]) != key(s[0]) {
        assert t[m] == s[m + 1];
      }
    }
  }

  lemma TwoCopies<T>(b: seq<T>, i: int, j: int)
    requires 0 <= i < j < |b| && b[i] == b[j]
    ensures multiset(b)[b[i]] >= 2
  {
    assert b == b[..i] + [b[i]] + b[i + 1..j] + [b[j]] + b[j + 1..];
  }

  /** A rearrangement of a sequence with unique keys has unique keys. */
  lemma UniqueKeysPermutation<T, K>(a: seq<T>, b: seq<T>, key: T -> K)
    requires multiset(a) == multiset(b) && UniqueKeys(a, key)
    ensures UniqueKeys(b, key)
  {
    forall i, j | 0 <= i < j < |b| ensures key(b[i]) != key(b[j]) {
      assert b[i] in multiset(a) && b[j] in multiset(a);
      var p :| 0 <= p < |a| && a[p] == b[i];
      var q :| 0 <= q < |a| && a[q] == b[j];
      if p == q {
        UniqueKeysOnce(a, key, b[i]);
        TwoCopies(b, i, j);
        assert false;
      } else if p < q {
        assert key(a[p]) != key(a[q]);
      } else {
        assert key(a[q]) != key(a[p]);
      }
    }
  }

  /** `s.findIndex(p)`: the first index whose element passes, or -1. */
  function FindIndex<T>(s: seq<T>, p: T -> bool): (r: int)
    ensures -1 <= r < |s|
    ensures r == -1 <==> forall k :: 0 <= k < |s| ==> !p(s[k])
    ensures r >= 0 ==> p(s[r]) && forall k :: 0 <= k < r ==> !p(s[k])
  {
    if s == [] then -1
    else if p(s[0]) then 0
    else
      var r := FindIndex(s[1..], p);
      if r == -1 then -1 else r + 1
  }
}
