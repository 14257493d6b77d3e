/**
 * The handful of Python `str` operations the news parsers rely on:
 * `strip`, `find`, `in`, `count`, `split` and slicing, each stated over
 * `seq<char>` with Python's semantics for the cases the parsers can meet.
 */
module Strings {

  /** Python's `str.isspace` for one character: the ASCII whitespace and
      separator controls, NEL, and the Unicode space separators. */
  predicate IsSpace(c: char) {
    || c == ' ' || '\t' <= c <= '\r' || '\U{001C}' <= c <= '\U{001F}'
    || c == '\U{0085}' || c == '\U{00A0}' || c == '\U{1680}'
    || '\U{2000}' <= c <= '\U{200A}' || c == '\U{2028}' || c == '\U{2029}'
    || c == '\U{202F}' || c == '\U{205F}' || c == '\U{3000}'
  }

  /** Number of whitespace characters at the front of `s`. */
  function LeadingSpaces(s: string): (n: nat)
    ensures n <= |s|
    ensures forall i :: 0 <= i < n ==> IsSpace(s[i])
    ensures n < |s| ==> !IsSpace(s[n])
  {
    if |s| > 0 && IsSpace(s[0]) then 1 + LeadingSpaces(s[1..]) else 0
  }

  /** Number of whitespace characters at the back of `s`. */
  function TrailingSpaces(s: string): (n: nat)
    ensures n <= |s|
    ensures forall i :: |s| - n <= i < |s| ==> IsSpace(s[i])
    ensures n < |s| ==> !IsSpace(s[|s| - n - 1])
  {
    if |s| > 0 && IsSpace(s[|s| - 1]) then 1 + TrailingSpaces(s[..|s| - 1]) else 0
  }

  /** Python's `s.strip()`: the longest middle part of `s` that neither starts
      nor ends with whitespace. */
  function Strip(s: string): (r: string)
    ensures |r| <= |s|
    ensures r != [] ==> !IsSpace(r[0]) && !IsSpace(r[|r| - 1])
    ensures r == [] <==> forall i :: 0 <= i < |s| ==> IsSpace(s[i])
    ensures LeadingSpaces(s) + |r| <= |s| && r == s[LeadingSpaces(s)..LeadingSpaces(s) + |r|]
  {
    var front := s[LeadingSpaces(s)..];
    var r := front[..|front| - TrailingSpaces(front)];
    assert r != [] ==> r[0] == front[0] == s[LeadingSpaces(s)];
    r
  }

  /** `strip` drops exactly the leading and the trailing whitespace: all that
      follows the stripped text is whitespace, and unless the text is all
      whitespace the two runs and the stripped text make up the whole. */
  lemma StripExact(s: string)
    ensures forall i :: LeadingSpaces(s) + |Strip(s)| <= i < |s| ==> IsSpace(s[i])
    ensures Strip(s) != [] ==> LeadingSpaces(s) + |Strip(s)| + TrailingSpaces(s) == |s|
  {
    var n := LeadingSpaces(s);
    var front := s[n..];
    var t := TrailingSpaces(front);
    assert |Strip(s)| == |front| - t;
    forall i | n + |Strip(s)| <= i < |s|
      ensures IsSpace(s[i])
    {
      assert IsSpace(front[i - n]);
    }
    if n < |s| {
      TrailingOfSuffix(s, n);
    }
  }

  /** Cutting off a front that ends before a non-space character leaves the
      trailing whitespace as it is. */
  lemma {:induction false} TrailingOfSuffix(s: string, n: nat)
    requires n < |s| && !IsSpace(s[n])
    ensures TrailingSpaces(s[n..]) == TrailingSpaces(s)
    decreases |s|
  {
    var last := |s| - 1;
    if IsSpace(s[last]) {
      assert s[n..][..|s[n..]| - 1] == s[..last][n..];
      assert s[n..][|s[n..]| - 1] == s[last];
      TrailingOfSuffix(s[..last], n);
    } else {
      assert s[n..][|s[n..]| - 1] == s[last];
    }
  }

  /** `sub` occurs in `s` starting at index `i`. */
  predicate OccursAt(s: string, sub: string, i: int) {
    0 <= i && i + |sub| <= |s| && s[i..i + |sub|] == sub
  }

  /** The first occurrence of `sub` in `s` at or after `from`, or -1. */
  function FindFrom(s: string, sub: string, from: nat): (r: int)
    requires from <= |s|
    ensures r == -1 || from <= r <= |s| - |sub|
    ensures r >= 0 ==> OccursAt(s, sub, r)
    ensures forall i :: from <= i && (r == -1 || i < r) ==> !OccursAt(s, sub, i)
    decreases |s| - from
  {
    if OccursAt(s, sub, from) then from
    else if from == |s| then -1
    else FindFrom(s, sub, from + 1)
  }

  /** Python's `s.find(sub)`: the index of the first occurrence, or -1. */
  function Find(s: string, sub: string): (r: int)
    ensures r == -1 || 0 <= r <= |s| - |sub|
    ensures r >= 0 ==> OccursAt(s, sub, r)
    ensures forall i :: 0 <= i && (r == -1 || i < r) ==> !OccursAt(s, sub, i)
  {
    FindFrom(s, sub, 0)
  }

  /** Python's `sub in s`. */
  predicate Contains(s: string, sub: string) {
    Find(s, sub) >= 0
  }

  lemma ContainsAt(s: string, sub: string, i: int)
    requires OccursAt(s, sub, i)
    ensures Contains(s, sub)
  {
  }

  /** Python's `s.count(sub)` for a non-empty `sub`: occurrences counted left
      to right without overlap. */
  function Count(s: string, sub: string): (n: nat)
    requires |sub| > 0
    ensures n == 0 <==> !Contains(s, sub)
    ensures n <= |s|
    decreases |s|
  {
    var i := Find(s, sub);
    if i < 0 then 0 else 1 + Count(s[i + |sub|..], sub)
  }

  /** Python's `s.split(sep)` for a non-empty separator. */
  function Split(s: string, sep: string): (parts: seq<string>)
    requires |sep| > 0
    ensures |parts| == Count(s, sep) + 1
    ensures forall k :: 0 <= k < |parts| ==> !Contains(parts[k], sep)
    decreases |s|
  {
    var i := Find(s, sep);
    if i < 0 then [s]
    else
      PrefixBeforeFirst(s, sep, i);
      [s[..i]] + Split(s[i + |sep|..], sep)
  }

  /** The text before the first occurrence of `sub` does not contain it. */
  lemma PrefixBeforeFirst(s: string, sub: string, i: int)
    requires |sub| > 0
    requires 0 <= i <= |s| && forall j :: 0 <= j < i ==> !OccursAt(s, sub, j)
    ensures !Contains(s[..i], sub)
  {
    var head := s[..i];
    var j := Find(head, sub);
    if j >= 0 {
      assert head[j..j + |sub|] == s[j..j + |sub|];
      assert OccursAt(s, sub, j);
    }
  }

  /** `sep.join(parts)`. */
  function Join(parts: seq<string>, sep: string): string {
    if |parts| == 0 then ""
    else if |parts| == 1 then parts[0]
    else parts[0] + sep + Join(parts[1..], sep)
  }

  /** Splitting and joining again gives back the original text. */
  lemma {:induction false} JoinSplit(s: string, sep: string)
    requires |sep| > 0
    ensures Join(Split(s, sep), sep) == s
    decreases |s|
  {
    var i := Find(s, sep);
    if i < 0 {
      assert Split(s, sep) == [s];
    } else {
      var rest := s[i + |sep|..];
      JoinSplit(rest, sep);
      SplitAtFirst(s, sep);
      JoinCons(s[..i], Split(rest, sep), sep);
    }
  }

  /** One step of `Split`: the part before the first separator, then the
      split of what follows it. */
  lemma SplitAtFirst(s: string, sep: string)
    requires |sep| > 0 && Contains(s, sep)
    ensures var i := Find(s, sep);
      && s == s[..i] + sep + s[i + |sep|..]
      && Split(s, sep) == [s[..i]] + Split(s[i + |sep|..], sep)
  {
    var i := Find(s, sep);
    assert s[i..i + |sep|] == sep;
    assert s == s[..i] + s[i..i + |sep|] + s[i + |sep|..];
  }

  lemma JoinCons(head: string, parts: seq<string>, sep: string)
    requires |parts| > 0
    ensures Join([head] + parts, sep) == head + sep + Join(parts, sep)
  {
    assert ([head] + parts)[1..] == parts;
  }

  /** Whitespace around a text with no whitespace at either end is exactly
      what `strip` removes. */
  lemma StripPadded(front: string, s: string, back: string)
    requires forall k :: 0 <= k < |front| ==> IsSpace(front[k])
    requires forall k :: 0 <= k < |back| ==> IsSpace(back[k])
    requires s != [] && !IsSpace(s[0]) && !IsSpace(s[|s| - 1])
    ensures Strip(front + s + back) == s
  {
    var x := front + s + back;
    assert x[|front|] == s[0];
    assert forall k :: 0 <= k < |front| ==> x[k] == front[k];
    var n := LeadingSpaces(x);
    assert n == |front|;
    var rest := x[n..];
    assert rest == s + back;
    assert rest[|rest| - |back| - 1] == s[|s| - 1];
    assert forall k :: 0 <= k < |back| ==> rest[|s| + k] == back[k];
    var m := TrailingSpaces(rest);
    assert m == |back|;
    assert rest[..|rest| - m] == s;
  }

  /** The first occurrence of `sub` is at `i` when it occurs there and its
      first character appears nowhere before. */
  lemma FindAt(s: string, sub: string, i: int)
    requires |sub| > 0 && OccursAt(s, sub, i)
    requires forall j :: 0 <= j < i ==> s[j] != sub[0]
    ensures Find(s, sub) == i
  {
    forall r | 0 <= r < i
      ensures !OccursAt(s, sub, r)
    {
      if r + |sub| <= |s| {
        assert s[r..r + |sub|][0] == s[r];
      }
    }
  }

  /** A suffix is its first element followed by the next suffix. */
  lemma SuffixCons<T>(s: seq<T>, k: nat)
    requires k < |s|
    ensures s[k..] == [s[k]] + s[k + 1..]
  {
  }

  /** What follows the first occurrence of `sub` when it is at `i`. */
  lemma AfterFirstAt(s: string, sub: string, i: int)
    requires |sub| > 0 && OccursAt(s, sub, i)
    requires forall j :: 0 <= j < i ==> s[j] != sub[0]
    ensures Contains(s, sub) && AfterFirst(s, sub) == s[i + |sub|..]
  {
    FindAt(s, sub, i);
  }

  /** A text without the first character of `sub` does not contain `sub`. */
  lemma NotFound(s: string, sub: string)
    requires |sub| > 0 && sub[0] !in s
    ensures !Contains(s, sub)
  {
    forall r | 0 <= r
      ensures !OccursAt(s, sub, r)
    {
      if r + |sub| <= |s| {
        assert s[r..r + |sub|][0] == s[r];
        assert s[r] in s;
      }
    }
  }

  /** Joining parts that do not contain the separator's first character and
      splitting again gives back the parts. */
  lemma {:induction false} SplitJoin(parts: seq<string>, sep: string)
    requires |sep| > 0 && |parts| > 0
    requires forall k :: 0 <= k < |parts| ==> sep[0] !in parts[k]
    ensures Split(Join(parts, sep), sep) == parts
    decreases |parts|
  {
    if |parts| == 1 {
      NotFound(parts[0], sep);
      assert Split(parts[0], sep) == [parts[0]];
    } else {
      var rest := Join(parts[1..], sep);
      var s := parts[0] + sep + rest;
      var i := |parts[0]|;
      assert s[i..i + |sep|] == sep;
      forall j | 0 <= j < i
        ensures s[j] != sep[0]
      {
        assert s[j] == parts[0][j];
      }
      FindAt(s, sep, i);
      assert s[..i] == parts[0];
      assert s[i + |sep|..] == rest;
      SplitJoin(parts[1..], sep);
      assert parts == [parts[0]] + parts[1..];
    }
  }

  /** Text put in front of a join lands in front of its first part. */
  lemma JoinOntoFirst(parts: seq<string>, sep: string, front: string)
    requires |parts| > 0
    ensures Join([front + parts[0]] + parts[1..], sep) == front + Join(parts, sep)
  {
    var moved := [front + parts[0]] + parts[1..];
    if |parts| > 1 {
      assert moved[1..] == parts[1..];
    }
  }

  /** A join ends with the last part. */
  lemma {:induction false} JoinEnds(parts: seq<string>, sep: string)
    requires |parts| > 0 && |parts[|parts| - 1]| > 0
    ensures var j := Join(parts, sep); var last := parts[|parts| - 1];
      |j| > 0 && j[|j| - 1] == last[|last| - 1]
    decreases |parts|
  {
    if |parts| > 1 {
      JoinEnds(parts[1..], sep);
    }
  }

  /** Python's `s.split(sep)[-1]`: the part after the last separator that a
      left-to-right split finds, or the whole of `s` when there is none. */
  function AfterLast(s: string, sep: string): (r: string)
    requires |sep| > 0
    ensures !Contains(r, sep)
    ensures !Contains(s, sep) ==> r == s
    decreases |s|
  {
    var i := Find(s, sep);
    if i < 0 then s else AfterLast(s[i + |sep|..], sep)
  }

  /** `s` ends with `t`. */
  predicate EndsWith(s: string, t: string) {
    |t| <= |s| && s[|s| - |t|..] == t
  }

  /** When the separator occurs, what `AfterLast` returns is a tail of the
      text, and the separator stands right before it. For a separator that
      overlaps itself this alone does not fix the tail ("aaa" with "aa"
      gives "a", yet "" also ends the text after "aa"); `AfterLastStep`
      together with the no-separator case of `AfterLast` does. */
  lemma {:induction false} AfterLastIsTail(s: string, sep: string)
    requires |sep| > 0 && Contains(s, sep)
    ensures EndsWith(s, sep + AfterLast(s, sep))
    decreases |s|, 0
  {
    var i := Find(s, sep);
    var rest := s[i + |sep|..];
    AfterLastStep(s, sep);
    TailOfRest(rest, sep);
    TailAfter(s, sep, i, AfterLast(rest, sep));
  }

  /** `AfterLast` past the first separator goes on with what follows it. */
  lemma AfterLastStep(s: string, sep: string)
    requires |sep| > 0 && Contains(s, sep)
    ensures AfterLast(s, sep) == AfterLast(s[Find(s, sep) + |sep|..], sep)
  {
  }

  lemma {:induction false} TailOfRest(rest: string, sep: string)
    requires |sep| > 0
    ensures var r := AfterLast(rest, sep); r == rest || EndsWith(rest, sep + r)
    decreases |rest|, 1
  {
    if Contains(rest, sep) {
      AfterLastIsTail(rest, sep);
    }
  }

  /** A tail of what follows an occurrence of `sep` at `i` that is the whole
      of it or is preceded by `sep` is preceded by `sep` in `s` too. */
  lemma TailAfter(s: string, sep: string, i: int, r: string)
    requires OccursAt(s, sep, i)
    requires var rest := s[i + |sep|..]; r == rest || EndsWith(rest, sep + r)
    ensures EndsWith(s, sep + r)
  {
    var rest := s[i + |sep|..];
    if r == rest {
      assert s[|s| - |r| - |sep|..] == s[i..i + |sep|] + rest;
    } else {
      assert s[|s| - |r| - |sep|..] == rest[|rest| - |r| - |sep|..];
    }
  }

  /** Python's `s.split(sep, 1)[-1]`: what follows the first separator, or the
      whole of `s` when the separator does not occur. */
  function AfterFirst(s: string, sep: string): (r: string)
    ensures Contains(s, sep) ==> s == s[..Find(s, sep)] + sep + r
    ensures !Contains(s, sep) ==> r == s
  {
    var i := Find(s, sep);
    if i < 0 then s
    else
      assert s[i..i + |sep|] == sep;
      assert s == s[..i] + s[i..i + |sep|] + s[i + |sep|..];
      s[i + |sep|..]
  }

  /** Python's slice `s[lo:hi]` for non-negative bounds, which clamps both
      bounds to the length and is empty when they cross. */
  function Slice(s: string, lo: nat, hi: nat): (r: string)
    ensures |r| <= |s|
    ensures lo <= hi <= |s| ==> r == s[lo..hi]
    ensures hi <= lo || |s| <= lo ==> r == []
    ensures lo <= |s| <= hi ==> r == s[lo..]
  {
    var h := if hi <= |s| then hi else |s|;
    if lo >= h then [] else s[lo..h]
  }
}
