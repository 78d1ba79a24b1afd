/** Python's string and list primitives that the modelled code relies on: slicing with
    negative bounds, `strip`, `lower`, `startswith`, `in` on strings, `split` and `join`.
    Strings are sequences of Unicode scalar values, as in Python 3. */
module PyStr {

  // ---------------------------------------------------------------------------
  // Slicing

  /** How Python normalises a slice bound `i` for a sequence of length `n`: a negative bound
      counts from the end, and the result is clamped to `[0, n]`. */
  function SliceIndex(i: int, n: nat): (r: nat)
    ensures r <= n
    ensures 0 <= i <= n ==> r == i
    ensures i > n ==> r == n
    ensures i < 0 ==> r == if n + i < 0 then 0 else n + i
  {
    if i < 0 then (if n + i < 0 then 0 else n + i)
    else if i > n then n
    else i
  }

  /** `s[:k]` */
  function Take<T>(s: seq<T>, k: int): (r: seq<T>)
    ensures r <= s
    ensures 0 <= k ==> |r| == if k <= |s| then k else |s|
  {
    s[..SliceIndex(k, |s|)]
  }

  /** `s[k:]` */
  function Drop<T>(s: seq<T>, k: int): (r: seq<T>)
    ensures Take(s, k) + r == s
  {
    s[SliceIndex(k, |s|)..]
  }

  /** `s[i:j]` */
  function Slice<T>(s: seq<T>, i: int, j: int): (r: seq<T>)
    ensures 0 <= i <= j <= |s| ==> r == s[i..j]
    ensures 0 <= i <= |s| <= j ==> r == s[i..]
  {
    var lo := SliceIndex(i, |s|);
    var hi := SliceIndex(j, |s|);
    if lo <= hi then s[lo..hi] else []
  }

  /** `s[-k:]` for `k > 0`: the last `k` elements, or all of `s` when it is shorter. */
  function TakeLast<T>(s: seq<T>, k: nat): (r: seq<T>)
    requires k > 0
    ensures |r| == if k <= |s| then k else |s|
    ensures r == s[|s| - |r|..]
  {
    s[SliceIndex(-(k as int), |s|)..]
  }

  // ---------------------------------------------------------------------------
  // Sequences of sequences

  /** Concatenation is associative. */
  lemma AppendAssoc<T>(a: seq<T>, b: seq<T>, c: seq<T>)
    ensures a + (b + c) == (a + b) + c
  {
  }

  /** Every element differs from every other. */
  predicate Distinct<T(==)>(s: seq<T>) {
    forall i, j :: 0 <= i < j < |s| ==> s[i] != s[j]
  }

  /** The concatenation of all pieces, in order. */
  function Flatten<T>(ss: seq<seq<T>>): (r: seq<T>)
    ensures |r| == TotalLen(ss)
  {
    if ss == [] then [] else ss[0] + Flatten(ss[1..])
  }

  /** The summed length of all pieces. */
  function TotalLen<T>(ss: seq<seq<T>>): (r: nat)
    ensures ss != [] ==> r == |ss[0]| + TotalLen(ss[1..])
  {
    if ss == [] then 0 else |ss[0]| + TotalLen(ss[1..])
  }

  lemma {:induction false} TotalLenAppend<T>(ss: seq<seq<T>>, s: seq<T>)
    ensures TotalLen(ss + [s]) == TotalLen(ss) + |s|
  {
    if ss == [] {
      assert ss + [s] == [s];
    } else {
      assert (ss + [s])[1..] == ss[1..] + [s];
      TotalLenAppend(ss[1..], s);
    }
  }

  lemma {:induction false} FlattenAppend<T>(ss: seq<seq<T>>, s: seq<T>)
    ensures Flatten(ss + [s]) == Flatten(ss) + s
  {
    if ss == [] {
      assert ss + [s] == [s];
    } else {
      assert (ss + [s])[1..] == ss[1..] + [s];
      FlattenAppend(ss[1..], s);
    }
  }

  // ---------------------------------------------------------------------------
  // Characters

  /** Python's `str.isspace` / regex `\s`, restricted to the ASCII and Latin-1 range:
      space, tab, line feed, carriage return, vertical tab, form feed, the four ASCII
      separators 0x1C-0x1F, next line (0x85) and no-break space (0xA0). */
  predicate IsSpace(c: char) {
    c == ' ' || c == '\t' || c == '\n' || c == '\r' || c == '\U{B}' || c == '\U{C}'
    || ('\U{1C}' <= c <= '\U{1F}') || c == '\U{85}' || c == '\U{A0}'
  }

  /** Python's `str.isdigit` restricted to ASCII digits. */
  predicate IsDigit(c: char) {
    '0' <= c <= '9'
  }

  /** `c.lower()` for ASCII letters and the Latin-1 capitals (À..Þ without ×). */
  function LowerChar(c: char): (r: char)
    ensures !('A' <= r <= 'Z')
  {
    if 'A' <= c <= 'Z' || ('\U{C0}' <= c <= '\U{DE}' && c != '\U{D7}') then
      (c as int + 32) as char
    else
      c
  }

  /** `s.lower()` */
  function Lower(s: string): (r: string)
    ensures |r| == |s|
    ensures forall i :: 0 <= i < |s| ==> r[i] == LowerChar(s[i])
  {
    seq(|s|, i requires 0 <= i < |s| => LowerChar(s[i]))
  }

  // ---------------------------------------------------------------------------
  // strip

  /** `s.lstrip()` */
  function LStrip(s: string): (r: string)
    ensures |r| <= |s|
    ensures r == s[|s| - |r|..]
    ensures r == [] || !IsSpace(r[0])
    ensures forall i :: 0 <= i < |s| - |r| ==> IsSpace(s[i])
  {
    if s != [] && IsSpace(s[0]) then LStrip(s[1..]) else s
  }

  /** `s.rstrip()` */
  function RStrip(s: string): (r: string)
    ensures |r| <= |s|
    ensures r == s[..|r|]
    ensures r == [] || !IsSpace(r[|r| - 1])
    ensures forall i :: |r| <= i < |s| ==> IsSpace(s[i])
  {
    if s != [] && IsSpace(s[|s| - 1]) then RStrip(s[..|s| - 1]) else s
  }

  /** `s.strip()`: `s` without its leading and trailing whitespace. */
  function Strip(s: string): (r: string)
    ensures |r| <= |s|
    ensures r == [] || (!IsSpace(r[0]) && !IsSpace(r[|r| - 1]))
    ensures OccursAt(r, s, |s| - |LStrip(s)|)
  {
    var l := LStrip(s);
    var r := RStrip(l);
    PrefixOfSuffix(s, l, r);
    r
  }

  /** A prefix `r` of a suffix `l` of `s` occurs in `s` where `l` begins. */
  lemma PrefixOfSuffix<T>(s: seq<T>, l: seq<T>, r: seq<T>)
    requires |l| <= |s| && l == s[|s| - |l|..] && |r| <= |l| && r == l[..|r|]
    ensures OccursAt(r, s, |s| - |l|)
    ensures r != [] ==> r[0] == l[0]
  {
    assert s[|s| - |l|..|s| - |l| + |r|] == r;
  }

  /** Stripping keeps a leading non-space character. */
  lemma StripKeepsFirst(s: string)
    requires s != [] && !IsSpace(s[0])
    ensures Strip(s) != [] && Strip(s)[0] == s[0]
  {
    assert LStrip(s) == s;
    var r := RStrip(s);
    assert !IsSpace(s[0]);
    assert |r| > 0;
    assert r[0] == s[0];
  }

  /** A string without surrounding whitespace is its own strip. */
  lemma StripTrimmed(s: string)
    requires s == [] || (!IsSpace(s[0]) && !IsSpace(s[|s| - 1]))
    ensures Strip(s) == s
  {
  }

  // ---------------------------------------------------------------------------
  // Substrings

  /** `needle` occurs in `hay` starting at index `i`. */
  predicate OccursAt<T(==)>(needle: seq<T>, hay: seq<T>, i: int) {
    0 <= i <= |hay| - |needle| && hay[i..i + |needle|] == needle
  }

  /** `needle in hay` for strings. */
  predicate IsSubstring<T(==)>(needle: seq<T>, hay: seq<T>) {
    exists i :: 0 <= i <= |hay| - |needle| && OccursAt(needle, hay, i)
  }

  lemma SubstringSelf<T>(s: seq<T>)
    ensures IsSubstring(s, s)
  {
    assert OccursAt(s, s, 0);
  }

  /** A substring of `b` is a substring of any `a + b + c`. */
  lemma SubstringExtend<T>(x: seq<T>, a: seq<T>, b: seq<T>, c: seq<T>)
    requires IsSubstring(x, b)
    ensures IsSubstring(x, a + b + c)
  {
    var i :| 0 <= i <= |b| - |x| && OccursAt(x, b, i);
    var w := a + b + c;
    assert w[|a| + i..|a| + i + |x|] == b[i..i + |x|];
    assert OccursAt(x, w, |a| + i);
  }

  /** What follows a prefix `a` of `hay` occurs right after it. */
  lemma OccursAfter<T>(a: seq<T>, b: seq<T>, hay: seq<T>)
    requires a + b <= hay
    ensures OccursAt(b, hay, |a|)
  {
    assert hay[|a|..|a| + |b|] == (a + b)[|a|..];
  }

  /** `b` occurs in `a + b + c` right after `a`. */
  lemma OccursIn<T>(a: seq<T>, b: seq<T>, c: seq<T>)
    ensures OccursAt(b, a + b + c, |a|)
  {
    assert (a + b + c)[|a|..|a| + |b|] == b;
  }

  /** An occurrence moves right by the length of what is put in front. */
  lemma OccursShifted<T>(h: seq<T>, x: seq<T>, hay: seq<T>, i: int)
    requires OccursAt(x, hay, i)
    ensures OccursAt(x, h + hay, |h| + i)
  {
    assert (h + hay)[|h| + i..|h| + i + |x|] == hay[i..i + |x|];
  }

  /** A substring of a substring is a substring. */
  lemma SubstringTrans<T>(x: seq<T>, y: seq<T>, z: seq<T>)
    requires IsSubstring(x, y) && IsSubstring(y, z)
    ensures IsSubstring(x, z)
  {
    var i :| 0 <= i <= |y| - |x| && OccursAt(x, y, i);
    var j :| 0 <= j <= |z| - |y| && OccursAt(y, z, j);
    forall t | 0 <= t < |x| ensures z[j + i + t] == x[t] {
      assert y[i..i + |x|][t] == x[t];
      assert z[j..j + |y|][i + t] == y[i + t];
    }
    assert OccursAt(x, z, j + i);
  }

  /** The first index at which `sep` occurs in `s`, or -1 (Python's `s.find(sep)`). */
  function IndexOf<T(==)>(s: seq<T>, sep: seq<T>): (r: int)
    requires |sep| > 0
    ensures r == -1 || OccursAt(sep, s, r)
    ensures forall j :: 0 <= j && (r < 0 || j < r) ==> !OccursAt(sep, s, j)
    ensures r < 0 <==> !IsSubstring(sep, s)
    decreases |s|
  {
    if |s| < |sep| then -1
    else if sep <= s then
      assert OccursAt(sep, s, 0);
      0
    else
      var k := IndexOf(s[1..], sep);
      assert !OccursAt(sep, s, 0);
      assert forall j :: 0 <= j ==> (OccursAt(sep, s[1..], j) <==> OccursAt(sep, s, j + 1)) by {
        forall j | 0 <= j ensures OccursAt(sep, s[1..], j) <==> OccursAt(sep, s, j + 1) {
          if j + 1 <= |s| - |sep| {
            assert s[1..][j..j + |sep|] == s[j + 1..j + 1 + |sep|];
          }
        }
      }
      assert forall j :: 1 <= j ==> (OccursAt(sep, s, j) <==> OccursAt(sep, s[1..], j - 1));
      if k < 0 then -1 else k + 1
  }

  // ---------------------------------------------------------------------------
  // split and join

  /** `s.split(sep)` for a non-empty separator: the pieces between the leftmost
      non-overlapping occurrences of `sep`. */
  function Split(s: string, sep: string): (r: seq<string>)
    requires |sep| > 0
    ensures |r| >= 1
    decreases |s|
  {
    var i := IndexOf(s, sep);
    if i < 0 then [s] else [s[..i]] + Split(s[i + |sep|..], sep)
  }

  /** `sep.join(parts)` */
  function Join(sep: string, parts: seq<string>): (r: string)
  {
    if |parts| == 0 then []
    else if |parts| == 1 then parts[0]
    else parts[0] + sep + Join(sep, parts[1..])
  }

  /** Every part occurs in the joined string. */
  lemma {:induction false} JoinContains(sep: string, parts: seq<string>, k: int)
    requires 0 <= k < |parts|
    ensures IsSubstring(parts[k], Join(sep, parts))
    decreases |parts|
  {
    if |parts| == 1 {
      SubstringSelf(parts[0]);
    } else if k == 0 {
      SubstringSelf(parts[0]);
      SubstringExtend(parts[0], [], parts[0], sep + Join(sep, parts[1..]));
      assert [] + parts[0] + (sep + Join(sep, parts[1..])) == Join(sep, parts);
    } else {
      JoinContains(sep, parts[1..], k - 1);
      SubstringExtend(parts[k], parts[0] + sep, Join(sep, parts[1..]), []);
      assert parts[0] + sep + Join(sep, parts[1..]) + [] == Join(sep, parts);
    }
  }

  /** Joining the pieces of a split with the same separator gives the string back. */
  lemma {:induction false} JoinSplit(s: string, sep: string)
    requires |sep| > 0
    ensures Join(sep, Split(s, sep)) == s
    decreases |s|
  {
    var i := IndexOf(s, sep);
    if i >= 0 {
      var rest := s[i + |sep|..];
      var tail := Split(rest, sep);
      JoinSplit(rest, sep);
      assert Split(s, sep) == [s[..i]] + tail;
      assert Join(sep, [s[..i]] + tail) == s[..i] + sep + Join(sep, tail) by {
        var ps := [s[..i]] + tail;
        assert ps[1..] == tail;
        assert |ps| >= 2;
      }
      assert s[i..i + |sep|] == sep;
      assert s == s[..i] + s[i..i + |sep|] + rest;
    }
  }

  /** A string that does not contain the separator splits into itself alone. */
  lemma SplitWithoutSeparator(s: string, sep: string)
    requires |sep| > 0
    requires !IsSubstring(sep, s)
    ensures Split(s, sep) == [s]
  {
  }

  /** The first occurrence of a one-character separator is the first occurrence of the
      character. */
  lemma {:induction false} IndexOfChar(p: string, c: char, rest: string)
    requires c !in p
    ensures IndexOf(p + [c] + rest, [c]) == |p|
  {
    var s := p + [c] + rest;
    assert OccursAt([c], s, |p|) by { assert s[|p|..|p| + 1] == [c]; }
    forall j | 0 <= j < |p| ensures !OccursAt([c], s, j) {
      assert s[j..j + 1] == [p[j]];
    }
  }

  /** Splitting at a one-character separator undoes joining pieces that do not contain it:
      `"\n".join(lines).split("\n") == lines`. */
  lemma {:induction false} SplitJoin(c: char, parts: seq<string>)
    requires |parts| >= 1
    requires forall i :: 0 <= i < |parts| ==> c !in parts[i]
    ensures Split(Join([c], parts), [c]) == parts
    decreases |parts|
  {
    if |parts| == 1 {
      SplitNoSeparator(c, parts[0]);
    } else {
      var rest := Join([c], parts[1..]);
      assert Join([c], parts) == parts[0] + [c] + rest;
      SplitAtFirst(c, parts[0], rest);
      SplitJoin(c, parts[1..]);
      assert parts == [parts[0]] + parts[1..];
    }
  }

  /** A text without the separator character splits into itself. */
  lemma SplitNoSeparator(c: char, p: string)
    requires c !in p
    ensures Split(p, [c]) == [p]
  {
    forall j | 0 <= j < |p| ensures !OccursAt([c], p, j) {
      assert p[j..j + 1] == [p[j]];
    }
  }

  /** Splitting cuts at the first separator character. */
  lemma SplitAtFirst(c: char, p: string, rest: string)
    requires c !in p
    ensures Split(p + [c] + rest, [c]) == [p] + Split(rest, [c])
  {
    IndexOfChar(p, c, rest);
    var s := p + [c] + rest;
    assert s[..|p|] == p;
    assert s[|p| + 1..] == rest;
  }

  // ---------------------------------------------------------------------------
  // List comprehensions

  /** `idx` lists positions of `xs` in strictly increasing order. */
  ghost predicate Increasing(idx: seq<int>, n: nat) {
    && (forall k :: 0 <= k < |idx| ==> 0 <= idx[k] < n)
    && (forall k, l :: 0 <= k < l < |idx| ==> idx[k] < idx[l])
  }

  /** `r` is `[f(x) for x in xs if keep(x)]`: `idx` holds, in increasing order, the positions
      of `xs` whose element is kept; element `k` of `r` is `f` of the element at `idx[k]`; and
      every position whose element passes `keep` is among them. */
  ghost predicate Comprehension<T, U>(r: seq<U>, xs: seq<T>, keep: T -> bool, f: T -> U, idx: seq<int>) {
    && |idx| == |r|
    && Increasing(idx, |xs|)
    && (forall k :: 0 <= k < |idx| ==> keep(xs[idx[k]]) && r[k] == f(xs[idx[k]]))
    && (forall j :: 0 <= j < |xs| && keep(xs[j]) ==> j in idx)
  }

  /** Appending one element to the source appends its image when it is kept. */
  lemma ComprehensionSnoc<T, U>(r: seq<U>, xs: seq<T>, keep: T -> bool, f: T -> U, idx: seq<int>, x: T)
    requires Comprehension(r, xs, keep, f, idx)
    ensures Comprehension(r + (if keep(x) then [f(x)] else []), xs + [x], keep, f,
                          idx + (if keep(x) then [|xs|] else []))
  {
    var xs' := xs + [x];
    var r' := r + (if keep(x) then [f(x)] else []);
    var idx' := idx + (if keep(x) then [|xs|] else []);
    forall k | 0 <= k < |idx| ensures idx'[k] == idx[k] && xs'[idx[k]] == xs[idx[k]] && r'[k] == r[k] { }
    forall j | 0 <= j < |xs'| && keep(xs'[j]) ensures j in idx' {
      if j < |xs| {
        assert xs'[j] == xs[j];
        var k :| 0 <= k < |idx| && idx[k] == j;
        assert idx'[k] == j;
      } else {
        assert idx'[|idx|] == j;
      }
    }
  }
}
