/** Shared vocabulary: Option/Result and the Python and JavaScript string
    primitives the backend and the frontend rely on (str.strip, str.startswith,
    str.endswith, str.split/rsplit with a limit, String.prototype.split). */
module Common {

  datatype Option<T> = None | Some(value: T)

  datatype Result<T, E> = Success(value: T) | Failure(error: E)

  type Bytes = seq<bv8>

  predicate StartsWith(s: string, p: string) {
    |p| <= |s| && s[..|p|] == p
  }

  predicate EndsWith(s: string, p: string) {
    |p| <= |s| && s[|s| - |p|..] == p
  }

  /** `t` occurs in `s` starting at index `k`. */
  predicate OccursAt(s: string, t: string, k: int) {
    0 <= k && k + |t| <= |s| && s[k..k + |t|] == t
  }

  /** `t` occurs somewhere in `s`: Python's `t in s`. */
  predicate Contains(s: string, t: string) {
    exists k :: 0 <= k <= |s| - |t| && OccursAt(s, t, k)
  }

  predicate NewlineFree(s: string) {
    forall i :: 0 <= i < |s| ==> s[i] != '\n'
  }

  predicate AllNewlineFree(lines: seq<string>) {
    forall i :: 0 <= i < |lines| ==> NewlineFree(lines[i])
  }

  /** The characters for which Python's str.isspace() holds; str.strip() with
      no argument removes exactly these from both ends. */
  predicate IsSpace(c: char) {
    ('\t' <= c <= '\r') || ('\U{1C}' <= c <= '\U{1F}') || c == ' ' ||
    c == '\U{85}' || c == '\U{A0}' || c == '\U{1680}' ||
    ('\U{2000}' <= c <= '\U{200A}') || c == '\U{2028}' || c == '\U{2029}' ||
    c == '\U{202F}' || c == '\U{205F}' || c == '\U{3000}'
  }

  /** Length of the longest all-whitespace prefix. */
  function LeadingSpaces(s: string): (n: nat)
    ensures n <= |s|
    ensures forall i :: 0 <= i < n ==> IsSpace(s[i])
    ensures n < |s| ==> !IsSpace(s[n])
  {
    if s == [] || !IsSpace(s[0]) then 0 else 1 + LeadingSpaces(s[1..])
  }

  /** Length of the longest all-whitespace suffix. */
  function TrailingSpaces(s: string): (n: nat)
    ensures n <= |s|
    ensures forall i :: |s| - n <= i < |s| ==> IsSpace(s[i])
    ensures n < |s| ==> !IsSpace(s[|s| - 1 - n])
  {
    if s == [] || !IsSpace(s[|s| - 1]) then 0 else 1 + TrailingSpaces(s[..|s| - 1])
  }

  /** Python's `s.strip()`: the slice of `s` left after dropping whitespace
      at both ends. */
  function Strip(s: string): (r: string)
    ensures OccursAt(s, r, LeadingSpaces(s))
    ensures r == [] <==> forall i :: 0 <= i < |s| ==> IsSpace(s[i])
    ensures r != [] ==> !IsSpace(r[0]) && !IsSpace(r[|r| - 1])
    ensures forall i :: 0 <= i < LeadingSpaces(s) ==> IsSpace(s[i])
    ensures forall i :: LeadingSpaces(s) + |r| <= i < |s| ==> IsSpace(s[i])
  {
    var lo := LeadingSpaces(s);
    if lo == |s| then [] else s[lo..|s| - TrailingSpaces(s)]
  }

  /** A string without whitespace at either end is its own strip. */
  lemma StripUnchanged(s: string)
    requires s != [] && !IsSpace(s[0]) && !IsSpace(s[|s| - 1])
    ensures Strip(s) == s
  {
    assert LeadingSpaces(s) == 0;
    assert TrailingSpaces(s) == 0;
  }

  /** Index of the first `c` in `s`, if any. */
  function IndexOf(s: string, c: char): (r: Option<nat>)
    ensures r.Some? ==> r.value < |s| && s[r.value] == c
    ensures r.Some? ==> forall i :: 0 <= i < r.value ==> s[i] != c
    ensures r.None? ==> forall i :: 0 <= i < |s| ==> s[i] != c
  {
    if s == [] then None
    else if s[0] == c then Some(0)
    else
      var t := IndexOf(s[1..], c);
      if t.None? then None else Some(t.value + 1)
  }

  lemma IndexOfFirst(s: string, c: char, i: nat)
    requires i < |s| && s[i] == c
    requires forall k :: 0 <= k < i ==> s[k] != c
    ensures IndexOf(s, c) == Some(i)
  {
  }

  /** Start of the last (right-most) occurrence of `t` in `s`, the position
      Python's `s.rsplit(t, 1)` cuts at. */
  function LastIndexOf(s: string, t: string): (r: Option<nat>)
    ensures r.Some? ==> OccursAt(s, t, r.value)
    ensures r.Some? ==> forall k :: r.value < k ==> !OccursAt(s, t, k)
    ensures r.None? ==> forall k :: !OccursAt(s, t, k)
    decreases |s|
  {
    if |t| > |s| then None
    else if s[|s| - |t|..] == t then Some(|s| - |t|)
    else
      var r := LastIndexOf(s[..|s| - 1], t);
      assert forall k :: OccursAt(s, t, k) && k != |s| - |t| ==> OccursAt(s[..|s| - 1], t, k) by {
        forall k | OccursAt(s, t, k) && k != |s| - |t|
          ensures OccursAt(s[..|s| - 1], t, k)
        {
          assert s[..|s| - 1][k..k + |t|] == s[k..k + |t|];
        }
      }
      if r.Some? then
        assert OccursAt(s, t, r.value) by {
          assert s[..|s| - 1][r.value..r.value + |t|] == s[r.value..r.value + |t|];
        }
        r
      else r
  }

  /** Python's `s.split(sep, 1)[1]` for a one-character separator: the text
      after the first `sep`, or None where Python raises IndexError. */
  function AfterFirst(s: string, sep: char): (r: Option<string>)
    ensures r.None? <==> sep !in s
    ensures r.Some? ==> exists i :: 0 <= i < |s| && s[i] == sep && sep !in s[..i] && r.value == s[i + 1..]
  {
    match IndexOf(s, sep)
    case None => None
    case Some(i) => Some(s[i + 1..])
  }

  /** Python's `s.rsplit(sep, 1)[0]`: the text before the last `sep`, or the
      whole of `s` when `sep` does not occur. */
  function BeforeLast(s: string, sep: string): (r: string)
    requires sep != []
    ensures r == s <==> forall k :: !OccursAt(s, sep, k)
    ensures StartsWith(s, r)
    ensures r != s ==> OccursAt(s, sep, |r|) && forall k :: |r| < k ==> !OccursAt(s, sep, k)
  {
    match LastIndexOf(s, sep)
    case None => s
    case Some(j) => s[..j]
  }

  /** The parts written one after the other (JavaScript's `+=` over a
      stream, Python's f-string over its pieces). */
  function Concat(parts: seq<string>): string {
    if parts == [] then "" else Concat(parts[..|parts| - 1]) + parts[|parts| - 1]
  }

  lemma {:induction false} ConcatAppend(a: seq<string>, b: seq<string>)
    ensures Concat(a + b) == Concat(a) + Concat(b)
    decreases |b|
  {
    if b == [] {
      assert a + b == a;
    } else {
      var b' := b[..|b| - 1];
      assert (a + b)[..|a + b| - 1] == a + b';
      ConcatAppend(a, b');
    }
  }

  lemma ConcatPrefix(parts: seq<string>, k: nat)
    requires k < |parts|
    ensures Concat(parts[..k + 1]) == Concat(parts[..k]) + parts[k]
  {
    assert parts[..k + 1][..k] == parts[..k];
  }

  /** Every part shows up, unchanged, where the parts before it end. */
  lemma ConcatPart(parts: seq<string>, k: nat)
    requires k < |parts|
    ensures OccursAt(Concat(parts), parts[k], |Concat(parts[..k])|)
  {
    assert parts == parts[..k] + [parts[k]] + parts[k + 1..];
    ConcatAppend(parts[..k] + [parts[k]], parts[k + 1..]);
    ConcatAppend(parts[..k], [parts[k]]);
    ConcatSingleton(parts[k]);
  }

  lemma ConcatSingleton(x: string)
    ensures Concat([x]) == x
  {
    assert [x][..0] == [];
  }

  /** The first two parts open the concatenation, one after the other. */
  lemma ConcatOpening(parts: seq<string>)
    requires |parts| >= 2
    ensures StartsWith(Concat(parts), parts[0])
    ensures OccursAt(Concat(parts), parts[1], |parts[0]|)
  {
    ConcatPart(parts, 0);
    assert parts[..0] == [];
    ConcatPart(parts, 1);
    assert parts[..1] == [parts[0]];
    ConcatSingleton(parts[0]);
  }

  /** Every part is contained in the concatenation. */
  lemma ConcatContains(parts: seq<string>, k: nat)
    requires k < |parts|
    ensures Contains(Concat(parts), parts[k])
  {
    ConcatPart(parts, k);
  }

  /** A text contains whatever sits in its middle. */
  lemma ContainsMiddle(a: string, t: string, b: string)
    ensures Contains(a + t + b, t)
  {
    assert (a + t + b)[|a|..|a| + |t|] == t;
    assert OccursAt(a + t + b, t, |a|);
  }

  /** The first `k + 3` parts: those before `k`, then the three at `k`. */
  lemma ConcatThree(parts: seq<string>, k: nat)
    requires k + 3 <= |parts|
    ensures Concat(parts[..k + 3]) == Concat(parts[..k]) + (parts[k] + parts[k + 1] + parts[k + 2])
  {
    var c0, x, y, z := Concat(parts[..k]), parts[k], parts[k + 1], parts[k + 2];
    ConcatPrefix(parts, k);
    ConcatPrefix(parts, k + 1);
    ConcatPrefix(parts, k + 2);
    assert Concat(parts[..k + 3]) == c0 + x + y + z;
    AppendAssoc(c0 + x, y, z);
    AppendAssoc(c0, x, y + z);
    AppendAssoc(x, y, z);
  }

  /** Three neighbouring parts appear together, in order, in the concatenation. */
  lemma ConcatRun(parts: seq<string>, k: nat)
    requires k + 3 <= |parts|
    ensures Contains(Concat(parts), parts[k] + parts[k + 1] + parts[k + 2])
  {
    ConcatThree(parts, k);
    assert parts == parts[..k + 3] + parts[k + 3..];
    ConcatAppend(parts[..k + 3], parts[k + 3..]);
    ContainsMiddle(Concat(parts[..k]), parts[k] + parts[k + 1] + parts[k + 2], Concat(parts[k + 3..]));
  }

  /** Sequences that agree around a middle piece are equal exactly when the
      middle pieces are. */
  lemma CancelAround<T>(a: seq<T>, x: seq<T>, y: seq<T>, b: seq<T>)
    ensures a + x + b == a + y + b <==> x == y
  {
    if a + x + b == a + y + b {
      assert |x| == |y|;
      assert x == (a + x + b)[|a|..|a| + |x|];
      assert y == (a + y + b)[|a|..|a| + |y|];
    }
  }

  /** Part lists that differ at most at index `k` concatenate to the same
      text exactly when their parts at `k` are the same. */
  lemma ConcatSlotAt(p1: seq<string>, p2: seq<string>, k: nat)
    requires |p1| == |p2| && k < |p1|
    requires forall j :: 0 <= j < |p1| && j != k ==> p1[j] == p2[j]
    ensures Concat(p1) == Concat(p2) <==> p1[k] == p2[k]
  {
    var a, b := p1[..k], p1[k + 1..];
    assert p1 == a + [p1[k]] + b;
    assert p2 == a + [p2[k]] + b;
    ConcatSlot(a, p1[k], p2[k], b);
  }

  /** Changing one part changes the whole exactly when the part itself changes. */
  lemma ConcatSlot(a: seq<string>, x: string, y: string, b: seq<string>)
    ensures Concat(a + [x] + b) == Concat(a + [y] + b) <==> x == y
  {
    ConcatAppend(a + [x], b);
    ConcatAppend(a + [y], b);
    ConcatAppend(a, [x]);
    ConcatAppend(a, [y]);
    ConcatSingleton(x);
    ConcatSingleton(y);
    CancelAround(Concat(a), x, y, Concat(b));
  }

  /** Growing a prefix of `b` by one element, after `a`. */
  lemma PrefixStep<T>(a: seq<T>, b: seq<T>, j: nat)
    requires j < |b|
    ensures a + b[..j + 1] == (a + b[..j]) + [b[j]]
    ensures (a + b[..j + 1]) + b[j + 1..] == a + b
    ensures b[..j + 1] == b[..j] + [b[j]]
  {
    assert b[..j + 1] == b[..j] + [b[j]];
    assert b == b[..j + 1] + b[j + 1..];
  }

  /** Lines joined back together, each followed by "\n". */
  function JoinLines(lines: seq<string>): string {
    if lines == [] then "" else lines[0] + "\n" + JoinLines(lines[1..])
  }

  /** JavaScript's `s.split("\n")`: the pieces between newlines, always at
      least one (the last piece is the text after the last newline). */
  function Split(s: string): (r: seq<string>)
    ensures |r| >= 1
    ensures AllNewlineFree(r)
    decreases |s|
  {
    match IndexOf(s, '\n')
    case None => [s]
    case Some(i) => [s[..i]] + Split(s[i + 1..])
  }

  /** The pieces of Split(s) that a newline terminated. */
  function CompleteLines(s: string): (r: seq<string>)
    ensures AllNewlineFree(r)
  {
    var p := Split(s); p[..|p| - 1]
  }

  /** The unterminated tail of `s`: what follows its last newline. */
  function Remainder(s: string): (r: string)
    ensures NewlineFree(r)
  {
    var p := Split(s); p[|p| - 1]
  }

  lemma {:induction false} JoinLinesAppend(a: seq<string>, b: seq<string>)
    ensures JoinLines(a + b) == JoinLines(a) + JoinLines(b)
    decreases |a|
  {
    if a == [] {
      assert a + b == b;
    } else {
      assert (a + b)[1..] == a[1..] + b;
      JoinLinesAppend(a[1..], b);
    }
  }

  lemma AppendAssoc<T>(a: seq<T>, b: seq<T>, c: seq<T>)
    ensures a + b + c == a + (b + c)
  {
  }

  /** Taking all but the last element commutes with putting one in front. */
  lemma ConsInit<T>(x: T, p: seq<T>)
    requires p != []
    ensures ([x] + p)[..|p|] == [x] + p[..|p| - 1]
    ensures ([x] + p)[|p|] == p[|p| - 1]
  {
  }

  lemma SliceOfSlice<T>(s: seq<T>, lo: nat, hi: nat, a: nat, b: nat)
    requires lo <= hi <= |s| && a <= b <= hi - lo
    ensures s[lo..hi][a..b] == s[lo + a..lo + b]
  {
    var u, v := s[lo..hi][a..b], s[lo + a..lo + b];
    assert |u| == |v|;
    assert forall j :: 0 <= j < |u| ==> u[j] == s[lo + a + j] == v[j];
  }

  /** A prefix of what follows index `i` of an occurrence is itself an occurrence. */
  lemma OccursInside(s: string, t: string, lo: nat, i: nat, u: string)
    requires OccursAt(s, t, lo) && i <= |t| && StartsWith(t[i..], u)
    ensures OccursAt(s, u, lo + i)
  {
    SliceOfSlice(s, lo, lo + |t|, i, i + |u|);
    assert t[i..i + |u|] == t[i..][..|u|];
  }

  /** A string cut around one of its characters. */
  lemma CutAt(s: string, i: nat)
    requires i < |s|
    ensures s == s[..i] + [s[i]] + s[i + 1..]
  {
  }

  /** A first line, its newline, then the rest: Split peels off that line. */
  lemma SplitCons(line: string, rest: string)
    requires NewlineFree(line)
    ensures Split(line + "\n" + rest) == [line] + Split(rest)
  {
    var s := line + "\n" + rest;
    assert s[|line|] == '\n';
    assert forall k :: 0 <= k < |line| ==> s[k] == line[k];
    IndexOfFirst(s, '\n', |line|);
    assert s[..|line|] == line;
    assert s[|line| + 1..] == rest;
  }

  lemma SplitNewlineFree(s: string)
    requires NewlineFree(s)
    ensures Split(s) == [s]
  {
    assert IndexOf(s, '\n').None?;
  }

  /** Splitting undoes joining: newline-free lines followed by a
      newline-free tail split back into exactly those lines and that tail. */
  lemma {:induction false} SplitJoinLines(lines: seq<string>, tail: string)
    requires AllNewlineFree(lines) && NewlineFree(tail)
    ensures Split(JoinLines(lines) + tail) == lines + [tail]
    decreases |lines|
  {
    if lines == [] {
      assert JoinLines(lines) + tail == tail;
      SplitNewlineFree(tail);
    } else {
      var l, more := lines[0], lines[1..];
      assert NewlineFree(l);
      assert AllNewlineFree(more);
      AppendAssoc(l + "\n", JoinLines(more), tail);
      SplitCons(l, JoinLines(more) + tail);
      SplitJoinLines(more, tail);
      assert lines == [l] + more;
    }
  }

  /** Joining undoes splitting: the complete lines, each with its newline,
      followed by the remainder give back the original text. */
  lemma {:induction false} JoinSplit(s: string)
    ensures JoinLines(CompleteLines(s)) + Remainder(s) == s
    decreases |s|
  {
    match IndexOf(s, '\n')
    case None =>
      assert Split(s) == [s];
    case Some(i) =>
      var first, rest := s[..i], s[i + 1..];
      var p := Split(rest);
      assert Split(s) == [first] + p;
      ConsInit(first, p);
      assert CompleteLines(s) == [first] + CompleteLines(rest);
      assert Remainder(s) == Remainder(rest);
      assert JoinLines(CompleteLines(s)) == first + "\n" + JoinLines(CompleteLines(rest));
      JoinSplit(rest);
      AppendAssoc(first + "\n", JoinLines(CompleteLines(rest)), Remainder(rest));
      CutAt(s, i);
  }

  /** Text that starts with whole lines splits into those lines first. */
  lemma CompleteLinesAfter(lines: seq<string>, s: string)
    requires AllNewlineFree(lines)
    ensures CompleteLines(JoinLines(lines) + s) == lines + CompleteLines(s)
    ensures Remainder(JoinLines(lines) + s) == Remainder(s)
  {
    var c, t := CompleteLines(s), Remainder(s);
    JoinSplit(s);
    JoinLinesAppend(lines, c);
    AppendAssoc(JoinLines(lines), JoinLines(c), t);
    assert AllNewlineFree(lines + c);
    SplitJoinLines(lines + c, t);
    var p := Split(JoinLines(lines) + s);
    assert p == (lines + c) + [t];
    assert p[..|p| - 1] == lines + c;
  }
}
