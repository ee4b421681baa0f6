/**
 * The JavaScript string operations the HTML post-processing uses:
 * `includes`, `replace` with a string pattern (first occurrence only) and
 * `trim`.
 */
module Strings {
  import opened Wrappers

  /**
   * The characters `String.prototype.trim` removes: the ECMAScript
   * WhiteSpace and LineTerminator code points.
   */
  predicate IsSpace(c: char) {
    || c == ' ' || c == '\t' || c == '\n' || c == '\r'
    || c == '\U{B}' || c == '\U{C}' || c == '\U{A0}' || c == '\U{FEFF}'
    || c == '\U{1680}' || ('\U{2000}' <= c <= '\U{200A}')
    || c == '\U{2028}' || c == '\U{2029}' || c == '\U{202F}' || c == '\U{205F}' || c == '\U{3000}'
  }

  /** Whether `s` is made of white space only (the empty string included). */
  predicate Blank(s: string) {
    forall i :: 0 <= i < |s| ==> IsSpace(s[i])
  }

  /** `s` with its leading white space removed. */
  function TrimStart(s: string): (r: string)
    ensures |r| <= |s| && r == s[|s| - |r|..]
    ensures r == [] || !IsSpace(r[0])
    ensures forall i :: 0 <= i < |s| - |r| ==> IsSpace(s[i])
  {
    if s != [] && IsSpace(s[0]) then TrimStart(s[1..]) else s
  }

  /** `s` with its trailing white space removed. */
  function TrimEnd(s: string): (r: string)
    ensures |r| <= |s| && r == s[..|r|]
    ensures r == [] || !IsSpace(r[|r| - 1])
    ensures forall i :: |r| <= i < |s| ==> IsSpace(s[i])
  {
    if s != [] && IsSpace(s[|s| - 1]) then TrimEnd(s[..|s| - 1]) else s
  }

  /** A prefix of a suffix sits in the middle of the whole, element by element. */
  lemma InnerSlice<T>(s: seq<T>, t: seq<T>, r: seq<T>)
    requires |t| <= |s| && t == s[|s| - |t|..]
    requires |r| <= |t| && r == t[..|r|]
    ensures forall k :: 0 <= k < |r| ==> r[k] == s[|s| - |t| + k]
  {
  }

  /**
   * `s.trim()`: white space cut at both ends. The result is empty exactly
   * when `s` is all white space; `TrimSlice` shows what is cut.
   */
  function Trim(s: string): (r: string)
    ensures r == [] || (!IsSpace(r[0]) && !IsSpace(r[|r| - 1]))
    ensures r == [] <==> Blank(s)
  {
    var t := TrimStart(s);
    var r := TrimEnd(t);
    assert r != [] ==> s[|s| - |t|] == r[0];
    r
  }

  /** `Trim` keeps one slice of `s` and cuts only white space before and after it. */
  lemma TrimSlice(s: string)
    ensures var r := Trim(s); var a := |s| - |TrimStart(s)|;
      && a + |r| <= |s| && (forall k :: 0 <= k < |r| ==> r[k] == s[a + k])
      && (forall i :: 0 <= i < a ==> IsSpace(s[i]))
      && (forall i :: a + |r| <= i < |s| ==> IsSpace(s[i]))
  {
    var t := TrimStart(s);
    var r := TrimEnd(t);
    InnerSlice(s, t, r);
    CutTail(s, t, r);
  }

  /** The white space `TrimEnd` cuts from the suffix left by `TrimStart` ends the whole string. */
  lemma CutTail(s: string, t: string, r: string)
    requires |t| <= |s| && t == s[|s| - |t|..] && |r| <= |t|
    requires forall i :: |r| <= i < |t| ==> IsSpace(t[i])
    ensures forall i :: |s| - |t| + |r| <= i < |s| ==> IsSpace(s[i])
  {
    forall i | |s| - |t| + |r| <= i < |s| ensures IsSpace(s[i]) {
      SuffixIndex(s, t, i - (|s| - |t|));
    }
  }

  /** The `k`-th element of a suffix is the matching element of the whole. */
  lemma SuffixIndex<T>(s: seq<T>, t: seq<T>, k: nat)
    requires |t| <= |s| && t == s[|s| - |t|..] && k < |t|
    ensures t[k] == s[|s| - |t| + k]
  {
  }

  /** Trimming text that already starts and ends with non-space characters leaves it as it is. */
  lemma TrimKeeps(s: string)
    requires s != [] && !IsSpace(s[0]) && !IsSpace(s[|s| - 1])
    ensures Trim(s) == s
  {
  }

  /** Trimming text padded with one white-space character at each end gives the text back. */
  lemma TrimPadded(inner: string, pad: char)
    requires IsSpace(pad)
    requires inner != [] && !IsSpace(inner[0]) && !IsSpace(inner[|inner| - 1])
    ensures Trim([pad] + inner + [pad]) == inner
  {
    var s := [pad] + inner + [pad];
    assert s[1..] == inner + [pad];
    assert (inner + [pad])[0] == inner[0];
    assert TrimStart(s) == inner + [pad];
    assert (inner + [pad])[..|inner|] == inner;
  }

  /** Whether `sub` occurs in `s` at `i`. */
  predicate OccursAt(s: string, sub: string, i: nat) {
    i + |sub| <= |s| && s[i..i + |sub|] == sub
  }

  /** A slice of the tail is the slice one place further on. */
  lemma SliceOfTail<T>(s: seq<T>, j: nat, n: nat)
    requires j + 1 + n <= |s|
    ensures s[j + 1..j + 1 + n] == s[1..][j..j + n]
  {
  }

  /** An occurrence one place on in `s` is an occurrence in its tail, and back. */
  lemma OccursShift(s: string, sub: string, j: nat)
    requires s != []
    ensures OccursAt(s, sub, j + 1) <==> OccursAt(s[1..], sub, j)
  {
    if j + 1 + |sub| <= |s| {
      SliceOfTail(s, j, |sub|);
    }
  }

  /** The first position of `sub` in `s`: `s.indexOf(sub)`, with `None` for -1. */
  function Find(s: string, sub: string): (r: Option<nat>)
    ensures r.Some? ==> OccursAt(s, sub, r.value)
    ensures r.Some? ==> forall j :: 0 <= j < r.value ==> !OccursAt(s, sub, j)
    ensures r.None? ==> forall j: nat :: !OccursAt(s, sub, j)
    decreases |s|
  {
    if |s| < |sub| then None
    else if s[..|sub|] == sub then Some(0)
    else
      var rest := Find(s[1..], sub);
      assert !OccursAt(s, sub, 0) by { assert s[0..|sub|] == s[..|sub|]; }
      match rest
      case None =>
        assert forall j: nat :: !OccursAt(s, sub, j) by {
          forall j: nat ensures !OccursAt(s, sub, j) {
            if j > 0 { OccursShift(s, sub, j - 1); }
          }
        }
        None
      case Some(k) =>
        OccursShift(s, sub, k);
        assert forall j :: 0 <= j < k + 1 ==> !OccursAt(s, sub, j) by {
          forall j | 0 <= j < k + 1 ensures !OccursAt(s, sub, j) {
            if j > 0 { OccursShift(s, sub, j - 1); }
          }
        }
        Some(k + 1)
  }

  /** `s.includes(sub)`. */
  predicate Includes(s: string, sub: string) {
    Find(s, sub).Some?
  }

  /** Any occurrence makes `includes` true. */
  lemma OccursIncludes(s: string, sub: string, i: nat)
    requires OccursAt(s, sub, i)
    ensures Includes(s, sub)
  {
  }

  /** An occurrence inside a part is an occurrence in the whole. */
  lemma IncludesConcat(a: string, b: string, c: string, sub: string)
    requires Includes(b, sub)
    ensures Includes(a + b + c, sub)
  {
    var i := Find(b, sub).value;
    assert (a + b + c)[|a| + i..|a| + i + |sub|] == b[i..i + |sub|];
    OccursIncludes(a + b + c, sub, |a| + i);
  }

  /**
   * `s.replace(pattern, replacement)` with a string pattern: the earliest
   * occurrence is replaced and the text around it kept; without an occurrence
   * the string comes back unchanged.
   */
  function ReplaceFirst(s: string, pattern: string, replacement: string): (r: string)
    ensures (forall j: nat :: !OccursAt(s, pattern, j)) ==> r == s
    ensures forall i: nat :: OccursAt(s, pattern, i) && (forall j :: 0 <= j < i ==> !OccursAt(s, pattern, j)) ==>
      && |r| == |s| - |pattern| + |replacement|
      && r[..i] == s[..i]
      && r[i..i + |replacement|] == replacement
      && r[i + |replacement|..] == s[i + |pattern|..]
  {
    match Find(s, pattern)
    case None => s
    case Some(k) =>
      var r := s[..k] + replacement + s[k + |pattern|..];
      SpliceParts(s[..k], replacement, s[k + |pattern|..]);
      assert forall i: nat :: OccursAt(s, pattern, i) && (forall j :: 0 <= j < i ==> !OccursAt(s, pattern, j)) ==> i == k;
      r
  }

  /** The three parts of a concatenation can be sliced back out of it. */
  lemma SpliceParts<T>(a: seq<T>, b: seq<T>, c: seq<T>)
    ensures var r := a + b + c;
      && r[..|a|] == a && r[|a|..|a| + |b|] == b && r[|a| + |b|..] == c
  {
    var r := a + b + c;
    assert r[..|a|] == a;
    assert r[|a|..|a| + |b|] == b;
    assert r[|a| + |b|..] == c;
  }

  /** With an occurrence, `ReplaceFirst` splices the replacement in at the position `Find` reports. */
  lemma ReplaceAtFind(s: string, pattern: string, replacement: string)
    requires Includes(s, pattern)
    ensures var i := Find(s, pattern).value;
      ReplaceFirst(s, pattern, replacement) == s[..i] + replacement + s[i + |pattern|..]
  {
  }
}
