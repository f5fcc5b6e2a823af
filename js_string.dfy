/**
 * The string built-ins the sources call (`indexOf`, `includes`, `replace` with a string
 * pattern, `split` on one character, `trim`, `toLowerCase`), over `seq<char>`.
 */
module JsString {
  import opened Wrappers
  import opened JsArray

  /** `p` appears in `s` starting at index `i`. */
  predicate OccursAt(s: string, p: string, i: nat)
  {
    i + |p| <= |s| && s[i..i + |p|] == p
  }

  /** Each character of an occurrence is the pattern's character at the same offset. */
  lemma OccursAtChar(s: string, p: string, i: nat, k: nat)
    requires OccursAt(s, p, i) && k < |p|
    ensures i + k < |s| && s[i + k] == p[k]
  {
    assert s[i..i + |p|][k] == s[i + k];
  }

  function IndexOfFrom(s: string, p: string, k: nat): (r: Option<nat>)
    requires k <= |s|
    ensures r.Some? ==> k <= r.value && OccursAt(s, p, r.value)
    ensures r.Some? ==> forall j: nat :: k <= j < r.value ==> !OccursAt(s, p, j)
    ensures r.None? ==> forall j: nat :: k <= j ==> !OccursAt(s, p, j)
    decreases |s| - k
  {
    if OccursAt(s, p, k) then Some(k)
    else if k == |s| then None
    else IndexOfFrom(s, p, k + 1)
  }

  /** `s.indexOf(p)`: the first position where `p` occurs in `s`. */
  function IndexOf(s: string, p: string): (r: Option<nat>)
    ensures r.Some? ==> OccursAt(s, p, r.value)
    ensures r.Some? ==> forall j: nat :: j < r.value ==> !OccursAt(s, p, j)
    ensures r.None? <==> forall j: nat :: !OccursAt(s, p, j)
  {
    IndexOfFrom(s, p, 0)
  }

  /** `s.includes(p)`. */
  predicate Includes(s: string, p: string)
    ensures Includes(s, p) <==> exists j: nat :: OccursAt(s, p, j)
  {
    IndexOf(s, p).Some?
  }

  /**
   * `s.replace(p, r)` with a string pattern: only the first occurrence is replaced. The `$`
   * patterns a replacement string may hold are not interpreted; every caller passes "".
   */
  function ReplaceFirst(s: string, p: string, r: string): (res: string)
    ensures (forall j: nat :: !OccursAt(s, p, j)) ==> res == s
    ensures forall i: nat :: OccursAt(s, p, i) && (forall j: nat :: j < i ==> !OccursAt(s, p, j)) ==>
              res == s[..i] + r + s[i + |p|..]
    ensures forall ch :: ch in res ==> ch in s || ch in r
  {
    match IndexOf(s, p)
    case None => s
    case Some(i) =>
      assert forall ch :: ch in s[..i] + r + s[i + |p|..] ==> ch in s[..i] || ch in r || ch in s[i + |p|..];
      s[..i] + r + s[i + |p|..]
  }

  /** A replacement whose pattern holds a character `s` lacks leaves `s` unchanged. */
  lemma ReplaceAbsent(s: string, p: string, r: string)
    requires exists ch :: ch in p && ch !in s
    ensures ReplaceFirst(s, p, r) == s
  {
  }

  /** The first position of character `c` in `s`. */
  function IndexOfChar(s: string, c: char): (r: Option<nat>)
    ensures r.Some? ==> r.value < |s| && s[r.value] == c && forall j :: 0 <= j < r.value ==> s[j] != c
    ensures r.None? <==> c !in s
  {
    if s == [] then None
    else if s[0] == c then Some(0)
    else match IndexOfChar(s[1..], c)
      case None => None
      case Some(i) => Some(i + 1)
  }

  /**
   * `s.split(c)`: the maximal `c`-free pieces of `s`, in order; there is more than one
   * piece exactly when `c` occurs.
   */
  function Split(s: string, c: char): (r: seq<string>)
    ensures |r| >= 1
    ensures forall k :: 0 <= k < |r| ==> c !in r[k]
    ensures |r| == 1 <==> c !in s
    ensures r[|r| - 1] == LastPiece(s, c)
    decreases |s|
  {
    match IndexOfChar(s, c)
    case None => [s]
    case Some(i) => [s[..i]] + Split(s[i + 1..], c)
  }

  lemma {:induction false} SplitJoin(s: string, c: char)
    ensures Join(Split(s, c), [c]) == s
    decreases |s|
  {
    match IndexOfChar(s, c)
    case None =>
    case Some(i) =>
      var tail := s[i + 1..];
      var rest := Split(tail, c);
      SplitJoin(tail, c);
      JoinCons(s[..i], rest, [c]);
      CutAround(s, i);
  }

  /** A string is the text before position `i`, the character there, and the text after it. */
  lemma CutAround(s: string, i: nat)
    requires i < |s|
    ensures s[..i] + [s[i]] + s[i + 1..] == s
  {
  }

  lemma JoinCons(a: string, rest: seq<string>, sep: string)
    requires |rest| >= 1
    ensures Join([a] + rest, sep) == a + sep + Join(rest, sep)
  {
    assert ([a] + rest)[1..] == rest;
  }

  /** The text after the last `c` of `s`, or all of `s` when `c` does not occur. */
  function LastPiece(s: string, c: char): (r: string)
    ensures c !in r
    decreases |s|
  {
    match IndexOfChar(s, c)
    case None => s
    case Some(i) => LastPiece(s[i + 1..], c)
  }

  /** `r` ends `s`, and unless it is all of `s`, the character before it is `c`. */
  predicate IsSuffixAfter(s: string, r: string, c: char)
  {
    |r| <= |s| && r == s[|s| - |r|..] && (|r| < |s| ==> s[|s| - |r| - 1] == c)
  }

  /** The last piece is the longest `c`-free suffix of `s`. */
  lemma {:induction false} LastPieceSuffix(s: string, c: char)
    ensures IsSuffixAfter(s, LastPiece(s, c), c)
    decreases |s|
  {
    match IndexOfChar(s, c)
    case None =>
      assert LastPiece(s, c) == s;
    case Some(i) =>
      var r := LastPiece(s[i + 1..], c);
      assert LastPiece(s, c) == r;
      LastPieceSuffix(s[i + 1..], c);
      SuffixStep(s, i, r, c);
  }

  /** Where `c` first occurs at `i`, the pieces are the text before it and the pieces after it. */
  lemma SplitCons(s: string, c: char, i: nat)
    requires IndexOfChar(s, c) == Some(i)
    ensures Split(s, c) == [s[..i]] + Split(s[i + 1..], c)
  {
  }

  /** A suffix of the text after a `c` at `i`, in the sense above, is one of `s`. */
  lemma SuffixStep(s: string, i: nat, r: string, c: char)
    requires i < |s| && s[i] == c && IsSuffixAfter(s[i + 1..], r, c)
    ensures IsSuffixAfter(s, r, c)
  {
    if |r| < |s| - i - 1 {
      assert s[i + 1..][|s| - i - 1 - |r| - 1] == s[|s| - |r| - 1];
    }
  }

  /** The text of `s` before the first `c`, or all of `s` when `c` does not occur. */
  function Before(s: string, c: char): (r: string)
    ensures |r| <= |s| && r == s[..|r|] && c !in r
    ensures |r| < |s| ==> s[|r|] == c
  {
    match IndexOfChar(s, c)
    case None => s
    case Some(i) => s[..i]
  }

  /** The text of `s` after its first `c`. */
  function After(s: string, c: char): (r: string)
    requires c in s
    ensures |r| < |s| && r == s[|s| - |r|..]
    ensures s[|s| - |r| - 1] == c && c !in s[..|s| - |r| - 1]
  {
    var i := IndexOfChar(s, c).value;
    s[i + 1..]
  }

  /**
   * The first piece of `s.split(c)` is the text before the first `c`; when `c` occurs, the
   * second piece is the text between the first and the second `c` (or the end).
   */
  lemma SplitPieces(s: string, c: char)
    ensures Split(s, c)[0] == Before(s, c)
    ensures c in s ==> |Split(s, c)| >= 2 && Split(s, c)[1] == Before(After(s, c), c)
  {
    if c in s {
      SplitCons(s, c, IndexOfChar(s, c).value);
    }
  }

  /** ECMAScript white space and line terminators, the characters `trim` removes. */
  predicate IsSpace(c: char)
  {
    || c == ' ' || c == '\t' || c == '\n' || c == '\r' || c == '\U{000B}' || c == '\U{000C}'
    || c == '\U{00A0}' || c == '\U{1680}' || ('\U{2000}' <= c <= '\U{200A}')
    || c == '\U{2028}' || c == '\U{2029}' || c == '\U{202F}' || c == '\U{205F}'
    || c == '\U{3000}' || c == '\U{FEFF}'
  }

  /** The number of white-space characters `s` starts with. */
  function LeadingSpaces(s: string): (n: nat)
    ensures n <= |s|
    ensures forall k :: 0 <= k < n ==> IsSpace(s[k])
    ensures n < |s| ==> !IsSpace(s[n])
  {
    if s != [] && IsSpace(s[0]) then 1 + LeadingSpaces(s[1..]) else 0
  }

  /** The number of white-space characters `s` ends with. */
  function TrailingSpaces(s: string): (n: nat)
    ensures n <= |s|
    ensures forall k :: |s| - n <= k < |s| ==> IsSpace(s[k])
    ensures n < |s| ==> !IsSpace(s[|s| - n - 1])
  {
    if s != [] && IsSpace(s[|s| - 1]) then 1 + TrailingSpaces(s[..|s| - 1]) else 0
  }

  /**
   * `s.trim()`: the slice of `s` left when the white space at both ends is cut off.
   * The result is empty exactly when `s` is all white space; otherwise it starts and ends
   * with a non-space character.
   */
  function Trim(s: string): (r: string)
    ensures |r| <= |s|
    ensures LeadingSpaces(s) + |r| <= |s| && r == s[LeadingSpaces(s)..LeadingSpaces(s) + |r|]
    ensures forall k :: LeadingSpaces(s) + |r| <= k < |s| ==> IsSpace(s[k])
    ensures r != [] ==> !IsSpace(r[0]) && !IsSpace(r[|r| - 1])
    ensures r == [] <==> forall k :: 0 <= k < |s| ==> IsSpace(s[k])
  {
    var t := s[LeadingSpaces(s)..];
    var r := t[..|t| - TrailingSpaces(t)];
    assert r != [] ==> r[0] == s[LeadingSpaces(s)];
    r
  }

  lemma TrimKeepsTrimmed(s: string)
    requires s == [] || (!IsSpace(s[0]) && !IsSpace(s[|s| - 1]))
    ensures Trim(s) == s
  {
    if s != [] {
      assert LeadingSpaces(s) == 0;
      assert TrailingSpaces(s) == 0;
    }
  }

  lemma TrimIdempotent(s: string)
    ensures Trim(Trim(s)) == Trim(s)
  {
    TrimKeepsTrimmed(Trim(s));
  }

  /** `toLowerCase` on one character, for the ASCII letters. */
  function LowerChar(c: char): (r: char)
    ensures 'A' <= c <= 'Z' ==> r as int == c as int + 32
    ensures !('A' <= c <= 'Z') ==> r == c
  {
    if 'A' <= c <= 'Z' then (c as int + 32) as char else c
  }

  /** `s.toLowerCase()`, character by character. */
  function ToLower(s: string): (r: string)
    ensures |r| == |s|
    ensures forall k :: 0 <= k < |s| ==> r[k] == LowerChar(s[k])
  {
    seq(|s|, k requires 0 <= k < |s| => LowerChar(s[k]))
  }

  /** Lower-casing moves no colon: a character that lower-cases to a colon is a colon. */
  lemma LowerColon(c: char)
    requires LowerChar(c) == ':'
    ensures c == ':'
  {
  }
}
