/**
 * The few pieces of Python's `str` semantics the pipeline relies on:
 * whitespace as `str.isspace` and the regex class `\s` see it, `str.strip()`,
 * `str.find(sub, start)` and the `in` operator on strings.
 */
module PyStr {

  /**
   * Python's whitespace test (Py_UNICODE_ISSPACE), which both `str.strip()`
   * and `\s` in a `str` pattern use: the ASCII controls 9..13 and 28..31, the
   * space, and the Unicode space separators.
   */
  predicate IsSpace(c: char) {
    var n := c as int;
    (9 <= n <= 13) || (28 <= n <= 32) || n == 0x85 || n == 0xA0 || n == 0x1680
    || (0x2000 <= n <= 0x200A) || n == 0x2028 || n == 0x2029 || n == 0x202F
    || n == 0x205F || n == 0x3000
  }

  /** The character classes the patterns use: `\s`, a literal `#`, and `.` (anything but a newline). */
  datatype CharClass = Whitespace | HashMark | NotNewline

  predicate InClass(c: char, cls: CharClass) {
    match cls
    case Whitespace => IsSpace(c)
    case HashMark => c == '#'
    case NotNewline => c != '\n'
  }

  /**
   * Length of the maximal run of characters of class `cls` from index `i`
   * onwards: what a greedy regex repetition of a character class consumes.
   */
  function RunLength(s: string, i: nat, cls: CharClass): (n: nat)
    requires i <= |s|
    ensures i + n <= |s|
    decreases |s| - i
  {
    if i == |s| || !InClass(s[i], cls) then 0 else 1 + RunLength(s, i + 1, cls)
  }

  /** The run is made of characters of class `cls`, and it is maximal. */
  lemma {:induction false} RunLengthSpec(s: string, i: nat, cls: CharClass)
    requires i <= |s|
    ensures forall j :: i <= j < i + RunLength(s, i, cls) ==> InClass(s[j], cls)
    ensures i + RunLength(s, i, cls) == |s| || !InClass(s[i + RunLength(s, i, cls)], cls)
    decreases |s| - i
  {
    if i < |s| && InClass(s[i], cls) {
      RunLengthSpec(s, i + 1, cls);
    }
  }

  /** `s.strip()`: `s` without its leading and trailing whitespace. */
  function Strip(s: string): (r: string)
    ensures |r| <= |s|
    decreases |s|
  {
    if |s| > 0 && IsSpace(s[0]) then Strip(s[1..])
    else if |s| > 0 && IsSpace(s[|s| - 1]) then Strip(s[..|s| - 1])
    else s
  }

  /** `strip()` leaves nothing exactly when `s` is all whitespace. */
  lemma {:induction false} StripEmptyIffAllSpace(s: string)
    ensures Strip(s) == [] <==> forall i :: 0 <= i < |s| ==> IsSpace(s[i])
    decreases |s|
  {
    if |s| > 0 && IsSpace(s[0]) {
      StripEmptyIffAllSpace(s[1..]);
      assert forall i :: 1 <= i < |s| ==> s[i] == s[1..][i - 1];
    } else if |s| > 0 && IsSpace(s[|s| - 1]) {
      StripEmptyIffAllSpace(s[..|s| - 1]);
      assert forall i :: 0 <= i < |s| - 1 ==> s[i] == s[..|s| - 1][i];
    }
  }

  /** Whitespace at both ends of `s[a..b]`, and a non-blank character inside. */
  predicate StripWindow(s: string, a: nat, b: nat) {
    && a < b <= |s|
    && !IsSpace(s[a]) && !IsSpace(s[b - 1])
    && (forall i :: 0 <= i < a ==> IsSpace(s[i]))
    && (forall i :: b <= i < |s| ==> IsSpace(s[i]))
  }

  /** A window of `s[1..]` is, one place further on, a window of `s` when `s` starts with whitespace. */
  lemma WindowAfterLeading(s: string, a: nat, b: nat)
    requires |s| > 0 && IsSpace(s[0]) && StripWindow(s[1..], a, b)
    ensures StripWindow(s, a + 1, b + 1) && s[a + 1..b + 1] == s[1..][a..b]
  {
    assert forall i :: 1 <= i < |s| ==> s[i] == s[1..][i - 1];
  }

  /** A window of `s` without its last character is a window of `s` when that character is whitespace. */
  lemma WindowBeforeTrailing(s: string, a: nat, b: nat)
    requires |s| > 0 && IsSpace(s[|s| - 1]) && StripWindow(s[..|s| - 1], a, b)
    ensures StripWindow(s, a, b) && s[a..b] == s[..|s| - 1][a..b]
  {
    assert forall i :: 0 <= i < |s| - 1 ==> s[i] == s[..|s| - 1][i];
  }

  /**
   * What `strip()` keeps, when anything, is the slice `s[a..b]` from the first
   * to the last non-whitespace character.
   */
  lemma {:induction false} StripKeepsWindow(s: string)
    requires Strip(s) != []
    ensures exists a: nat, b: nat :: StripWindow(s, a, b) && Strip(s) == s[a..b]
    decreases |s|
  {
    if |s| > 0 && IsSpace(s[0]) {
      StripKeepsWindow(s[1..]);
      var a: nat, b: nat :| StripWindow(s[1..], a, b) && Strip(s[1..]) == s[1..][a..b];
      WindowAfterLeading(s, a, b);
    } else if |s| > 0 && IsSpace(s[|s| - 1]) {
      StripKeepsWindow(s[..|s| - 1]);
      var a: nat, b: nat :| StripWindow(s[..|s| - 1], a, b) && Strip(s[..|s| - 1]) == s[..|s| - 1][a..b];
      WindowBeforeTrailing(s, a, b);
    } else {
      assert s[0..|s|] == s;
      assert StripWindow(s, 0, |s|);
    }
  }

  /** `sub` occurs in `s` at index `j`. */
  predicate OccursAt(s: string, sub: string, j: int) {
    0 <= j && j + |sub| <= |s| && s[j..j + |sub|] == sub
  }

  /**
   * Where `s.find(sub, start)` begins to look: a negative `start` counts from
   * the end of `s` and is clamped to 0, as a slice index is.
   */
  function FindBegin(s: string, start: int): (b: int)
    ensures 0 <= b
    ensures 0 <= start ==> b == start
  {
    if start >= 0 then start
    else if |s| + start >= 0 then |s| + start
    else 0
  }

  /** The search behind `find`: the first occurrence at an index `>= j`, or -1. */
  function FindFrom(s: string, sub: string, j: nat): (r: int)
    ensures r == -1 || (j <= r && OccursAt(s, sub, r))
    ensures forall i :: j <= i && (r == -1 || i < r) ==> !OccursAt(s, sub, i)
    decreases |s| - j
  {
    if j + |sub| > |s| then -1
    else if s[j..j + |sub|] == sub then j
    else FindFrom(s, sub, j + 1)
  }

  /**
   * Python's `s.find(sub, start)`: the lowest index `>= FindBegin(s, start)`
   * at which `sub` occurs, and -1 when there is none (in particular when the
   * begin position lies past the end of `s`).
   */
  function Find(s: string, sub: string, start: int): (r: int)
    ensures r == -1 || (FindBegin(s, start) <= r && OccursAt(s, sub, r))
    ensures forall i :: FindBegin(s, start) <= i && (r == -1 || i < r) ==> !OccursAt(s, sub, i)
  {
    FindFrom(s, sub, FindBegin(s, start))
  }

  /** Python's `sub in s`, which is `s.find(sub) != -1`. */
  predicate Contains(s: string, sub: string) {
    Find(s, sub, 0) != -1
  }

  /** `sub in s` holds exactly when `sub` occurs somewhere in `s`. */
  lemma ContainsIffOccurs(s: string, sub: string)
    ensures Contains(s, sub) <==> exists j :: OccursAt(s, sub, j)
  {
  }
}
