/** The pieces of Python's `str` and `re` behaviour that the checker relies on:
    whitespace, `strip`, `startswith`, `in`, and the leftmost-position scan that
    `re.search` performs. Strings are sequences of code points, as in Python 3. */
module PyText {

  datatype Option<T> = None | Some(value: T)

  /** The characters for which Python's `str.isspace()` holds; `re`'s `\s` on a
      `str` pattern and `str.strip()` without arguments use the same set. */
  predicate IsSpace(c: char) {
    var n := c as int;
    (9 <= n <= 13) || (28 <= n <= 32) || n == 0x85 || n == 0xA0 || n == 0x1680
    || (0x2000 <= n <= 0x200A) || n == 0x2028 || n == 0x2029 || n == 0x202F
    || n == 0x205F || n == 0x3000
  }

  /** The leftmost position in `lo..hi` (both inclusive) at which `p` holds:
      the way `re.search` tries each start position of a string in turn. */
  function Leftmost(p: nat -> bool, lo: nat, hi: nat): Option<nat>
    decreases if lo <= hi then hi - lo + 1 else 0
  {
    if lo > hi then None
    else if p(lo) then Some(lo)
    else Leftmost(p, lo + 1, hi)
  }

  /** `Leftmost` finds a position where `p` holds, and none before it; when
      it finds none, `p` holds nowhere in the range. */
  lemma {:induction false} LeftmostSpec(p: nat -> bool, lo: nat, hi: nat)
    ensures var r := Leftmost(p, lo, hi);
      (r.Some? ==> lo <= r.value <= hi && p(r.value) && forall j :: lo <= j < r.value ==> !p(j))
      && (r.None? ==> forall j :: lo <= j <= hi ==> !p(j))
    decreases if lo <= hi then hi - lo + 1 else 0
  {
    if lo <= hi && !p(lo) {
      LeftmostSpec(p, lo + 1, hi);
    }
  }

  /** `t` occurs in `s` starting at index `i`. */
  predicate SubAt(s: string, t: string, i: nat) {
    i + |t| <= |s| && s[i..i + |t|] == t
  }

  /** `re.search` with a pattern that is the literal `t`: the start of the
      leftmost occurrence of `t` in `s`. */
  function FindSub(s: string, t: string): Option<nat> {
    Leftmost((i: nat) => SubAt(s, t, i), 0, |s|)
  }

  /** `FindSub` returns the leftmost occurrence, and `None` exactly when there
      is none. */
  lemma FindSubSpec(s: string, t: string)
    ensures var r := FindSub(s, t);
      (r.Some? ==> SubAt(s, t, r.value) && forall j :: 0 <= j < r.value ==> !SubAt(s, t, j))
      && (r.None? <==> forall j :: 0 <= j ==> !SubAt(s, t, j))
  {
    var p := (i: nat) => SubAt(s, t, i);
    assert forall j: nat :: p(j) == SubAt(s, t, j);
    LeftmostSpec(p, 0, |s|);
  }

  /** Python's `t in s` for strings. */
  predicate Contains(s: string, t: string) {
    exists j | 0 <= j <= |s| :: SubAt(s, t, j)
  }

  /** `in` holds exactly when the search for the literal finds something. */
  lemma ContainsFindSub(s: string, t: string)
    ensures Contains(s, t) <==> FindSub(s, t).Some?
  {
    FindSubSpec(s, t);
  }

  /** Python's `s.startswith(p, 0, end)`: `s[0:end]` begins with `p`. */
  predicate StartsWithBefore(s: string, p: string, end: nat) {
    |p| <= end && p <= s
  }

  /** `s.lstrip()`. */
  function StripLeft(s: string): string {
    if s != [] && IsSpace(s[0]) then StripLeft(s[1..]) else s
  }

  /** `s.rstrip()`. */
  function StripRight(s: string): string {
    if s != [] && IsSpace(s[|s| - 1]) then StripRight(s[..|s| - 1]) else s
  }

  /** `s.strip()`. */
  function Strip(s: string): string {
    StripRight(StripLeft(s))
  }

  /** `lstrip` removes a run of whitespace from the front and stops at the
      first character that is not whitespace. */
  lemma {:induction false} StripLeftSpec(s: string)
    ensures var r := StripLeft(s);
      |r| <= |s| && r == s[|s| - |r|..]
      && (forall i :: 0 <= i < |s| - |r| ==> IsSpace(s[i]))
      && (r != [] ==> !IsSpace(r[0]))
  {
    if s != [] && IsSpace(s[0]) {
      var t := s[1..];
      StripLeftSpec(t);
      var r := StripLeft(t);
      assert t[|t| - |r|..] == s[|s| - |r|..];
      forall i | 0 <= i < |s| - |r|
        ensures IsSpace(s[i])
      {
        if i > 0 {
          assert s[i] == t[i - 1];
        }
      }
    }
  }

  /** `rstrip` removes a run of whitespace from the end and stops at the
      last character that is not whitespace. */
  lemma {:induction false} StripRightSpec(s: string)
    ensures var r := StripRight(s);
      r <= s
      && (forall i :: |r| <= i < |s| ==> IsSpace(s[i]))
      && (r != [] ==> !IsSpace(r[|r| - 1]))
  {
    if s != [] && IsSpace(s[|s| - 1]) {
      StripRightSpec(s[..|s| - 1]);
    }
  }

  /** `strip` leaves nothing exactly when the string is all whitespace, and
      otherwise what it leaves begins and ends with a character that is not. */
  lemma StripSpec(s: string)
    ensures Strip(s) == [] <==> forall i :: 0 <= i < |s| ==> IsSpace(s[i])
    ensures Strip(s) != [] ==> !IsSpace(Strip(s)[0]) && !IsSpace(Strip(s)[|Strip(s)| - 1])
  {
    StripLeftSpec(s);
    var l := StripLeft(s);
    StripRightSpec(l);
    var r := StripRight(l);
    if r == [] {
      assert l == [];
    } else {
      assert r[0] == l[0];
    }
  }

  lemma SliceOfSlice(s: string, a: nat, b: nat, i: nat, j: nat)
    requires a <= b <= |s| && i <= j <= b - a
    ensures s[a..b][i..j] == s[a + i..a + j]
  {
    assert forall k :: 0 <= k < j - i ==> s[a..b][i..j][k] == s[a + i + k];
  }

  /** What `strip` keeps is a slice of `s` with only whitespace around it. */
  lemma StripSlice(s: string) returns (a: nat)
    ensures var r := Strip(s);
      a + |r| <= |s| && r == s[a..a + |r|]
      && (forall i :: 0 <= i < a ==> IsSpace(s[i]))
      && (forall i :: a + |r| <= i < |s| ==> IsSpace(s[i]))
  {
    StripLeftSpec(s);
    var l := StripLeft(s);
    StripRightSpec(l);
    a := |s| - |l|;
    forall i | a + |Strip(s)| <= i < |s|
      ensures IsSpace(s[i])
    {
      assert s[i] == l[i - a];
    }
  }

  /** Stripping the ends of `s` does not change whether it holds a piece of
      text without whitespace: such a piece lies inside what `strip` keeps. */
  lemma ContainsStripped(s: string, t: string)
    requires |t| > 0 && forall i :: 0 <= i < |t| ==> !IsSpace(t[i])
    ensures Contains(Strip(s), t) <==> Contains(s, t)
  {
    var a := StripSlice(s);
    if Contains(Strip(s), t) {
      StrippedInside(s, t, a);
    }
    if Contains(s, t) {
      InsideStripped(s, t, a);
    }
  }

  lemma StrippedInside(s: string, t: string, a: nat)
    requires a + |Strip(s)| <= |s| && Strip(s) == s[a..a + |Strip(s)|]
    requires Contains(Strip(s), t)
    ensures Contains(s, t)
  {
    var r := Strip(s);
    var j :| 0 <= j <= |r| && SubAt(r, t, j);
    SliceOfSlice(s, a, a + |r|, j, j + |t|);
    assert SubAt(s, t, a + j);
  }

  lemma InsideStripped(s: string, t: string, a: nat)
    requires |t| > 0 && forall i :: 0 <= i < |t| ==> !IsSpace(t[i])
    requires var r := Strip(s);
      a + |r| <= |s| && r == s[a..a + |r|]
      && (forall i :: 0 <= i < a ==> IsSpace(s[i]))
      && (forall i :: a + |r| <= i < |s| ==> IsSpace(s[i]))
    requires Contains(s, t)
    ensures Contains(Strip(s), t)
  {
    var r := Strip(s);
    var j :| 0 <= j <= |s| && SubAt(s, t, j);
    var q := j + |t| - 1;
    assert s[j] == t[0] && s[q] == t[|t| - 1];
    assert a <= j <= q < a + |r|;
    SliceOfSlice(s, a, a + |r|, j - a, j - a + |t|);
    assert SubAt(r, t, j - a);
  }

  /** `s.replace(a, b)` for one-character `a` and `b`. */
  function ReplaceChar(s: string, a: char, b: char): string {
    seq(|s|, i requires 0 <= i < |s| => if s[i] == a then b else s[i])
  }
}
