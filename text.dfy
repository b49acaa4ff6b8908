/**
 * The three string primitives the job-intake form relies on, over `seq<char>`:
 * `String.prototype.trim`, `String.prototype.toLowerCase` and
 * `String.prototype.includes`. Whitespace and case are ASCII approximations
 * of the Unicode rules JavaScript applies.
 */
module Text {

  /** The whitespace characters `trim` removes: space, tab, LF, CR, VT and FF. */
  predicate IsSpace(c: char) {
    c == ' ' || c == '\t' || c == '\n' || c == '\r' || c == '\U{000B}' || c == '\U{000C}'
  }

  predicate AllSpace(s: string) {
    forall i :: 0 <= i < |s| ==> IsSpace(s[i])
  }

  /** Drops leading whitespace: the result is a suffix of `s` that does not start with whitespace. */
  function TrimStart(s: string): (r: string)
    ensures |r| <= |s| && r == s[|s| - |r|..]
    ensures r == [] || !IsSpace(r[0])
  {
    if s != [] && IsSpace(s[0]) then TrimStart(s[1..]) else s
  }

  lemma {:induction false} TrimStartDropsSpace(s: string)
    ensures AllSpace(s[..|s| - |TrimStart(s)|])
  {
    if s != [] && IsSpace(s[0]) {
      TrimStartDropsSpace(s[1..]);
      var k := |s| - |TrimStart(s)|;
      assert s[..k] == [s[0]] + s[1..][..k - 1];
    }
  }

  /** Drops trailing whitespace: the result is a prefix of `s` that does not end with whitespace. */
  function TrimEnd(s: string): (r: string)
    ensures |r| <= |s| && r == s[..|r|]
    ensures r == [] || !IsSpace(r[|r| - 1])
  {
    if s != [] && IsSpace(s[|s| - 1]) then TrimEnd(s[..|s| - 1]) else s
  }

  lemma {:induction false} TrimEndDropsSpace(s: string)
    ensures AllSpace(s[|TrimEnd(s)|..])
  {
    if s != [] && IsSpace(s[|s| - 1]) {
      var init := s[..|s| - 1];
      TrimEndDropsSpace(init);
      var k := |TrimEnd(s)|;
      assert s[k..] == init[k..] + [s[|s| - 1]];
    }
  }

  /** `s.trim()`: neither end of the result is whitespace. */
  function Trim(s: string): (r: string)
    ensures |r| <= |s|
    ensures r == [] || (!IsSpace(r[0]) && !IsSpace(r[|r| - 1]))
  {
    TrimEnd(TrimStart(s))
  }

  /** A prefix `r` of a suffix `t` of `s`, with whitespace around it, splits `s` into three parts. */
  lemma SplitAroundSpace(s: string, t: string, r: string)
    requires |t| <= |s| && t == s[|s| - |t|..] && AllSpace(s[..|s| - |t|])
    requires |r| <= |t| && r == t[..|r|] && AllSpace(t[|r|..])
    ensures exists a, b :: s == a + r + b && AllSpace(a) && AllSpace(b)
  {
    var a, b := s[..|s| - |t|], t[|r|..];
    assert s == a + (r + b);
  }

  /** Trimming removes whitespace from both ends and nothing else. */
  lemma {:induction false} TrimDropsSpace(s: string)
    ensures exists a, b :: s == a + Trim(s) + b && AllSpace(a) && AllSpace(b)
  {
    var t := TrimStart(s);
    TrimStartDropsSpace(s);
    TrimEndDropsSpace(t);
    SplitAroundSpace(s, t, TrimEnd(t));
  }

  /**
   * `!s.trim()`: the trimmed string is the empty, falsy string. The empty
   * string is blank, and a string starting with a visible character is not.
   */
  predicate IsBlank(s: string) {
    Trim(s) == []
  }

  lemma {:induction false} TrimEndEmpty(s: string)
    ensures TrimEnd(s) == [] <==> AllSpace(s)
  {
    if s != [] && IsSpace(s[|s| - 1]) {
      var init := s[..|s| - 1];
      TrimEndEmpty(init);
      if AllSpace(init) {
        assert s == init + [s[|s| - 1]];
      } else {
        var i :| 0 <= i < |init| && !IsSpace(init[i]);
        assert s[i] == init[i];
      }
    } else if s != [] {
      assert !IsSpace(s[|s| - 1]);
    }
  }

  /** A string is blank exactly when every one of its characters is whitespace. */
  lemma {:induction false} BlankIffAllSpace(s: string)
    ensures IsBlank(s) <==> AllSpace(s)
  {
    var t := TrimStart(s);
    TrimEndEmpty(t);
    TrimStartDropsSpace(s);
    var k := |s| - |t|;
    assert s == s[..k] + t;
  }

  /** Upper-case ASCII letters become the same letter in lower case; every other character is kept. */
  function LowerChar(c: char): (d: char)
    ensures !('A' <= d <= 'Z')
    ensures 'A' <= c <= 'Z' ==> 'a' <= d <= 'z' && d as int - 'a' as int == c as int - 'A' as int
    ensures !('A' <= c <= 'Z') ==> d == c
  {
    if 'A' <= c <= 'Z' then (c as int + 32) as char else c
  }

  /** `s.toLowerCase()`, for ASCII letters. */
  function ToLower(s: string): (r: string)
    ensures |r| == |s|
    ensures forall i :: 0 <= i < |r| ==> !('A' <= r[i] <= 'Z')
    ensures forall i :: 0 <= i < |s| ==> r[i] == LowerChar(s[i])
  {
    seq(|s|, i requires 0 <= i < |s| => LowerChar(s[i]))
  }

  lemma ToLowerIdempotent(s: string)
    ensures ToLower(ToLower(s)) == ToLower(s)
  {
  }

  /** `c` and `d` are the same character, or the same ASCII letter in the two cases. */
  predicate CaseVariant(c: char, d: char) {
    || c == d
    || ('A' <= c <= 'Z' && 'a' <= d <= 'z' && d as int - 'a' as int == c as int - 'A' as int)
    || ('A' <= d <= 'Z' && 'a' <= c <= 'z' && c as int - 'a' as int == d as int - 'A' as int)
  }

  /** `a` and `b` differ at most in the case of their ASCII letters. */
  predicate SameIgnoringCase(a: string, b: string) {
    |a| == |b| && forall i :: 0 <= i < |a| ==> CaseVariant(a[i], b[i])
  }

  /** Strings that differ only in letter case lower-case to the same string. */
  lemma ToLowerIgnoresCase(a: string, b: string)
    requires SameIgnoringCase(a, b)
    ensures ToLower(a) == ToLower(b)
  {
    forall i | 0 <= i < |a|
      ensures LowerChar(a[i]) == LowerChar(b[i])
    {
      assert CaseVariant(a[i], b[i]);
    }
  }

  /** `t` occurs in `s` starting at index `i`. */
  predicate OccursAt(s: string, t: string, i: int) {
    0 <= i && i + |t| <= |s| && s[i..i + |t|] == t
  }

  /** `s.includes(t)`: try every start position from the left. */
  function Includes(s: string, t: string): bool
    ensures Includes(s, t) ==> |t| <= |s|
    ensures t == [] ==> Includes(s, t)
    decreases |s|
  {
    |t| <= |s| && (t == s[..|t|] || Includes(s[1..], t))
  }

  /** Occurrences in the tail of `s` are the occurrences in `s` one position further on. */
  lemma OccursInTail(s: string, t: string, i: int)
    requires s != [] && 0 <= i
    ensures OccursAt(s[1..], t, i) <==> OccursAt(s, t, i + 1)
  {
  }

  /** `Includes` is substring search: it holds exactly when `t` occurs somewhere in `s`. */
  lemma {:induction false} IncludesIff(s: string, t: string)
    ensures Includes(s, t) <==> exists i :: OccursAt(s, t, i)
    decreases |s|
  {
    if |t| > |s| {
      assert forall i :: !OccursAt(s, t, i);
    } else if t == s[..|t|] {
      assert OccursAt(s, t, 0);
    } else {
      var rest := s[1..];
      IncludesIff(rest, t);
      if Includes(rest, t) {
        var i :| OccursAt(rest, t, i);
        OccursInTail(s, t, i);
      } else {
        forall i | OccursAt(s, t, i)
          ensures false
        {
          if i > 0 {
            OccursInTail(s, t, i - 1);
          }
        }
      }
    }
  }
}
