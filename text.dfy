/**
 * The string operations of Python that the monitor relies on: `str.strip()`,
 * `str.strip(chars)`, `str.split()[-1]`, the `in` operator on strings and the
 * split of a file into lines at each '\n'.
 */
module Text {

  /** The characters `str.isspace()` accepts, which `strip()` and `split()` remove. */
  const Whitespace: set<char> := {
    '\t', '\n', '\U{0B}', '\U{0C}', '\r', '\U{1C}', '\U{1D}', '\U{1E}', '\U{1F}', ' ',
    '\U{85}', '\U{A0}', '\U{1680}',
    '\U{2000}', '\U{2001}', '\U{2002}', '\U{2003}', '\U{2004}', '\U{2005}',
    '\U{2006}', '\U{2007}', '\U{2008}', '\U{2009}', '\U{200A}',
    '\U{2028}', '\U{2029}', '\U{202F}', '\U{205F}', '\U{3000}'
  }

  // ---------------------------------------------------------------------------
  // strip

  /** Drops the leading characters that belong to `drop`. */
  function TrimLeft(s: string, drop: set<char>): (r: string)
    ensures |r| <= |s|
  {
    if s != [] && s[0] in drop then TrimLeft(s[1..], drop) else s
  }

  /** What TrimLeft keeps is the suffix of `s` after its leading run of `drop` characters. */
  lemma {:induction false} TrimLeftIsSuffix(s: string, drop: set<char>)
    ensures var r := TrimLeft(s, drop);
      && r == s[|s| - |r|..]
      && (forall k :: 0 <= k < |s| - |r| ==> s[k] in drop)
      && (r != [] ==> r[0] !in drop)
  {
    if s != [] && s[0] in drop {
      TrimLeftIsSuffix(s[1..], drop);
    }
  }

  /** Drops the trailing characters that belong to `drop`. */
  function TrimRight(s: string, drop: set<char>): (r: string)
    ensures |r| <= |s|
  {
    if s != [] && s[|s| - 1] in drop then TrimRight(s[..|s| - 1], drop) else s
  }

  /** What TrimRight keeps is the prefix of `s` before its trailing run of `drop` characters. */
  lemma {:induction false} TrimRightIsPrefix(s: string, drop: set<char>)
    ensures var r := TrimRight(s, drop);
      && r == s[..|r|]
      && (forall k :: |r| <= k < |s| ==> s[k] in drop)
      && (r != [] ==> r[|r| - 1] !in drop)
  {
    if s != [] && s[|s| - 1] in drop {
      TrimRightIsPrefix(s[..|s| - 1], drop);
    }
  }

  /** `r` is `s[i..i+|r|]` and everything of `s` around it is in `drop`. */
  ghost predicate StrippedAt(s: string, drop: set<char>, r: string, i: int)
  {
    && 0 <= i <= |s| - |r|
    && r == s[i..i + |r|]
    && (forall k :: 0 <= k < i ==> s[k] in drop)
    && (forall k :: i + |r| <= k < |s| ==> s[k] in drop)
  }

  /**
   * Python's `s.strip(drop)`: what is left of `s` once the characters of
   * `drop` are removed from both ends.
   */
  function Strip(s: string, drop: set<char>): (r: string)
    ensures |r| <= |s|
  {
    TrimRight(TrimLeft(s, drop), drop)
  }

  /**
   * The stripped string is a middle part of `s` that neither starts nor ends
   * with a `drop` character, and only `drop` characters surround it.
   */
  lemma StripIsMiddle(s: string, drop: set<char>)
    ensures var r := Strip(s, drop);
      && (r != [] ==> r[0] !in drop && r[|r| - 1] !in drop)
      && exists i :: StrippedAt(s, drop, r, i)
  {
    var left := TrimLeft(s, drop);
    TrimLeftIsSuffix(s, drop);
    TrimRightIsPrefix(left, drop);
    var r := TrimRight(left, drop);
    if r != [] {
      assert r[0] == left[0];
    }
    assert StrippedAt(s, drop, r, |s| - |left|);
  }

  // ---------------------------------------------------------------------------
  // split()[-1]

  /** The longest suffix of `s` free of whitespace. */
  function TrailingWord(s: string): (r: string)
    ensures |r| <= |s|
  {
    if s == [] || s[|s| - 1] in Whitespace then [] else TrailingWord(s[..|s| - 1]) + [s[|s| - 1]]
  }

  /** TrailingWord is a whitespace-free suffix that cannot be extended to the left. */
  lemma {:induction false} TrailingWordIsMaximal(s: string)
    ensures var r := TrailingWord(s);
      && r == s[|s| - |r|..]
      && (forall k :: 0 <= k < |r| ==> r[k] !in Whitespace)
      && (|r| < |s| ==> s[|s| - |r| - 1] in Whitespace)
  {
    if s != [] && s[|s| - 1] !in Whitespace {
      TrailingWordIsMaximal(s[..|s| - 1]);
    }
  }

  /** `r` is the maximal whitespace-free run `s[i..i+|r|]` with only whitespace after it. */
  ghost predicate LastTokenAt(s: string, r: string, i: int)
  {
    && 0 <= i <= |s| - |r|
    && r == s[i..i + |r|]
    && (i == 0 || s[i - 1] in Whitespace)
    && (forall k :: i + |r| <= k < |s| ==> s[k] in Whitespace)
  }

  /** The last element of Python's `s.split()`, or empty when that list is empty. */
  function LastToken(s: string): (r: string)
    ensures |r| <= |s|
  {
    TrailingWord(TrimRight(s, Whitespace))
  }

  /**
   * The last token is the last maximal run of non-whitespace characters, and
   * it is empty exactly when `s` is all whitespace.
   */
  lemma LastTokenIsLastRun(s: string)
    ensures forall k :: 0 <= k < |LastToken(s)| ==> LastToken(s)[k] !in Whitespace
    ensures LastToken(s) == [] <==> forall k :: 0 <= k < |s| ==> s[k] in Whitespace
    ensures exists i :: LastTokenAt(s, LastToken(s), i)
  {
    var body := TrimRight(s, Whitespace);
    TrimRightIsPrefix(s, Whitespace);
    TrailingWordIsMaximal(body);
    var r := TrailingWord(body);
    assert LastTokenAt(s, r, |body| - |r|);
  }

  // ---------------------------------------------------------------------------
  // the `in` operator

  /** `sub` occurs in `s` starting at index `i`. */
  predicate OccursAt(s: string, sub: string, i: int)
  {
    0 <= i <= |s| && sub <= s[i..]
  }

  /** Python's `sub in s`. */
  function Contains(s: string, sub: string): bool
  {
    if sub <= s then true
    else if s == [] then false
    else Contains(s[1..], sub)
  }

  /** `sub in s` holds exactly when `sub` occurs at some index of `s`. */
  lemma {:induction false} ContainsIff(s: string, sub: string)
    ensures Contains(s, sub) <==> exists i :: OccursAt(s, sub, i)
  {
    if sub <= s {
      assert OccursAt(s, sub, 0);
    } else if s != [] {
      ContainsIff(s[1..], sub);
      forall i | OccursAt(s[1..], sub, i) ensures OccursAt(s, sub, i + 1) {
        assert s[1..][i..] == s[i + 1..];
      }
      forall i | OccursAt(s, sub, i) ensures OccursAt(s[1..], sub, i - 1) {
        assert i != 0;
        assert s[1..][i - 1..] == s[i..];
      }
    }
  }

  /** Every character of `sub` is a character of any string containing it. */
  lemma ContainsChars(s: string, sub: string, k: nat)
    requires Contains(s, sub) && k < |sub|
    ensures sub[k] in s
  {
    ContainsIff(s, sub);
    var i :| OccursAt(s, sub, i);
    assert s[i..][k] == sub[k];
  }

  // ---------------------------------------------------------------------------
  // lines

  /**
   * The pieces of `s` between the '\n' characters (Python's `s.split('\n')`):
   * one more piece than there are newlines, none holding a newline.
   */
  function Lines(s: string): (ls: seq<string>)
    ensures |ls| >= 1
    ensures forall k :: 0 <= k < |ls| ==> '\n' !in ls[k]
  {
    if s == [] then [[]]
    else
      var rest := Lines(s[1..]);
      if s[0] == '\n' then [[]] + rest
      else [[s[0]] + rest[0]] + rest[1..]
  }

  /** Python's `'\n'.join(ls)`. */
  function JoinLines(ls: seq<string>): string
    requires |ls| >= 1
  {
    if |ls| == 1 then ls[0] else ls[0] + "\n" + JoinLines(ls[1..])
  }

  /** Splitting at a newline splits the lines of both sides apart. */
  lemma {:induction false} LinesAtNewline(a: string, b: string)
    ensures Lines(a + "\n" + b) == Lines(a) + Lines(b)
  {
    if a == [] {
      assert a + "\n" + b == "\n" + b;
      assert ("\n" + b)[1..] == b;
    } else {
      assert (a + "\n" + b)[1..] == a[1..] + "\n" + b;
      LinesAtNewline(a[1..], b);
    }
  }

  /** Joining the lines of `s` gives `s` back. */
  lemma {:induction false} JoinLinesOfLines(s: string)
    ensures JoinLines(Lines(s)) == s
  {
    if s != [] {
      JoinLinesOfLines(s[1..]);
      var rest := Lines(s[1..]);
      if s[0] != '\n' && |rest| > 1 {
        assert rest == [rest[0]] + rest[1..];
      }
    }
  }

  /** Splitting a join of newline-free lines gives the lines back. */
  lemma {:induction false} LinesOfJoinLines(ls: seq<string>)
    requires |ls| >= 1
    requires forall k :: 0 <= k < |ls| ==> '\n' !in ls[k]
    ensures Lines(JoinLines(ls)) == ls
  {
    if |ls| == 1 {
      LinesOfLineFree(ls[0]);
    } else {
      LinesOfJoinLines(ls[1..]);
      LinesAtNewline(ls[0], JoinLines(ls[1..]));
      LinesOfLineFree(ls[0]);
    }
  }

  /** A string without a newline is a single line. */
  lemma {:induction false} LinesOfLineFree(s: string)
    requires '\n' !in s
    ensures Lines(s) == [s]
  {
    if s != [] {
      assert '\n' !in s[1..] && s[0] != '\n' by {
        assert forall k :: 0 <= k < |s| - 1 ==> s[1..][k] == s[k + 1];
      }
      LinesOfLineFree(s[1..]);
      assert [s[0]] + s[1..] == s;
    }
  }
}
