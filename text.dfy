/** The string operations the search rules use: `String.prototype.trim`,
    `toLowerCase` (restricted to ASCII letters), `includes`, and the
    capitalisation that relates a category value to its label. */
module Text {

  /** The code points `trim` removes: ECMAScript's WhiteSpace (tab, vertical tab,
      form feed, no-break space, byte-order mark and every space separator)
      and LineTerminator (line feed, carriage return, line and paragraph separator). */
  predicate IsSpace(c: char)
  {
    Listed(c, SpaceChars)
  }

  /** `c` is one of the characters of `t`. */
  predicate Listed(c: char, t: string)
    decreases |t|
  {
    t != [] && (t[0] == c || Listed(c, t[1..]))
  }

  const SpaceChars: string :=
    "\t\n\U{B}\U{C}\r \U{A0}\U{1680}"
    + "\U{2000}\U{2001}\U{2002}\U{2003}\U{2004}\U{2005}\U{2006}\U{2007}\U{2008}\U{2009}\U{200A}"
    + "\U{2028}\U{2029}\U{202F}\U{205F}\U{3000}\U{FEFF}"

  /** Every character of `s` from position `lo` up to (not including) `hi` is white space. */
  ghost predicate SpaceBetween(s: string, lo: int, hi: int)
  {
    forall k :: lo <= k < hi && 0 <= k < |s| ==> IsSpace(s[k])
  }

  /** The first position at or after `i` that does not hold white space (or `|s|`). */
  function SkipSpace(s: string, i: nat): (k: nat)
    requires i <= |s|
    ensures i <= k <= |s|
    ensures SpaceBetween(s, i, k)
    ensures k == |s| || !IsSpace(s[k])
    decreases |s| - i
  {
    if i < |s| && IsSpace(s[i]) then SkipSpace(s, i + 1) else i
  }

  /** The end of `s[lo..j]` once its trailing white space is cut away. */
  function SkipSpaceBack(s: string, lo: nat, j: nat): (k: nat)
    requires lo <= j <= |s|
    ensures lo <= k <= j
    ensures SpaceBetween(s, k, j)
    ensures k == lo || !IsSpace(s[k - 1])
    decreases j
  {
    if lo < j && IsSpace(s[j - 1]) then SkipSpaceBack(s, lo, j - 1) else j
  }

  /** `s.trim()`: `s` without its leading and trailing white space. The result is the
      block `s[i..j]` of `s`, everything cut away is white space, and the result
      neither starts nor ends with white space. */
  function Trim(s: string): (r: string)
    ensures exists i, j :: 0 <= i <= j <= |s| && r == s[i..j] && SpaceBetween(s, 0, i) && SpaceBetween(s, j, |s|)
    ensures r == [] || (!IsSpace(r[0]) && !IsSpace(r[|r| - 1]))
  {
    var i := SkipSpace(s, 0);
    var j := SkipSpaceBack(s, i, |s|);
    assert s[i..j] == [] || (s[i..j][0] == s[i] && s[i..j][j - i - 1] == s[j - 1]);
    s[i..j]
  }

  /** `s.trim()` is empty exactly when `s` consists of white space only. */
  lemma TrimBlankIff(s: string)
    ensures Trim(s) == [] <==> SpaceBetween(s, 0, |s|)
  {
    var i := SkipSpace(s, 0);
    var j := SkipSpaceBack(s, i, |s|);
    assert Trim(s) == s[i..j];
  }

  function LowerChar(c: char): char
  {
    if 'A' <= c <= 'Z' then (c as int - 'A' as int + 'a' as int) as char else c
  }

  function UpperChar(c: char): char
  {
    if 'a' <= c <= 'z' then (c as int - 'a' as int + 'A' as int) as char else c
  }

  /** `s.toLowerCase()`, for ASCII letters. */
  function Lower(s: string): string
  {
    seq(|s|, i requires 0 <= i < |s| => LowerChar(s[i]))
  }

  /** `s` with its first character in upper case. */
  function Capitalized(s: string): string
  {
    if s == [] then [] else [UpperChar(s[0])] + s[1..]
  }

  /** `q` occurs in `s` starting at position `i`. */
  ghost predicate OccursAt(s: string, q: string, i: int)
  {
    0 <= i && i + |q| <= |s| && s[i..i + |q|] == q
  }

  /** `s.includes(q)`: `q` is a prefix of `s` or of one of its suffixes. */
  predicate Contains(s: string, q: string)
    decreases |s|
  {
    q <= s || (s != [] && Contains(s[1..], q))
  }

  /** `includes` finds exactly the positions at which the query occurs. */
  lemma {:induction false} ContainsIffOccurs(s: string, q: string)
    ensures Contains(s, q) <==> exists i :: OccursAt(s, q, i)
    decreases |s|
  {
    if q <= s {
      assert s[0..|q|] == q;
      assert OccursAt(s, q, 0);
    } else if s == [] {
      assert forall i :: OccursAt(s, q, i) ==> q == [];
    } else {
      ContainsIffOccurs(s[1..], q);
      if exists i :: OccursAt(s, q, i) {
        var i :| OccursAt(s, q, i);
        assert i != 0 by {
          assert OccursAt(s, q, 0) ==> q <= s;
        }
        OccursShift(s, q, i - 1);
      }
      if exists i :: OccursAt(s[1..], q, i) {
        var i :| OccursAt(s[1..], q, i);
        OccursShift(s, q, i);
      }
    }
  }

  lemma OccursShift(s: string, q: string, i: nat)
    requires s != []
    ensures OccursAt(s, q, i + 1) <==> OccursAt(s[1..], q, i)
  {
    if i + 1 + |q| <= |s| {
      assert s[1..][i..i + |q|] == s[i + 1..i + 1 + |q|];
    }
  }

  lemma {:induction false} ListedIsMember(c: char, t: string)
    ensures Listed(c, t) ==> c in t
    decreases |t|
  {
    if t != [] && t[0] != c {
      ListedIsMember(c, t[1..]);
    }
  }

  lemma LowerCharKeepsSpace(c: char)
    ensures IsSpace(LowerChar(c)) == IsSpace(c)
  {
    ListedIsMember(c, SpaceChars);
    ListedIsMember(LowerChar(c), SpaceChars);
    assert forall k :: 0 <= k < |SpaceChars| ==> SpaceChars[k] <= ' ' || '\U{A0}' <= SpaceChars[k];
  }

  lemma {:induction false} SkipSpaceLower(s: string, i: nat)
    requires i <= |s|
    ensures SkipSpace(Lower(s), i) == SkipSpace(s, i)
    decreases |s| - i
  {
    if i < |s| {
      LowerCharKeepsSpace(s[i]);
      SkipSpaceLower(s, i + 1);
    }
  }

  lemma {:induction false} SkipSpaceBackLower(s: string, lo: nat, j: nat)
    requires lo <= j <= |s|
    ensures SkipSpaceBack(Lower(s), lo, j) == SkipSpaceBack(s, lo, j)
    decreases j
  {
    if lo < j {
      LowerCharKeepsSpace(s[j - 1]);
      SkipSpaceBackLower(s, lo, j - 1);
    }
  }

  /** Lower-casing and trimming commute, so `q.toLowerCase().trim()` is blank exactly
      when `q.trim()` is. */
  lemma TrimLowerCommute(s: string)
    ensures Trim(Lower(s)) == Lower(Trim(s))
    ensures Trim(Lower(s)) == [] <==> Trim(s) == []
  {
    var i := SkipSpace(s, 0);
    var j := SkipSpaceBack(s, i, |s|);
    SkipSpaceLower(s, 0);
    SkipSpaceBackLower(s, i, |s|);
    TrimBounds(s);
    TrimBounds(Lower(s));
    LowerSlice(s, i, j);
  }

  lemma TrimBounds(s: string)
    ensures var i := SkipSpace(s, 0); Trim(s) == s[i..SkipSpaceBack(s, i, |s|)]
  {
  }

  lemma LowerSlice(s: string, i: nat, j: nat)
    requires i <= j <= |s|
    ensures Lower(s)[i..j] == Lower(s[i..j])
  {
  }
}
