/** The JavaScript string operations the core relies on: `includes`,
    `trim`, `split` and `pop`, on strings as sequences of characters. */
module Text {

  predicate StartsWith(s: string, t: string) {
    |t| <= |s| && s[..|t|] == t
  }

  /** `s.includes(t)`: some window of s spells t (the empty string is
      included in every string). */
  predicate Contains(s: string, t: string)
    decreases |s|
  {
    StartsWith(s, t) || (|s| > 0 && Contains(s[1..], t))
  }

  /** t occurs in s starting at position i. */
  predicate OccursAt(s: string, t: string, i: nat) {
    i + |t| <= |s| && s[i..i + |t|] == t
  }

  /** Contains agrees with the positional reading of `includes`. */
  lemma {:induction false} ContainsIffOccurs(s: string, t: string)
    ensures Contains(s, t) <==> exists i: nat :: OccursAt(s, t, i)
    decreases |s|
  {
    if StartsWith(s, t) {
      assert OccursAt(s, t, 0);
    } else if |s| == 0 {
      assert forall i: nat :: !OccursAt(s, t, i);
    } else {
      ContainsIffOccurs(s[1..], t);
      forall i: nat | i > 0
        ensures OccursAt(s, t, i) <==> OccursAt(s[1..], t, i - 1)
      {
        OccursShift(s, t, i);
      }
      if Contains(s[1..], t) {
        var i: nat :| OccursAt(s[1..], t, i);
        assert OccursAt(s, t, i + 1);
      }
    }
  }

  /** Past position 0, t occurs in s exactly where it occurs in s[1..], one
      position earlier. */
  lemma OccursShift(s: string, t: string, i: nat)
    requires 0 < |s| && 0 < i
    ensures OccursAt(s, t, i) <==> OccursAt(s[1..], t, i - 1)
  {
    if i + |t| <= |s| {
      SliceOfTail(s, i, |t|);
    }
  }

  /** A window of s past its first character is the same window of s[1..],
      one position earlier. */
  lemma SliceOfTail(s: string, i: nat, n: nat)
    requires 0 < i && i + n <= |s|
    ensures s[i..i + n] == s[1..][i - 1..i - 1 + n]
  {
    var a, b := s[i..i + n], s[1..][i - 1..i - 1 + n];
    forall k | 0 <= k < n
      ensures a[k] == b[k]
    {
      assert a[k] == s[i + k];
    }
  }

  /** A window found at a known position is what `includes` finds. */
  lemma OccursAtContains(s: string, t: string, i: nat)
    requires OccursAt(s, t, i)
    ensures Contains(s, t)
  {
    ContainsIffOccurs(s, t);
  }

  /** A string placed between two others is included in the result. */
  lemma ContainsMiddle(a: string, t: string, b: string)
    ensures Contains(a + t + b, t)
  {
    assert (a + t + b)[|a|..|a| + |t|] == t;
    OccursAtContains(a + t + b, t, |a|);
  }

  /** A string in which the first character of t never appears does not
      contain t. */
  lemma {:induction false} NotContainsWithoutFirst(s: string, t: string)
    requires |t| > 0 && t[0] !in s
    ensures !Contains(s, t)
    decreases |s|
  {
    if |s| > 0 {
      assert s[0] != t[0];
      NotContainsWithoutFirst(s[1..], t);
    }
  }

  /** The characters `String.prototype.trim` removes: ECMAScript WhiteSpace
      and LineTerminator code points. */
  predicate IsJsSpace(c: char) {
    c == '\t' || c == '\n' || c == '\U{B}' || c == '\U{C}' || c == '\r' || c == ' '
    || c == '\U{A0}' || c == '\U{1680}' || ('\U{2000}' <= c <= '\U{200A}')
    || c == '\U{2028}' || c == '\U{2029}' || c == '\U{202F}' || c == '\U{205F}'
    || c == '\U{3000}' || c == '\U{FEFF}'
  }

  predicate AllSpace(s: string) {
    forall i :: 0 <= i < |s| ==> IsJsSpace(s[i])
  }

  /** Drops the leading run of whitespace. */
  function TrimStart(s: string): (r: string)
    ensures |r| <= |s| && r == s[|s| - |r|..]
    ensures AllSpace(s[..|s| - |r|])
    ensures |r| > 0 ==> !IsJsSpace(r[0])
    decreases |s|
  {
    if |s| > 0 && IsJsSpace(s[0]) then
      var r := TrimStart(s[1..]);
      TrimStartStep(s, r);
      r
    else s
  }

  /** TrimStart's contract for s, from the same contract for s[1..], when
      s starts with white space. */
  lemma TrimStartStep(s: string, r: string)
    requires 0 < |s| && IsJsSpace(s[0])
    requires |r| <= |s[1..]| && r == s[1..][|s[1..]| - |r|..]
    requires AllSpace(s[1..][..|s[1..]| - |r|])
    ensures |r| <= |s| && r == s[|s| - |r|..]
    ensures AllSpace(s[..|s| - |r|])
  {
    SuffixOfTail(s, |r|);
    SpacePrefixCons(s, |r|);
  }

  /** A white-space character in front of an all-space prefix of s[1..]
      makes the matching prefix of s all space. */
  lemma SpacePrefixCons(s: string, m: nat)
    requires 0 < |s| && m <= |s| - 1 && IsJsSpace(s[0])
    requires AllSpace(s[1..][..|s[1..]| - m])
    ensures AllSpace(s[..|s| - m])
  {
    var p, q := s[..|s| - m], s[1..][..|s[1..]| - m];
    forall i | 0 <= i < |p|
      ensures IsJsSpace(p[i])
    {
      if i > 0 {
        assert p[i] == q[i - 1];
      }
    }
  }

  /** Drops the trailing run of whitespace. */
  function TrimEnd(s: string): (r: string)
    ensures |r| <= |s| && r == s[..|r|]
    ensures AllSpace(s[|r|..])
    ensures |r| > 0 ==> !IsJsSpace(r[|r| - 1])
    decreases |s|
  {
    if |s| > 0 && IsJsSpace(s[|s| - 1]) then
      var r := TrimEnd(s[..|s| - 1]);
      assert s[|r|..] == s[..|s| - 1][|r|..] + [s[|s| - 1]];
      r
    else s
  }

  /** `s.trim()`. */
  function Trim(s: string): (r: string)
    ensures exists k: nat :: OccursAt(s, r, k) && AllSpace(s[..k]) && AllSpace(s[k + |r|..])
    ensures |r| > 0 ==> !IsJsSpace(r[0]) && !IsJsSpace(r[|r| - 1])
    ensures r == "" <==> AllSpace(s)
  {
    var a := TrimStart(s);
    var r := TrimEnd(a);
    TrimWindow(s, a, r);
    r
  }

  /** The window Trim keeps, with whitespace on both sides of it. */
  lemma TrimWindow(s: string, a: string, r: string)
    requires |a| <= |s| && a == s[|s| - |a|..] && AllSpace(s[..|s| - |a|])
    requires |a| > 0 ==> !IsJsSpace(a[0])
    requires |r| <= |a| && r == a[..|r|] && AllSpace(a[|r|..])
    ensures exists k: nat :: OccursAt(s, r, k) && AllSpace(s[..k]) && AllSpace(s[k + |r|..])
    ensures |r| > 0 ==> !IsJsSpace(r[0])
    ensures r == "" <==> AllSpace(s)
  {
    var k := |s| - |a|;
    assert a == s[k..];
    assert r == a[..|r|];
    assert s[k..k + |r|] == r;
    assert s[k + |r|..] == a[|r|..];
    assert OccursAt(s, r, k) && AllSpace(s[..k]) && AllSpace(s[k + |r|..]);
    if r == "" {
      assert AllSpace(a);
      AllSpaceConcat(s[..k], a);
      assert s == s[..k] + a;
    }
  }

  lemma AllSpaceConcat(x: string, y: string)
    requires AllSpace(x) && AllSpace(y)
    ensures AllSpace(x + y)
  {
    forall i | 0 <= i < |x + y| ensures IsJsSpace((x + y)[i]) {
      if i < |x| { assert (x + y)[i] == x[i]; } else { assert (x + y)[i] == y[i - |x|]; }
    }
  }

  /** Trimming twice is trimming once. */
  lemma TrimIdempotent(s: string)
    ensures Trim(Trim(s)) == Trim(s)
  {
    var r := Trim(s);
    if |r| > 0 {
      assert TrimStart(r) == r;
      assert TrimEnd(r) == r;
    }
  }

  /** A string that neither starts nor ends with whitespace is its own trim. */
  lemma TrimUnchanged(s: string)
    requires |s| > 0 ==> !IsJsSpace(s[0]) && !IsJsSpace(s[|s| - 1])
    ensures Trim(s) == s
  {
    assert TrimStart(s) == s;
    assert TrimEnd(s) == s;
  }

  /** `s.split(sep)`: the pieces between separators, always at least one. */
  function Split(s: string, sep: char): (parts: seq<string>)
    ensures |parts| >= 1
    ensures forall i :: 0 <= i < |parts| ==> sep !in parts[i]
    ensures |parts| == 1 <==> sep !in s
    ensures |parts| == 1 ==> parts[0] == s
    decreases |s|
  {
    if |s| == 0 then [""]
    else
      var rest := Split(s[1..], sep);
      if s[0] == sep then [""] + rest
      else [[s[0]] + rest[0]] + rest[1..]
  }

  /** The last piece of a split is the suffix of s after its last
      separator, or all of s. */
  lemma {:induction false} SplitLast(s: string, sep: char)
    ensures var parts := Split(s, sep);
            var last := parts[|parts| - 1];
            |last| <= |s| && last == s[|s| - |last|..]
            && (|last| < |s| ==> s[|s| - |last| - 1] == sep)
    decreases |s|
  {
    if |s| > 0 {
      SplitLast(s[1..], sep);
      SplitLastStep(s, sep, Split(s[1..], sep), Split(s, sep));
    }
  }

  /** The inductive step of SplitLast, with the split of the tail given. */
  lemma SplitLastStep(s: string, sep: char, rest: seq<string>, parts: seq<string>)
    requires |s| > 0 && |rest| >= 1
    requires sep !in rest[|rest| - 1]
    requires |rest| == 1 <==> sep !in s[1..]
    requires |rest| == 1 ==> rest[0] == s[1..]
    requires var lastR := rest[|rest| - 1];
             |lastR| <= |s[1..]| && lastR == s[1..][|s[1..]| - |lastR|..]
             && (|lastR| < |s[1..]| ==> s[1..][|s[1..]| - |lastR| - 1] == sep)
    requires parts == if s[0] == sep then [""] + rest else [[s[0]] + rest[0]] + rest[1..]
    ensures var last := parts[|parts| - 1];
            |last| <= |s| && last == s[|s| - |last|..]
            && (|last| < |s| ==> s[|s| - |last| - 1] == sep)
  {
    var lastR := rest[|rest| - 1];
    SuffixOfTail(s, |lastR|);
    if s[0] == sep {
      assert parts[|parts| - 1] == lastR;
    } else if |rest| > 1 {
      assert parts[|parts| - 1] == lastR;
      assert |lastR| < |s[1..]|;
    } else {
      assert parts == [[s[0]] + s[1..]];
      assert s == [s[0]] + s[1..];
    }
  }

  /** A suffix of s[1..] is the suffix of s of the same length, and so is
      the character before it. */
  lemma SuffixOfTail(s: string, m: nat)
    requires 0 < |s| && m <= |s| - 1
    ensures s[1..][|s| - 1 - m..] == s[|s| - m..]
    ensures m < |s| - 1 ==> s[1..][|s| - 1 - m - 1] == s[|s| - m - 1]
  {
  }

  /** `parts.join(sep)`. */
  function Join(parts: seq<string>, sep: char): string
    requires |parts| >= 1
    decreases |parts|
  {
    if |parts| == 1 then parts[0] else parts[0] + [sep] + Join(parts[1..], sep)
  }

  /** Joining the pieces with the separator gives back the original string. */
  lemma {:induction false} JoinSplit(s: string, sep: char)
    ensures Join(Split(s, sep), sep) == s
    decreases |s|
  {
    if |s| > 0 {
      JoinSplit(s[1..], sep);
      var rest := Split(s[1..], sep);
      JoinCons(s[0], sep, rest, s[1..]);
    }
  }

  /** One step of JoinSplit, stated on the pieces alone: prepending a
      character to the first piece, or a new empty piece when the character
      is the separator, prepends that character to the joined string. */
  lemma JoinCons(c: char, sep: char, rest: seq<string>, tail: string)
    requires |rest| >= 1 && Join(rest, sep) == tail
    ensures c == sep ==> Join([""] + rest, sep) == [c] + tail
    ensures c != sep ==> Join([[c] + rest[0]] + rest[1..], sep) == [c] + tail
  {
    assert ([""] + rest)[1..] == rest;
    var parts := [[c] + rest[0]] + rest[1..];
    if |rest| > 1 {
      assert parts[1..] == rest[1..];
      assert Join(parts, sep) == [c] + (rest[0] + [sep] + Join(rest[1..], sep));
    }
  }

  /** `s.split(sep).pop()`: the piece after the last separator. */
  function LastPiece(s: string, sep: char): (r: string)
    ensures sep !in r
    ensures |r| <= |s| && r == s[|s| - |r|..]
    ensures sep in s ==> |r| < |s| && s[|s| - |r| - 1] == sep
    ensures sep !in s ==> r == s
  {
    SplitLast(s, sep);
    var parts := Split(s, sep);
    parts[|parts| - 1]
  }

  /** The three facts above pin the result down: any suffix free of the
      separator that starts right after one (or is all of s) is LastPiece. */
  lemma LastPieceUnique(s: string, sep: char, r: string)
    requires sep !in r && |r| <= |s| && r == s[|s| - |r|..]
    requires |r| == |s| || s[|s| - |r| - 1] == sep
    ensures r == LastPiece(s, sep)
  {
  }
}
