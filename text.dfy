/** Option, used wherever the source has a nullable value or a missing file. */
module Optional {
  datatype Option<+T> = None | Some(value: T)
}

/**
 * The JavaScript string primitives the config plugin relies on:
 * `trim`, `indexOf`, `includes`, `split('\n')` and the `\s` character class.
 * Strings are sequences of Unicode scalar values.
 */
module Text {

  /** JavaScript's WhiteSpace and LineTerminator characters: the set both
      `String.prototype.trim` and the regular-expression class `\s` use. */
  predicate IsWhiteSpace(c: char)
  {
    || c == '\t' || c == '\n' || c == '\U{000B}' || c == '\U{000C}' || c == '\r'
    || c == ' ' || c == '\U{00A0}' || c == '\U{1680}'
    || ('\U{2000}' <= c <= '\U{200A}')
    || c == '\U{2028}' || c == '\U{2029}' || c == '\U{202F}' || c == '\U{205F}'
    || c == '\U{3000}' || c == '\U{FEFF}'
  }

  /** Leading white space removed; `TrimStartMeaning` states what is left. */
  function TrimStart(s: string): string
  {
    if s != [] && IsWhiteSpace(s[0]) then TrimStart(s[1..]) else s
  }

  /** What `TrimStart` leaves is a suffix of `s` that does not start with
      white space, and everything cut before it is white space. */
  lemma {:induction false} TrimStartMeaning(s: string)
    ensures var r := TrimStart(s);
      && |r| <= |s| && r == s[|s| - |r|..]
      && (forall i :: 0 <= i < |s| - |r| ==> IsWhiteSpace(s[i]))
      && (r != [] ==> !IsWhiteSpace(r[0]))
  {
    if s != [] && IsWhiteSpace(s[0]) {
      var rest := s[1..];
      TrimStartMeaning(rest);
      var r := TrimStart(rest);
      assert rest[|rest| - |r|..] == s[|s| - |r|..];
      forall i | 0 <= i < |s| - |r|
        ensures IsWhiteSpace(s[i])
      {
        if i > 0 {
          assert s[i] == rest[i - 1];
        }
      }
    }
  }

  /** Trailing white space removed; `TrimEndMeaning` states what is left. */
  function TrimEnd(s: string): string
  {
    if s != [] && IsWhiteSpace(s[|s| - 1]) then TrimEnd(s[..|s| - 1]) else s
  }

  /** What `TrimEnd` leaves is a prefix of `s` that does not end with white
      space, and everything cut after it is white space. */
  lemma {:induction false} TrimEndMeaning(s: string)
    ensures var r := TrimEnd(s);
      && |r| <= |s| && r == s[..|r|]
      && (forall i :: |r| <= i < |s| ==> IsWhiteSpace(s[i]))
      && (r != [] ==> !IsWhiteSpace(r[|r| - 1]))
  {
    if s != [] && IsWhiteSpace(s[|s| - 1]) {
      var init := s[..|s| - 1];
      TrimEndMeaning(init);
      var r := TrimEnd(init);
      assert init[..|r|] == s[..|r|];
      forall i | |r| <= i < |s|
        ensures IsWhiteSpace(s[i])
      {
        if i < |s| - 1 {
          assert s[i] == init[i];
        }
      }
    }
  }

  /** `s.trim()`; `TrimMeaning` states what it gives. */
  function Trim(s: string): string
  {
    TrimEnd(TrimStart(s))
  }

  /** `s.trim()` is the slice of `s` left when white space is cut from both
      ends: only white space surrounds it in `s`, and it neither starts nor
      ends with white space. */
  lemma TrimMeaning(s: string)
    ensures Trim(s) != [] ==> !IsWhiteSpace(Trim(s)[0]) && !IsWhiteSpace(Trim(s)[|Trim(s)| - 1])
    ensures exists a :: Slice(s, Trim(s), a)
  {
    var t := TrimStart(s);
    TrimStartMeaning(s);
    TrimEndMeaning(t);
    assert Slice(s, Trim(s), |s| - |t|);
  }

  /** `r` occurs in `s` at offset `a` and only white space surrounds it. */
  ghost predicate Slice(s: string, r: string, a: int)
  {
    && 0 <= a && a + |r| <= |s| && s[a..a + |r|] == r
    && (forall i :: 0 <= i < a ==> IsWhiteSpace(s[i]))
    && (forall i :: a + |r| <= i < |s| ==> IsWhiteSpace(s[i]))
  }

  /** `s.indexOf(c)`: the first position of `c`, or -1 when it is absent. */
  function IndexOf(s: string, c: char): (r: int)
    ensures r == -1 <==> c !in s
    ensures r != -1 ==> 0 <= r < |s| && s[r] == c && c !in s[..r]
  {
    if s == [] then -1
    else if s[0] == c then 0
    else
      var k := IndexOf(s[1..], c);
      if k == -1 then -1
      else
        assert s[..k + 1] == [s[0]] + s[1..][..k];
        k + 1
  }

  /** `t` occurs in `s` starting at position `i`. */
  predicate OccursAt(s: string, t: string, i: int)
  {
    0 <= i && i + |t| <= |s| && s[i..i + |t|] == t
  }

  /** `s.includes(t)`; `ContainsMeaning` states what it answers. */
  function Contains(s: string, t: string): bool
  {
    if t <= s then true
    else if s == [] then false
    else Contains(s[1..], t)
  }

  /** `s.includes(t)` holds exactly when some position of `s` starts an
      occurrence of `t`. */
  lemma {:induction false} ContainsMeaning(s: string, t: string)
    ensures Contains(s, t) <==> exists i :: OccursAt(s, t, i)
  {
    if t <= s {
      assert OccursAt(s, t, 0);
    } else if s != [] {
      ContainsMeaning(s[1..], t);
      OccurrenceShift(s, t);
    }
  }

  /** When `t` is not a prefix of the non-empty `s`, its occurrences in `s`
      are exactly those in `s[1..]`, one position further on. */
  lemma OccurrenceShift(s: string, t: string)
    requires s != [] && !(t <= s)
    ensures (exists i :: OccursAt(s, t, i)) <==> (exists i :: OccursAt(s[1..], t, i))
  {
    if i :| OccursAt(s[1..], t, i) {
      assert s[i + 1..i + 1 + |t|] == s[1..][i..i + |t|];
      assert OccursAt(s, t, i + 1);
    }
    if i :| OccursAt(s, t, i) {
      assert i != 0;
      assert s[1..][i - 1..i - 1 + |t|] == s[i..i + |t|];
      assert OccursAt(s[1..], t, i - 1);
    }
  }

  /** Appending text on the right keeps every occurrence. */
  lemma ContainsAppend(s: string, u: string, t: string)
    requires Contains(s, t)
    ensures Contains(s + u, t)
  {
    ContainsMeaning(s, t);
    var i :| OccursAt(s, t, i);
    assert (s + u)[i..i + |t|] == s[i..i + |t|];
    assert OccursAt(s + u, t, i);
    ContainsMeaning(s + u, t);
  }

  /** Putting text on the left keeps every occurrence, shifted. */
  lemma ContainsPrepend(u: string, s: string, t: string)
    requires Contains(s, t)
    ensures Contains(u + s, t)
  {
    ContainsMeaning(s, t);
    var i :| OccursAt(s, t, i);
    assert (u + s)[|u| + i..|u| + i + |t|] == s[i..i + |t|];
    assert OccursAt(u + s, t, |u| + i);
    ContainsMeaning(u + s, t);
  }

  /** A string contains itself wherever it is placed. */
  lemma ContainsMiddle(a: string, t: string, b: string)
    ensures Contains(a + t + b, t)
  {
    assert (a + t + b)[|a|..|a| + |t|] == t;
    assert OccursAt(a + t + b, t, |a|);
    ContainsMeaning(a + t + b, t);
  }

  /** What a prefix contains, the whole text contains. */
  lemma PrefixContains(a: string, s: string, t: string)
    requires |a| <= |s| && s[..|a|] == a && Contains(a, t)
    ensures Contains(s, t)
  {
    assert s == a + s[|a|..];
    ContainsAppend(a, s[|a|..], t);
  }

  /** Text placed inside appended text is contained in the whole. */
  lemma ContainsInside(s: string, a: string, t: string, b: string)
    ensures Contains(s + (a + t + b), t)
  {
    assert s + (a + t + b) == (s + a) + t + b;
    ContainsMiddle(s + a, t, b);
  }

  /** `s.split('\n')`: the text between line feeds; never empty, and
      `s` has one line more than it has line feeds. */
  function SplitLines(s: string): (lines: seq<string>)
    ensures |lines| >= 1
    ensures forall k :: 0 <= k < |lines| ==> '\n' !in lines[k]
  {
    var i := IndexOf(s, '\n');
    if i == -1 then [s] else [s[..i]] + SplitLines(s[i + 1..])
  }

  /** `lines.join('\n')`. */
  function JoinLines(lines: seq<string>): string
  {
    if |lines| == 0 then ""
    else if |lines| == 1 then lines[0]
    else lines[0] + "\n" + JoinLines(lines[1..])
  }

  /** Splitting on line feeds loses nothing: joining the lines back with
      line feeds gives the original text. */
  lemma {:induction false} SplitLinesJoin(s: string)
    ensures JoinLines(SplitLines(s)) == s
    decreases |s|
  {
    var i := IndexOf(s, '\n');
    if i != -1 {
      var rest := SplitLines(s[i + 1..]);
      SplitLinesJoin(s[i + 1..]);
      JoinFirst(s[..i], rest);
      Rejoin(s, i);
    }
  }

  /** Joining a first line with at least one more puts a line feed between. */
  lemma JoinFirst(first: string, rest: seq<string>)
    requires |rest| >= 1
    ensures JoinLines([first] + rest) == first + "\n" + JoinLines(rest)
  {
    assert ([first] + rest)[1..] == rest;
  }

  /** The text before a line feed, the line feed and the text after it
      make up the whole text. */
  lemma Rejoin(s: string, i: int)
    requires 0 <= i < |s| && s[i] == '\n'
    ensures s[..i] + "\n" + s[i + 1..] == s
  {
    assert s[..i + 1] == s[..i] + "\n";
  }

  /** The first position at or after `j` that is the end of the text or
      holds a non-white-space character: where a greedy `\s*` from `j` stops. */
  function SkipWhiteSpace(s: string, j: nat): (k: nat)
    requires j <= |s|
    ensures j <= k <= |s|
    ensures forall m :: j <= m < k ==> IsWhiteSpace(s[m])
    ensures k < |s| ==> !IsWhiteSpace(s[k])
    decreases |s| - j
  {
    if j < |s| && IsWhiteSpace(s[j]) then SkipWhiteSpace(s, j + 1) else j
  }
}
