/** Python's text primitives used by the command pipeline, on ASCII strings:
    `str.lower`, `str.strip()`, `str.split()`, `sub in s` and `str.replace`. */
module Text {

  /** Python's `str.isspace` restricted to ASCII: tab, line feed, vertical tab,
      form feed, carriage return, the four information separators and space. */
  predicate IsSpace(c: char) {
    var n := c as int;
    n == 32 || 9 <= n <= 13 || 28 <= n <= 31
  }

  /** The ASCII characters `str.isspace` accepts, listed one by one. */
  const AsciiWhitespace: string := "\t\n\U{000B}\U{000C}\r\U{001C}\U{001D}\U{001E}\U{001F} "

  /** The whitespace test accepts exactly the listed characters. */
  lemma IsSpaceListed(c: char)
    ensures IsSpace(c) <==> c in AsciiWhitespace
  {
  }

  predicate IsUpper(c: char) { 'A' <= c <= 'Z' }

  /** `c.lower()` for an ASCII character. */
  function LowerChar(c: char): (r: char)
    ensures !IsUpper(r)
    ensures IsSpace(r) <==> IsSpace(c)
    ensures !IsUpper(c) ==> r == c
  {
    if IsUpper(c) then (c as int + 32) as char else c
  }

  /** A string with no upper-case ASCII letter: what `str.lower` produces. */
  predicate IsLower(s: string) {
    forall i :: 0 <= i < |s| ==> !IsUpper(s[i])
  }

  /** `s.lower()`. */
  function Lower(s: string): (r: string)
    ensures |r| == |s|
    ensures forall i :: 0 <= i < |s| ==> r[i] == LowerChar(s[i])
    ensures IsLower(r)
  {
    seq(|s|, i requires 0 <= i < |s| => LowerChar(s[i]))
  }

  lemma LowerOfLower(s: string)
    requires IsLower(s)
    ensures Lower(s) == s
  {
  }

  /** `s.lstrip()`: drops the leading whitespace and keeps the rest. */
  function StripLeft(s: string): (r: string)
    ensures |r| <= |s| && r == s[|s| - |r|..]
    ensures r == [] || !IsSpace(r[0])
    ensures forall k :: 0 <= k < |s| - |r| ==> IsSpace(s[k])
  {
    if s != [] && IsSpace(s[0]) then StripLeft(s[1..]) else s
  }

  /** `s.rstrip()`: drops the trailing whitespace and keeps the rest. */
  function StripRight(s: string): (r: string)
    ensures |r| <= |s| && r == s[..|r|]
    ensures r == [] || !IsSpace(r[|r| - 1])
    ensures forall k :: |r| <= k < |s| ==> IsSpace(s[k])
  {
    if s != [] && IsSpace(s[|s| - 1]) then StripRight(s[..|s| - 1]) else s
  }

  /** Neither end of the string is whitespace. */
  predicate IsStripped(s: string) {
    s == [] || (!IsSpace(s[0]) && !IsSpace(s[|s| - 1]))
  }

  /** `s.strip()`: the slice of `s` left after dropping whitespace at both ends. */
  function Strip(s: string): (r: string)
    ensures IsStripped(r)
  {
    var t := StripLeft(s);
    var r := StripRight(t);
    assert r == [] || r[0] == t[0];
    r
  }

  /** What `strip` keeps is the slice between the leading and the trailing
      whitespace of `s`. */
  lemma {:induction false} StripIsSlice(s: string) returns (i: nat, j: nat)
    ensures i <= j <= |s| && Strip(s) == s[i..j]
    ensures forall k :: 0 <= k < i ==> IsSpace(s[k])
    ensures forall k :: j <= k < |s| ==> IsSpace(s[k])
  {
    var t := StripLeft(s);
    i := |s| - |t|;
    j := i + |StripRight(t)|;
    assert forall k :: j <= k < |s| ==> s[k] == t[k - i];
  }

  lemma {:induction false} StripOfStripped(s: string)
    requires IsStripped(s)
    ensures Strip(s) == s
  {
    assert StripLeft(s) == s;
    assert StripRight(s) == s;
  }

  /** Stripping twice is stripping once. */
  lemma {:induction false} StripIdempotent(s: string)
    ensures Strip(Strip(s)) == Strip(s)
  {
    StripOfStripped(Strip(s));
  }

  /** Every slice of a lower-case string is lower case. */
  lemma SliceOfLower(s: string, i: int, j: int)
    requires IsLower(s) && 0 <= i <= j <= |s|
    ensures IsLower(s[i..j])
  {
  }

  lemma {:induction false} StripKeepsLower(s: string)
    requires IsLower(s)
    ensures IsLower(Strip(s))
  {
    var i, j := StripIsSlice(s);
    SliceOfLower(s, i, j);
  }

  /** A string of whitespace only strips to the empty string, and only such a string does. */
  lemma {:induction false} StripEmptyIff(s: string)
    ensures Strip(s) == [] <==> forall k :: 0 <= k < |s| ==> IsSpace(s[k])
  {
    if forall k :: 0 <= k < |s| ==> IsSpace(s[k]) {
      AllSpaceStripLeft(s);
    }
  }

  lemma {:induction false} AllSpaceStripLeft(s: string)
    requires forall k :: 0 <= k < |s| ==> IsSpace(s[k])
    ensures StripLeft(s) == []
  {
    if s != [] {
      AllSpaceStripLeft(s[1..]);
    }
  }

  // ---------------------------------------------------------------------------
  // Substring search: Python's `sub in s`.

  predicate StartsWith(s: string, prefix: string) {
    |prefix| <= |s| && s[..|prefix|] == prefix
  }

  /** `sub` occurs in `s` starting at index `i`. */
  ghost predicate OccursAt(s: string, sub: string, i: int) {
    0 <= i && i + |sub| <= |s| && s[i..i + |sub|] == sub
  }

  /** `sub in s`, as a left-to-right scan. */
  function Contains(s: string, sub: string): (b: bool)
    ensures sub == [] ==> b
    ensures b ==> |sub| <= |s|
    decreases |s|
  {
    StartsWith(s, sub) || (s != [] && Contains(s[1..], sub))
  }

  /** The scan finds `sub` exactly when it occurs somewhere in `s`. */
  lemma {:induction false} ContainsIff(s: string, sub: string)
    ensures Contains(s, sub) <==> exists i :: OccursAt(s, sub, i)
    decreases |s|
  {
    if StartsWith(s, sub) {
      assert OccursAt(s, sub, 0);
    } else if s == [] {
    } else {
      ContainsIff(s[1..], sub);
      if exists i :: OccursAt(s[1..], sub, i) {
        var i :| OccursAt(s[1..], sub, i);
        assert s[i + 1..i + 1 + |sub|] == s[1..][i..i + |sub|];
        assert OccursAt(s, sub, i + 1);
      }
      if exists i :: OccursAt(s, sub, i) {
        var i :| OccursAt(s, sub, i);
        assert s[..|sub|] == s[0..|sub|];
        assert s[1..][i - 1..i - 1 + |sub|] == s[i..i + |sub|];
        assert OccursAt(s[1..], sub, i - 1);
      }
    }
  }

  /** The empty string occurs in every string. */
  lemma ContainsEmpty(s: string)
    ensures Contains(s, [])
  {
    assert StartsWith(s, []);
  }

  // ---------------------------------------------------------------------------
  // Replacement: Python's `s.replace(pattern, repl)`, every occurrence, left to right,
  // without overlaps.

  /** `s.replace("", repl)`: `repl` before every character and at the end. */
  function Interleave(s: string, repl: string): (r: string)
    ensures |r| == |s| + (|s| + 1) * |repl|
  {
    if s == [] then repl else repl + [s[0]] + Interleave(s[1..], repl)
  }

  /** `s.replace(pattern, repl)`. A replacement no longer than the pattern
      never lengthens the string, and one of the same length keeps it. */
  function Replace(s: string, pattern: string, repl: string): (r: string)
    ensures pattern != [] && |repl| <= |pattern| ==> |r| <= |s|
    ensures pattern != [] && |repl| == |pattern| ==> |r| == |s|
    decreases |s|
  {
    if pattern == [] then Interleave(s, repl)
    else if s == [] then []
    else if StartsWith(s, pattern) then repl + Replace(s[|pattern|..], pattern, repl)
    else [s[0]] + Replace(s[1..], pattern, repl)
  }

  /** Replacing something that does not occur changes nothing. */
  lemma {:induction false} ReplaceAbsent(s: string, pattern: string, repl: string)
    requires !Contains(s, pattern)
    ensures Replace(s, pattern, repl) == s
    decreases |s|
  {
    ContainsEmpty(s);
    if s != [] {
      ReplaceAbsent(s[1..], pattern, repl);
    }
  }

  /** `s.replace("", "")` is `s`. */
  lemma {:induction false} ReplaceEmptyByEmpty(s: string)
    ensures Replace(s, [], []) == s
  {
    InterleaveEmpty(s);
  }

  lemma {:induction false} InterleaveEmpty(s: string)
    ensures Interleave(s, []) == s
  {
    if s != [] {
      InterleaveEmpty(s[1..]);
      assert [] + [s[0]] + s[1..] == s;
    }
  }

  /** A string holding a character that `s` lacks does not occur in `s`. */
  lemma {:induction false} AbsentCharNotContained(s: string, sub: string, c: char)
    requires c in sub && c !in s
    ensures !Contains(s, sub)
  {
    ContainsIff(s, sub);
  }

  /** A string occurs in any string built around it. */
  lemma {:induction false} ContainedInMiddle(a: string, sub: string, b: string)
    ensures Contains(a + sub + b, sub)
  {
    var s := a + sub + b;
    assert s[|a|..|a| + |sub|] == sub;
    assert OccursAt(s, sub, |a|);
    ContainsIff(s, sub);
  }

  /** A match at the front is replaced, and replacement goes on after it. */
  lemma {:induction false} ReplaceAtFront(pattern: string, rest: string, repl: string)
    requires pattern != []
    ensures Replace(pattern + rest, pattern, repl) == repl + Replace(rest, pattern, repl)
  {
    assert (pattern + rest)[..|pattern|] == pattern;
    assert (pattern + rest)[|pattern|..] == rest;
  }

  /** No match can start inside a prefix that lacks the first character of
      the pattern, so that prefix is copied unchanged. */
  lemma {:induction false} ReplaceCopiesPrefix(a: string, rest: string, pattern: string, repl: string)
    requires pattern != [] && pattern[0] !in a
    ensures Replace(a + rest, pattern, repl) == a + Replace(rest, pattern, repl)
  {
    if a != [] {
      var s := a + rest;
      assert !StartsWith(s, pattern) by {
        if |pattern| <= |s| {
          assert s[..|pattern|][0] == a[0];
        }
      }
      assert s[1..] == a[1..] + rest;
      assert Replace(s, pattern, repl) == [a[0]] + Replace(a[1..] + rest, pattern, repl);
      ReplaceCopiesPrefix(a[1..], rest, pattern, repl);
      assert [a[0]] + (a[1..] + Replace(rest, pattern, repl)) == a + Replace(rest, pattern, repl);
    } else {
      assert a + rest == rest;
    }
  }

  /** Replacing by a lower-case string keeps a lower-case string lower case. */
  lemma {:induction false} ReplaceKeepsLower(s: string, pattern: string, repl: string)
    requires IsLower(s) && IsLower(repl)
    ensures IsLower(Replace(s, pattern, repl))
    decreases |s|
  {
    if pattern == [] {
      InterleaveKeepsLower(s, repl);
    } else if s != [] {
      if StartsWith(s, pattern) {
        ReplaceKeepsLower(s[|pattern|..], pattern, repl);
      } else {
        ReplaceKeepsLower(s[1..], pattern, repl);
      }
    }
  }

  lemma {:induction false} InterleaveKeepsLower(s: string, repl: string)
    requires IsLower(s) && IsLower(repl)
    ensures IsLower(Interleave(s, repl))
  {
    if s != [] {
      InterleaveKeepsLower(s[1..], repl);
    }
  }

  /** Removing every "open" does not leave a string free of "open":
      the removals can join the pieces around them into a repl occurrence. */
  lemma RemovalCanCreateOccurrence()
    ensures Replace("opopenen", "open", "") == "open"
    ensures Contains(Replace("opopenen", "open", ""), "open")
  {
    var s := "opopenen";
    assert s[..4][2] == 'o';
    assert !StartsWith(s, "open");
    assert s[1..][..4][0] == 'p';
    assert !StartsWith(s[1..], "open");
    assert StartsWith(s[2..], "open");
    assert s[2..][4..] == "en";
    assert Replace("en", "open", "") == "en";
    assert Replace(s[2..], "open", "") == "en";
    assert Replace(s[1..], "open", "") == "pen";
    assert StartsWith("open", "open");
  }

  // ---------------------------------------------------------------------------
  // Splitting: Python's `s.split()` with no separator.

  /** No character of `w` is whitespace. */
  predicate NoSpace(w: string) {
    forall k :: 0 <= k < |w| ==> !IsSpace(w[k])
  }

  /** The longest prefix of `s` without whitespace. */
  function Word(s: string): (w: string)
    ensures |w| <= |s| && w == s[..|w|]
    ensures NoSpace(w)
    ensures |w| == |s| || IsSpace(s[|w|])
  {
    if s == [] || IsSpace(s[0]) then [] else [s[0]] + Word(s[1..])
  }

  /** `s.split()`: the maximal runs of non-whitespace characters, in order. */
  function Split(s: string): (ws: seq<string>)
    ensures forall i :: 0 <= i < |ws| ==> ws[i] != [] && NoSpace(ws[i])
    decreases |s|
  {
    var t := StripLeft(s);
    if t == [] then []
    else
      var w := Word(t);
      assert w != [] by { assert !IsSpace(t[0]); }
      var rest := Split(t[|w|..]);
      ConsWord(w, rest);
      [w] + rest
  }

  lemma ConsWord(w: string, rest: seq<string>)
    requires w != [] && NoSpace(w)
    requires forall i :: 0 <= i < |rest| ==> rest[i] != [] && NoSpace(rest[i])
    ensures forall i :: 0 <= i < |[w] + rest| ==> ([w] + rest)[i] != [] && NoSpace(([w] + rest)[i])
  {
    forall i | 0 <= i < |[w] + rest|
      ensures ([w] + rest)[i] != [] && NoSpace(([w] + rest)[i])
    {
      if i > 0 { assert ([w] + rest)[i] == rest[i - 1]; }
    }
  }

  /** `" ".join(ws)`. */
  function Join(ws: seq<string>): string {
    if ws == [] then []
    else if |ws| == 1 then ws[0]
    else ws[0] + " " + Join(ws[1..])
  }

  /** A string splits into nothing exactly when it is all whitespace. */
  lemma {:induction false} SplitEmptyIff(s: string)
    ensures Split(s) == [] <==> forall k :: 0 <= k < |s| ==> IsSpace(s[k])
  {
    if forall k :: 0 <= k < |s| ==> IsSpace(s[k]) {
      AllSpaceStripLeft(s);
    }
  }

  lemma {:induction false} WordOfNoSpace(w: string, rest: string)
    requires NoSpace(w)
    requires rest == [] || IsSpace(rest[0])
    ensures Word(w + rest) == w
  {
    if w != [] {
      assert (w + rest)[1..] == w[1..] + rest;
      WordOfNoSpace(w[1..], rest);
    }
  }

  /** Every character of `s` is whitespace. */
  predicate AllSpace(s: string) {
    forall k :: 0 <= k < |s| ==> IsSpace(s[k])
  }

  lemma {:induction false} StripLeftSpacePrefix(w: string, s: string)
    requires AllSpace(w)
    ensures StripLeft(w + s) == StripLeft(s)
  {
    if w != [] {
      assert IsSpace((w + s)[0]) by { assert (w + s)[0] == w[0]; }
      assert (w + s)[1..] == w[1..] + s;
      assert AllSpace(w[1..]) by {
        forall k | 0 <= k < |w| - 1 ensures IsSpace(w[1..][k]) {
          assert w[1..][k] == w[k + 1];
        }
      }
      StripLeftSpacePrefix(w[1..], s);
      assert StripLeft(w + s) == StripLeft((w + s)[1..]);
    } else {
      assert w + s == s;
    }
  }

  /** Leading whitespace, however much and of whatever kind, makes no word. */
  lemma {:induction false} SplitLeadingSpace(w: string, s: string)
    requires AllSpace(w)
    ensures Split(w + s) == Split(s)
  {
    StripLeftSpacePrefix(w, s);
  }

  /** A run of whitespace separates words and disappears: the words of
      `a + w + b` are the words of `a` followed by the words of `b`. */
  lemma {:induction false} SplitAround(a: string, w: string, b: string)
    requires w != [] && AllSpace(w)
    ensures Split(a + w + b) == Split(a) + Split(b)
    decreases |a|
  {
    if StripLeft(a) == [] {
      SplitAllSpaceFront(a, w, b);
      assert [] + Split(b) == Split(b);
    } else {
      var u, tail := SplitPastWord(a, w, b);
      SplitAround(tail, w, b);
      ConsConcat(u, Split(tail), Split(b));
    }
  }

  lemma ConsConcat<T>(u: T, x: seq<T>, y: seq<T>)
    ensures [u] + (x + y) == ([u] + x) + y
  {
  }

  /** The first word of `a` is split off the same way whatever follows `a`
      after a run of whitespace. */
  lemma {:induction false} SplitPastWord(a: string, w: string, b: string) returns (u: string, tail: string)
    requires StripLeft(a) != []
    requires w != [] && AllSpace(w)
    ensures |tail| < |a|
    ensures Split(a) == [u] + Split(tail)
    ensures Split(a + w + b) == [u] + Split(tail + w + b)
  {
    var t := StripLeft(a);
    SplitStripLeft(a);
    SplitPastSpaceBefore(a, w, b);
    tail := SplitWordStep(t, w, b);
    u := Word(t);
  }

  lemma {:induction false} SplitStripLeft(a: string)
    ensures Split(a) == Split(StripLeft(a))
    decreases |a|
  {
    if a != [] && IsSpace(a[0]) {
      SplitStripLeft(a[1..]);
      SplitSpaceHead(a);
    }
  }

  lemma {:induction false} SplitPastSpaceBefore(a: string, w: string, b: string)
    ensures Split(a + w + b) == Split(StripLeft(a) + w + b)
  {
    SplitPastSpace(a, w + b);
    ConcatAssoc3(a, w, b);
    ConcatAssoc3(StripLeft(a), w, b);
  }

  lemma ConcatAssoc3<T>(x: seq<T>, y: seq<T>, z: seq<T>)
    ensures x + y + z == x + (y + z)
  {
  }

  /** Splitting ignores the leading whitespace of `a`, whatever follows it. */
  lemma {:induction false} SplitPastSpace(a: string, c: string)
    ensures Split(a + c) == Split(StripLeft(a) + c)
    decreases |a|
  {
    if a != [] && IsSpace(a[0]) {
      assert (a + c)[0] == a[0];
      assert (a + c)[1..] == a[1..] + c;
      SplitPastSpace(a[1..], c);
      SplitSpaceHead(a + c);
    }
  }

  lemma SplitSpaceHead(x: string)
    requires x != [] && IsSpace(x[0])
    ensures Split(x) == Split(x[1..])
  {
  }

  lemma {:induction false} SplitAllSpaceFront(a: string, w: string, b: string)
    requires AllSpace(w) && StripLeft(a) == []
    ensures Split(a) == [] && Split(a + w + b) == Split(b)
  {
    SplitEmptyIff(a);
    assert AllSpace(a + w) by {
      forall k | 0 <= k < |a + w| ensures IsSpace((a + w)[k]) {
        if k < |a| { assert (a + w)[k] == a[k]; } else { assert (a + w)[k] == w[k - |a|]; }
      }
    }
    assert a + w + b == (a + w) + b;
    SplitLeadingSpace(a + w, b);
  }

  /** The first word of a string that starts with one, before a run of
      whitespace: it is split off the same way with or without what follows. */
  lemma {:induction false} SplitWordStep(t: string, w: string, b: string) returns (tail: string)
    requires t != [] && !IsSpace(t[0])
    requires w != [] && AllSpace(w)
    ensures |tail| < |t|
    ensures Split(t) == [Word(t)] + Split(tail)
    ensures Split(t + w + b) == [Word(t)] + Split(tail + w + b)
  {
    var u := Word(t);
    tail := t[|u|..];
    assert u != [] by { assert !IsSpace(t[0]); }
    var after := tail + w + b;
    assert t + w + b == u + after by { assert t == u + tail; }
    assert IsSpace(after[0]) by {
      if tail == [] { assert after[0] == w[0]; } else { assert after[0] == tail[0]; }
    }
    WordOfNoSpace(u, after);
    SplitUnfold(t);
    SplitUnfold(u + after);
    assert (u + after)[|u|..] == after;
  }

  lemma {:induction false} SplitUnfold(t: string)
    requires t != [] && !IsSpace(t[0])
    ensures Split(t) == [Word(t)] + Split(t[|Word(t)|..])
  {
    assert StripLeft(t) == t;
  }

  /** Joining whitespace-free, non-empty words with single spaces and splitting
      again gives the words back. */
  lemma {:induction false} SplitJoin(ws: seq<string>)
    requires forall i :: 0 <= i < |ws| ==> ws[i] != [] && NoSpace(ws[i])
    ensures Split(Join(ws)) == ws
  {
    if ws == [] {
    } else if |ws| == 1 {
      var w := ws[0];
      assert w + [] == w;
      WordOfNoSpace(w, []);
      assert Split(w) == [w] + Split(w[|w|..]);
      assert w[|w|..] == [];
    } else {
      var w, rest := ws[0], " " + Join(ws[1..]);
      assert Join(ws) == w + rest;
      WordOfNoSpace(w, rest);
      assert StripLeft(w + rest) == w + rest;
      assert (w + rest)[|w|..] == rest;
      SplitLeadingSpace(" ", Join(ws[1..]));
      SplitJoin(ws[1..]);
    }
  }

  /** A non-empty string without whitespace splits into itself alone. */
  lemma {:induction false} SplitSingleWord(w: string)
    requires w != [] && NoSpace(w)
    ensures Split(w) == [w]
  {
    SplitJoin([w]);
  }
}
