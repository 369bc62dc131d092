/** Text operations of the Rust standard library that the modelled code leans on. */
module Text {
  import opened Prelude

  // `char::is_whitespace`: the Unicode White_Space property.
  predicate IsSpace(c: char) {
    var n := c as int;
    9 <= n <= 13 || n == 0x20 || n == 0x85 || n == 0xA0 || n == 0x1680 || 0x2000 <= n <= 0x200A ||
    n == 0x2028 || n == 0x2029 || n == 0x202F || n == 0x205F || n == 0x3000
  }

  /** The characters of that property, one by one. */
  lemma SpacesAre(c: char)
    ensures IsSpace(c) <==>
            c in "\t\n\U{b}\U{c}\r \U{85}\U{a0}\U{1680}\U{2000}\U{2001}\U{2002}\U{2003}\U{2004}\U{2005}\U{2006}\U{2007}\U{2008}\U{2009}\U{200a}" ||
            c in "\U{2028}\U{2029}\U{202f}\U{205f}\U{3000}"
  {
    var n := c as int;
    if 9 <= n <= 13 { assert n == 9 || n == 10 || n == 11 || n == 12 || n == 13; }
    if 0x2000 <= n <= 0x200A {
      assert c == "\U{2000}\U{2001}\U{2002}\U{2003}\U{2004}\U{2005}\U{2006}\U{2007}\U{2008}\U{2009}\U{200a}"[n - 0x2000];
    }
  }

  function TrimStart(s: string): (t: string) {
    if s != "" && IsSpace(s[0]) then TrimStart(s[1..]) else s
  }

  function TrimEnd(s: string): (t: string) {
    if s != "" && IsSpace(s[|s| - 1]) then TrimEnd(s[..|s| - 1]) else s
  }

  function Trim(s: string): (t: string) {
    TrimEnd(TrimStart(s))
  }

  /** No white space at either end. */
  predicate Tight(s: string) {
    s == "" || (!IsSpace(s[0]) && !IsSpace(s[|s| - 1]))
  }

  predicate Blank(s: string) {
    Trim(s) == ""
  }

  // Cutting the white space off the front of `s` leaves `t`, which starts at `k`; and likewise at the back.
  predicate LeftCut(s: string, t: string, k: nat) {
    k <= |s| && t == s[k..] && (k < |s| ==> !IsSpace(s[k])) && forall i | 0 <= i < k :: IsSpace(s[i])
  }

  predicate RightCut(s: string, t: string, k: nat) {
    k <= |s| && t == s[..k] && (k > 0 ==> !IsSpace(s[k - 1])) && forall i | k <= i < |s| :: IsSpace(s[i])
  }

  lemma OneMoreLeft(s: string, t: string, k: nat)
    requires s != "" && IsSpace(s[0]) && LeftCut(s[1..], t, k)
    ensures LeftCut(s, t, k + 1)
  {
    hide IsSpace;
    assert s == [s[0]] + s[1..];
    assert forall i | 0 <= i < |s[1..]| :: s[1..][i] == s[i + 1];
    forall i | 0 <= i < k + 1 ensures IsSpace(s[i]) { if i > 0 { assert IsSpace(s[1..][i - 1]); } }
  }

  lemma OneMoreRight(s: string, t: string, k: nat)
    requires s != "" && IsSpace(s[|s| - 1]) && RightCut(s[..|s| - 1], t, k)
    ensures RightCut(s, t, k)
  {
    hide IsSpace;
    var r := s[..|s| - 1];
    forall i | k <= i < |s| ensures IsSpace(s[i]) { if i < |r| { assert IsSpace(r[i]); } }
  }

  lemma {:induction false} TrimStartShape(s: string)
    ensures exists k: nat :: LeftCut(s, TrimStart(s), k)
  {
    hide IsSpace, LeftCut;
    if s != "" && IsSpace(s[0]) {
      TrimStartShape(s[1..]);
      var k: nat :| LeftCut(s[1..], TrimStart(s[1..]), k);
      OneMoreLeft(s, TrimStart(s), k);
    } else {
      NothingToCut(s);
      assert LeftCut(s, TrimStart(s), 0);
    }
  }

  lemma {:induction false} TrimEndShape(s: string)
    ensures exists k: nat :: RightCut(s, TrimEnd(s), k)
  {
    hide IsSpace, RightCut;
    if s != "" && IsSpace(s[|s| - 1]) {
      TrimEndShape(s[..|s| - 1]);
      var k: nat :| RightCut(s[..|s| - 1], TrimEnd(s[..|s| - 1]), k);
      OneMoreRight(s, TrimEnd(s), k);
    } else {
      NothingToCut(s);
      assert RightCut(s, TrimEnd(s), |s|);
    }
  }

  lemma NothingToCut(s: string)
    ensures s == "" || !IsSpace(s[0]) ==> LeftCut(s, s, 0)
    ensures s == "" || !IsSpace(s[|s| - 1]) ==> RightCut(s, s, |s|)
  {
    hide IsSpace;
    assert s[0..] == s && s[..|s|] == s;
  }

  // A stretch of a text that has all of it but white space, and no white space at its ends.
  predicate Core(s: string, lo: nat, hi: nat) {
    lo <= hi <= |s| && (lo < hi ==> !IsSpace(s[lo]) && !IsSpace(s[hi - 1])) && forall i | 0 <= i < |s| && !IsSpace(s[i]) :: lo <= i < hi
  }

  /** Trimming cuts out the stretch between the outermost characters that are not white space. */
  lemma TrimSpan(s: string)
    ensures exists lo: nat, hi: nat :: Core(s, lo, hi) && Trim(s) == s[lo..hi]
  {
    hide IsSpace, TrimStart, TrimEnd, LeftCut, RightCut, Core;
    TrimStartShape(s);
    var lo: nat :| LeftCut(s, TrimStart(s), lo);
    TrimEndShape(TrimStart(s));
    var n: nat :| RightCut(TrimStart(s), TrimEnd(TrimStart(s)), n);
    CutsMakeCore(s, TrimStart(s), TrimEnd(TrimStart(s)), lo, n);
  }

  lemma CutsMakeCore(s: string, t: string, u: string, lo: nat, n: nat)
    requires LeftCut(s, t, lo) && RightCut(t, u, n)
    ensures Core(s, lo, lo + n) && u == s[lo..lo + n]
  {
    hide IsSpace;
    assert forall i | 0 <= i < |t| :: t[i] == s[lo + i];
    forall i | 0 <= i < |s| && !IsSpace(s[i]) ensures lo <= i < lo + n {
      if i >= lo { assert s[i] == t[i - lo]; }
    }
  }

  /** What trimming yields is tight, and it is the text itself exactly when that is tight already. */
  lemma TrimIsTight(s: string)
    ensures Tight(Trim(s)) && |Trim(s)| <= |s|
    ensures Trim(s) == s <==> Tight(s)
  {
    hide IsSpace, Trim;
    TrimSpan(s);
    var lo: nat, hi: nat :| Core(s, lo, hi) && Trim(s) == s[lo..hi];
    if s != "" && Tight(s) { assert s[lo..hi] == s; }
  }

  /** Surrounding white space does not matter to trimming. */
  lemma {:induction false} TrimPadded(left: string, s: string, right: string)
    requires forall i | 0 <= i < |left| :: IsSpace(left[i])
    requires forall i | 0 <= i < |right| :: IsSpace(right[i])
    requires Tight(s)
    ensures Trim(left + s + right) == s
    decreases |left| + |right|
  {
    var w := left + s + right;
    if left != "" {
      assert w[1..] == left[1..] + s + right;
      TrimPadded(left[1..], s, right);
    } else if right != "" {
      assert w[..|w| - 1] == left + s + right[..|right| - 1];
      if s == "" {
        assert w == right && w[1..] == "" + s + right[1..];
        TrimPadded("", s, right[1..]);
      } else {
        assert TrimStart(w) == w;
        var v := w[..|w| - 1];
        assert TrimStart(v) == v by { assert v[0] == s[0]; }
        TrimPadded(left, s, right[..|right| - 1]);
      }
    } else {
      assert w == s;
      TrimIsTight(s);
    }
  }

  /** One more space in front does not matter to trimming. */
  lemma TrimAfterSpace(space: char, s: string)
    requires IsSpace(space)
    ensures Trim([space] + s) == Trim(s)
  {
    assert ([space] + s)[1..] == s;
  }

  /** Trimming a text that starts tight only shortens it at the end. */
  lemma TrimIsPrefix(s: string)
    requires s != "" && !IsSpace(s[0])
    ensures Trim(s) <= s && Trim(s) != ""
  {
    TrimEndShape(s);
    var k: nat :| RightCut(s, TrimEnd(s), k);
  }

  predicate HasAt(s: string, pattern: string, at: nat) {
    at + |pattern| <= |s| && s[at..at + |pattern|] == pattern
  }

  predicate Contains(s: string, pattern: string) {
    exists at | 0 <= at <= |s| :: HasAt(s, pattern, at)
  }

  function FindFrom(s: string, pattern: string, from: nat): (r: Option<nat>)
    requires from <= |s|
    ensures r.Some? ==> from <= r.value && HasAt(s, pattern, r.value)
    ensures r.Some? ==> forall at | from <= at < r.value :: !HasAt(s, pattern, at)
    ensures r.None? ==> forall at | from <= at <= |s| :: !HasAt(s, pattern, at)
    decreases |s| - from
  {
    if HasAt(s, pattern, from) then Some(from)
    else if from == |s| then None
    else FindFrom(s, pattern, from + 1)
  }

  /** `str::find`: the first position at which the pattern stands. */
  function Find(s: string, pattern: string): (r: Option<nat>)
    ensures r.Some? ==> HasAt(s, pattern, r.value) && forall at | 0 <= at < r.value :: !HasAt(s, pattern, at)
    ensures r.None? <==> !Contains(s, pattern)
  {
    FindFrom(s, pattern, 0)
  }

  lemma HasAtShifted(s: string, pattern: string, from: nat, at: nat)
    requires from <= |s|
    ensures HasAt(s[from..], pattern, at) <==> HasAt(s, pattern, from + at)
  {
    var t := s[from..];
    if at + |pattern| <= |t| { assert t[at..at + |pattern|] == s[from + at..from + at + |pattern|]; }
  }

  /** Searching from a place on is searching the rest of the text. */
  lemma {:induction false} FindShifted(s: string, pattern: string, from: nat, at: nat)
    requires from + at <= |s|
    ensures var r := FindFrom(s[from..], pattern, at);
            FindFrom(s, pattern, from + at) == if r.Some? then Some(r.value + from) else None
    decreases |s| - at
  {
    hide HasAt;
    HasAtShifted(s, pattern, from, at);
    if from + at < |s| { FindShifted(s, pattern, from, at + 1); }
  }

  /** A first character that does not start the pattern only moves what is found by one. */
  lemma FindBehind(x: char, s: string, pattern: string)
    requires pattern != "" && pattern[0] != x && Find(s, pattern).Some?
    ensures Find([x] + s, pattern) == Some(Find(s, pattern).value + 1)
  {
    var t := [x] + s;
    assert t[1..] == s;
    FindShifted(t, pattern, 1, 0);
    assert |pattern| <= |t| ==> t[..|pattern|][0] == x;
    assert !HasAt(t, pattern, 0);
  }

  // The text ends, if it has an end, in a character that the pattern does not use.
  predicate EndsOutside(a: string, pattern: string) {
    a == "" || a[|a| - 1] !in pattern
  }

  /** No occurrence of a pattern reaches across a character that the pattern does not use. */
  lemma NoneCrosses(a: string, b: string, pattern: string, at: nat)
    requires EndsOutside(a, pattern) && at < |a| && HasAt(a + b, pattern, at)
    ensures at + |pattern| <= |a| && HasAt(a, pattern, at)
  {
    var s := a + b;
    assert s[|a| - 1] == a[|a| - 1];
    assert forall i | at <= i < at + |pattern| :: s[i] == s[at..at + |pattern|][i - at] && s[i] in pattern;
    assert a[at..at + |pattern|] == s[at..at + |pattern|];
  }

  // Nor does one reach the end of the line it starts before.
  lemma WithinLine(a: string, b: string, pattern: string, at: nat)
    requires a != "" && a[|a| - 1] !in pattern && pattern != "" && at < |a| && HasAt(a + b, pattern, at)
    ensures at + |pattern| < |a| && HasAt(a, pattern, at)
  {
    NoneCrosses(a, b, pattern, at);
    assert a[at..at + |pattern|][|pattern| - 1] == a[at + |pattern| - 1];
  }

  // Behind the first part an occurrence is one in the second part, and within the first part one in that.
  lemma HasAtBehind(a: string, b: string, pattern: string, at: nat)
    ensures HasAt(a + b, pattern, |a| + at) <==> HasAt(b, pattern, at)
  {
    if at + |pattern| <= |b| { assert (a + b)[|a| + at..|a| + at + |pattern|] == b[at..at + |pattern|]; }
  }

  lemma HasAtBefore(a: string, b: string, pattern: string, at: nat)
    requires HasAt(a, pattern, at)
    ensures HasAt(a + b, pattern, at)
  {
    assert (a + b)[at..at + |pattern|] == a[at..at + |pattern|];
  }

  lemma ContainsConcat(a: string, b: string, pattern: string)
    requires EndsOutside(a, pattern)
    ensures Contains(a + b, pattern) <==> Contains(a, pattern) || Contains(b, pattern)
  {
    hide HasAt, EndsOutside;
    var s := a + b;
    if Contains(s, pattern) {
      var at :| 0 <= at <= |s| && HasAt(s, pattern, at);
      if at >= |a| {
        HasAtBehind(a, b, pattern, at - |a|);
      } else {
        NoneCrosses(a, b, pattern, at);
      }
    }
    if Contains(a, pattern) {
      var at :| 0 <= at <= |a| && HasAt(a, pattern, at);
      HasAtBefore(a, b, pattern, at);
    }
    if Contains(b, pattern) {
      var at :| 0 <= at <= |b| && HasAt(b, pattern, at);
      HasAtBehind(a, b, pattern, at);
      assert HasAt(s, pattern, |a| + at);
    }
  }

  /** What stands right after a text free of the pattern is found there. */
  lemma FindAfter(a: string, pattern: string, rest: string)
    requires EndsOutside(a, pattern) && !Contains(a, pattern)
    ensures Find(a + pattern + rest, pattern) == Some(|a|)
  {
    var s := a + pattern + rest;
    assert HasAt(s, pattern, |a|);
    forall at | 0 <= at < |a| ensures !HasAt(s, pattern, at) {
      if HasAt(s, pattern, at) {
        assert s == a + (pattern + rest);
        NoneCrosses(a, pattern + rest, pattern, at);
      }
    }
  }

  /** An occurrence inside the first part is found there, whatever follows. */
  lemma FindInside(a: string, pattern: string, rest: string)
    requires Find(a, pattern).Some?
    ensures Find(a + rest, pattern) == Find(a, pattern)
  {
    var k := Find(a, pattern).value;
    assert (a + rest)[k..k + |pattern|] == a[k..k + |pattern|];
    assert HasAt(a + rest, pattern, k);
    forall at | 0 <= at < k ensures !HasAt(a + rest, pattern, at) {
      if HasAt(a + rest, pattern, at) {
        assert a[at..at + |pattern|] == (a + rest)[at..at + |pattern|];
        assert HasAt(a, pattern, at);
      }
    }
  }

  predicate StartsWith(s: string, prefix: string) { prefix <= s }

  predicate EndsWith(s: string, suffix: string) {
    |suffix| <= |s| && s[|s| - |suffix|..] == suffix
  }

  // `trim_start_matches` and `trim_end_matches` strip every repetition of the pattern.
  function StripStart(s: string, prefix: string): string
    requires prefix != ""
  {
    if StartsWith(s, prefix) then StripStart(s[|prefix|..], prefix) else s
  }

  function StripEnd(s: string, suffix: string): string
    requires suffix != ""
  {
    if EndsWith(s, suffix) then StripEnd(s[..|s| - |suffix|], suffix) else s
  }

  lemma {:induction false} StripEndIsPrefix(s: string, suffix: string)
    requires suffix != ""
    ensures StripEnd(s, suffix) <= s
  {
    if EndsWith(s, suffix) { StripEndIsPrefix(s[..|s| - |suffix|], suffix); }
  }

  // Comparison of strings by code point, which is both Rust's `str` order and SQLite's BINARY collation.
  predicate Less(a: string, b: string) {
    b != "" && (a == "" || a[0] < b[0] || (a[0] == b[0] && Less(a[1..], b[1..])))
  }

  lemma {:induction false} LessTrichotomy(a: string, b: string)
    ensures Less(a, b) || a == b || Less(b, a)
    ensures !(Less(a, b) && Less(b, a)) && !Less(a, a) && (Less(a, b) ==> a != b)
  {
    LessIrreflexive(a);
    if a != "" && b != "" {
      LessTrichotomy(a[1..], b[1..]);
      if a[0] == b[0] && a[1..] == b[1..] {
        assert a == [a[0]] + a[1..] && b == [b[0]] + b[1..];
      }
    }
  }

  lemma {:induction false} LessIrreflexive(a: string)
    ensures !Less(a, a)
  {
    if a != "" { LessIrreflexive(a[1..]); }
  }

  lemma {:induction false} LessTransitive(a: string, b: string, c: string)
    requires Less(a, b) && Less(b, c)
    ensures Less(a, c)
  {
    if a != "" && a[0] == b[0] && b[0] == c[0] {
      LessTransitive(a[1..], b[1..], c[1..]);
    }
  }

  lemma {:induction false} LessAt(a: string, b: string, k: nat)
    requires k < |a| && k < |b| && a[..k] == b[..k] && a[k] < b[k]
    ensures Less(a, b)
    decreases k
  {
    if k > 0 {
      assert a[1..][..k - 1] == a[1..k] == b[1..k] == b[1..][..k - 1];
      LessAt(a[1..], b[1..], k - 1);
    }
  }

  // Behind a common front one text ends and the other does not, or it has the lesser character.
  predicate DiffersAt(a: string, b: string, k: nat) {
    k <= |a| && k < |b| && a[..k] == b[..k] && (k == |a| || a[k] < b[k])
  }

  /** Texts are ordered by the first character in which they differ, a text before all that it begins. */
  lemma {:induction false} LessAtFirstDifference(a: string, b: string)
    ensures Less(a, b) <==> exists k: nat :: DiffersAt(a, b, k)
  {
    if a == "" {
      if b != "" { assert DiffersAt(a, b, 0); }
    } else if b != "" {
      LessAtFirstDifference(a[1..], b[1..]);
      if Less(a, b) {
        if a[0] < b[0] {
          assert DiffersAt(a, b, 0);
        } else {
          var k: nat :| DiffersAt(a[1..], b[1..], k);
          assert a[..k + 1] == [a[0]] + a[1..][..k] && b[..k + 1] == [b[0]] + b[1..][..k];
          assert DiffersAt(a, b, k + 1);
        }
      }
      if k: nat :| DiffersAt(a, b, k) {
        if k > 0 {
          assert a[..k][0] == b[..k][0];
          assert a[1..][..k - 1] == a[..k][1..] && b[1..][..k - 1] == b[..k][1..];
          assert DiffersAt(a[1..], b[1..], k - 1);
        }
      }
    }
  }

  lemma {:induction false} LessChain(names: seq<string>, i: nat, j: nat)
    requires forall k | 0 <= k < |names| - 1 :: Less(names[k], names[k + 1])
    requires i < j < |names|
    ensures Less(names[i], names[j])
  {
    if i + 1 < j {
      LessChain(names, i, j - 1);
      LessTransitive(names[i], names[j - 1], names[j]);
    }
  }
}
