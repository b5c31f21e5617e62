/** The few JavaScript built-ins the core relies on, restricted to what the
    source uses them for: Math.round, String.prototype.trim / toLowerCase /
    startsWith / includes, and the `\s` whitespace class, all over ASCII. */
module Js {

  /** Math.round: the nearest integer, halves rounded up (towards +infinity). */
  function Round(x: real): (r: int)
    ensures r as real - 0.5 <= x < r as real + 0.5
  {
    (x + 0.5).Floor
  }

  lemma RoundMonotone(x: real, y: real)
    requires x <= y
    ensures Round(x) <= Round(y)
  {
  }

  /** ASCII members of JavaScript's whitespace class (`\s`, the set `trim` removes). */
  predicate IsWhitespace(c: char) {
    c == ' ' || c == '\t' || c == '\n' || c == '\U{000B}' || c == '\U{000C}' || c == '\r'
  }

  predicate IsBlank(s: string) {
    forall i :: 0 <= i < |s| ==> IsWhitespace(s[i])
  }

  /** Drops leading whitespace: what is left is a suffix of `s`, everything
      dropped is whitespace, and the rest does not start with whitespace. */
  function TrimStart(s: string): (t: string)
    ensures |t| <= |s|
    ensures forall i :: 0 <= i < |t| ==> t[i] == s[|s| - |t| + i]
    ensures forall i :: 0 <= i < |s| - |t| ==> IsWhitespace(s[i])
    ensures t == [] || !IsWhitespace(t[0])
  {
    if |s| > 0 && IsWhitespace(s[0]) then
      var t := TrimStart(s[1..]);
      assert forall i :: 0 < i < |s| ==> s[i] == s[1..][i - 1];
      t
    else
      s
  }

  /** Drops trailing whitespace: what is left is a prefix of `s`, everything
      dropped is whitespace, and the rest does not end with whitespace. */
  function TrimEnd(s: string): (t: string)
    ensures |t| <= |s|
    ensures forall i :: 0 <= i < |t| ==> t[i] == s[i]
    ensures forall i :: |t| <= i < |s| ==> IsWhitespace(s[i])
    ensures t == [] || !IsWhitespace(t[|t| - 1])
  {
    if |s| > 0 && IsWhitespace(s[|s| - 1]) then
      var t := TrimEnd(s[..|s| - 1]);
      assert forall i :: 0 <= i < |s| - 1 ==> s[i] == s[..|s| - 1][i];
      t
    else
      s
  }

  /** String.prototype.trim: drops leading and trailing whitespace. What is
      left is a block of `s`, and everything around it is whitespace. */
  function Trim(s: string): (t: string)
    ensures t == [] <==> IsBlank(s)
    ensures |s| - |TrimStart(s)| + |t| <= |s|
    ensures forall i :: 0 <= i < |t| ==> t[i] == s[|s| - |TrimStart(s)| + i]
    ensures forall i :: 0 <= i < |s| - |TrimStart(s)| ==> IsWhitespace(s[i])
    ensures forall i :: |s| - |TrimStart(s)| + |t| <= i < |s| ==> IsWhitespace(s[i])
  {
    var u := TrimStart(s);
    var t := TrimEnd(u);
    TrimBlank(s, u, t);
    assert forall i :: |s| - |u| + |t| <= i < |s| ==> IsWhitespace(s[i]) by {
      forall i | |s| - |u| + |t| <= i < |s| ensures IsWhitespace(s[i]) {
        assert s[i] == u[i - (|s| - |u|)];
      }
    }
    t
  }

  /** What trim leaves neither starts nor ends with whitespace. */
  lemma TrimEnds(s: string)
    ensures var t := Trim(s); t == [] || (!IsWhitespace(t[0]) && !IsWhitespace(t[|t| - 1]))
  {
    var u := TrimStart(s);
    var t := TrimEnd(u);
    assert t != [] ==> t[0] == u[0];
  }

  lemma TrimBlank(s: string, u: string, t: string)
    requires u == TrimStart(s) && t == TrimEnd(u)
    ensures t == [] <==> IsBlank(s)
  {
    // a non-empty u starts with a non-blank, which TrimEnd keeps
    assert u != [] ==> IsWhitespace(u[0]) == false;
    assert t == [] ==> u == [];
  }

  lemma TrimStartKeeps(s: string)
    requires s == [] || !IsWhitespace(s[0])
    ensures TrimStart(s) == s
  {
  }

  lemma TrimEndKeeps(s: string)
    requires s == [] || !IsWhitespace(s[|s| - 1])
    ensures TrimEnd(s) == s
  {
  }

  /** A single trailing whitespace character is dropped. */
  lemma TrimEndDropsOne(s: string)
    requires |s| >= 2 && IsWhitespace(s[|s| - 1]) && !IsWhitespace(s[|s| - 2])
    ensures TrimEnd(s) == s[..|s| - 1]
  {
    TrimEndKeeps(s[..|s| - 1]);
  }

  /** Trim leaves a string alone when neither end is whitespace. */
  lemma TrimKeeps(s: string)
    requires s != [] && !IsWhitespace(s[0]) && !IsWhitespace(s[|s| - 1])
    ensures Trim(s) == s
  {
    TrimStartKeeps(s);
    TrimEndKeeps(s);
  }

  /** Trim drops a single trailing whitespace character after a word. */
  lemma TrimDropsOne(s: string)
    requires |s| >= 2 && !IsWhitespace(s[0])
    requires IsWhitespace(s[|s| - 1]) && !IsWhitespace(s[|s| - 2])
    ensures Trim(s) == s[..|s| - 1]
  {
    TrimStartKeeps(s);
    TrimEndDropsOne(s);
  }

  /** The non-whitespace characters of `s`, in order. */
  function NonBlank(s: string): (t: string)
    ensures |t| <= |s|
    ensures forall i :: 0 <= i < |t| ==> !IsWhitespace(t[i])
    ensures IsBlank(s) <==> t == []
  {
    if s == [] then []
    else if IsWhitespace(s[0]) then NonBlank(s[1..])
    else [s[0]] + NonBlank(s[1..])
  }

  lemma {:induction false} NonBlankConcat(a: string, b: string)
    ensures NonBlank(a + b) == NonBlank(a) + NonBlank(b)
    decreases |a|
  {
    if a == [] {
      assert a + b == b;
    } else {
      assert (a + b)[0] == a[0] && (a + b)[1..] == a[1..] + b;
      NonBlankConcat(a[1..], b);
    }
  }

  /** Dropping leading whitespace keeps every other character. */
  lemma {:induction false} NonBlankTrimStart(s: string)
    ensures NonBlank(TrimStart(s)) == NonBlank(s)
    decreases |s|
  {
    if |s| > 0 && IsWhitespace(s[0]) {
      NonBlankTrimStart(s[1..]);
    }
  }

  /** Dropping trailing whitespace keeps every other character. */
  lemma {:induction false} NonBlankTrimEnd(s: string)
    ensures NonBlank(TrimEnd(s)) == NonBlank(s)
    decreases |s|
  {
    if |s| > 0 && IsWhitespace(s[|s| - 1]) {
      var p := s[..|s| - 1];
      NonBlankTrimEnd(p);
      assert s == p + [s[|s| - 1]];
      NonBlankConcat(p, [s[|s| - 1]]);
      assert NonBlank([s[|s| - 1]]) == [];
    }
  }

  /** Trim keeps every non-whitespace character, in order. */
  lemma NonBlankTrim(s: string)
    ensures NonBlank(Trim(s)) == NonBlank(s)
  {
    NonBlankTrimStart(s);
    NonBlankTrimEnd(TrimStart(s));
  }

  lemma SliceMembers(s: string, a: nat, b: nat)
    requires a <= b <= |s|
    ensures forall i :: 0 <= i < b - a ==> s[a..b][i] in s
  {
    forall i | 0 <= i < b - a ensures s[a..b][i] in s {
      assert s[a..b][i] == s[a + i];
    }
  }

  predicate IsUpper(c: char) {
    'A' <= c <= 'Z'
  }

  function ToLowerChar(c: char): (d: char)
    ensures !IsUpper(d)
    ensures IsUpper(c) ==> d as int == c as int + 32
    ensures !IsUpper(c) ==> d == c
  {
    if IsUpper(c) then (c as int + 32) as char else c
  }

  /** String.prototype.toLowerCase on ASCII letters. */
  function ToLower(s: string): (t: string)
    ensures |t| == |s|
    ensures forall i :: 0 <= i < |s| ==> t[i] == ToLowerChar(s[i])
  {
    seq(|s|, i requires 0 <= i < |s| => ToLowerChar(s[i]))
  }

  /** Lower-casing leaves a string without capitals as it is. */
  lemma LowerUnchanged(s: string)
    requires forall i :: 0 <= i < |s| ==> !IsUpper(s[i])
    ensures ToLower(s) == s
  {
  }

  /** String.prototype.startsWith. */
  function StartsWith(s: string, prefix: string): (b: bool)
    ensures b <==> |prefix| <= |s| && forall i :: 0 <= i < |prefix| ==> s[i] == prefix[i]
  {
    |prefix| <= |s| && s[..|prefix|] == prefix
  }

  /** A prefix of a prefix is a prefix. */
  lemma StartsWithTransitive(s: string, p: string, q: string)
    requires StartsWith(s, p) && StartsWith(p, q)
    ensures StartsWith(s, q)
  {
  }

  /** String.prototype.includes: `sub` occurs in `s` as a contiguous block,
      that is, it starts `s` or occurs in the rest of `s`. A string includes
      only blocks no longer than itself, and of its own length only itself. */
  function Includes(s: string, sub: string): (b: bool)
    ensures b ==> |sub| <= |s|
    ensures |sub| == |s| ==> (b <==> sub == s)
    decreases |s|
  {
    StartsWith(s, sub) || (s != [] && Includes(s[1..], sub))
  }

  /** `sub` occurs in `s` at index `i`. */
  predicate OccursAt(s: string, sub: string, i: int) {
    0 <= i <= |s| - |sub| && s[i..i + |sub|] == sub
  }

  /** The recursive definition agrees with "there is an index where the block occurs". */
  lemma {:induction false} IncludesAt(s: string, sub: string)
    ensures Includes(s, sub) <==> exists i :: OccursAt(s, sub, i)
    decreases |s|
  {
    if StartsWith(s, sub) {
      assert OccursAt(s, sub, 0);
    }
    if s != [] {
      IncludesAt(s[1..], sub);
      if Includes(s[1..], sub) {
        var i :| OccursAt(s[1..], sub, i);
        assert OccursAt(s, sub, i + 1) by {
          assert s[i + 1..i + 1 + |sub|] == s[1..][i..i + |sub|];
        }
      }
      if exists i :: OccursAt(s, sub, i) {
        var i :| OccursAt(s, sub, i);
        if i > 0 {
          assert OccursAt(s[1..], sub, i - 1) by {
            assert s[1..][i - 1..i - 1 + |sub|] == s[i..i + |sub|];
          }
        }
      }
    } else {
      if exists i :: OccursAt(s, sub, i) {
        var i :| OccursAt(s, sub, i);
        assert i == 0 && sub == [];
      }
    }
  }
}
