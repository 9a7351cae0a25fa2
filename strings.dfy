/**
  The few functions of Go's `strings` package that the core relies on:
  `strings.Split` with a one-character separator, `strings.TrimSpace` and
  `strings.ToLower`, with the properties the rest of the model needs.
*/
module Strings {

  /** Go's `unicode.IsSpace`: the characters `strings.TrimSpace` removes. */
  predicate IsSpace(c: char) {
    c == ' ' || c == '\t' || c == '\n' || c == '\U{B}' || c == '\U{C}' || c == '\r'
    || c == '\U{85}' || c == '\U{A0}' || c == '\U{1680}'
    || ('\U{2000}' <= c <= '\U{200A}')
    || c == '\U{2028}' || c == '\U{2029}' || c == '\U{202F}' || c == '\U{205F}' || c == '\U{3000}'
  }

  ghost predicate SpaceOnly(s: string) {
    forall i :: 0 <= i < |s| ==> IsSpace(s[i])
  }

  /** Neither end of `s` is white space. */
  ghost predicate Tight(s: string) {
    s == [] || (!IsSpace(s[0]) && !IsSpace(s[|s| - 1]))
  }

  /** Number of occurrences of `c` in `s`. */
  function Count(s: string, c: char): nat {
    if s == [] then 0 else (if s[0] == c then 1 else 0) + Count(s[1..], c)
  }

  // ---------------------------------------------------------------- Split

  /**
    `strings.Split(s, sep)` for a one-character separator: the pieces of `s`
    between the occurrences of `sep`; the empty string gives one empty piece.
  */
  function Split(s: string, sep: char): (parts: seq<string>)
    ensures |parts| == Count(s, sep) + 1
  {
    if s == [] then [[]]
    else
      var rest := Split(s[1..], sep);
      if s[0] == sep then [[]] + rest else [[s[0]] + rest[0]] + rest[1..]
  }

  /** `strings.Join(parts, string(sep))`, the inverse of `Split`. */
  function Join(parts: seq<string>, sep: char): string
    decreases |parts|
  {
    if parts == [] then []
    else if |parts| == 1 then parts[0]
    else parts[0] + [sep] + Join(parts[1..], sep)
  }

  lemma {:induction false} CountZero(s: string, c: char)
    ensures Count(s, c) == 0 <==> c !in s
  {
    if s != [] {
      CountZero(s[1..], c);
      assert s == [s[0]] + s[1..];
    }
  }

  /** No piece returned by `Split` contains the separator. */
  lemma {:induction false} SplitPiecesHaveNoSep(s: string, sep: char)
    ensures forall i :: 0 <= i < |Split(s, sep)| ==> sep !in Split(s, sep)[i]
  {
    if s != [] {
      SplitPiecesHaveNoSep(s[1..], sep);
    }
  }

  /** Joining the pieces back gives the original string. */
  lemma {:induction false} JoinSplit(s: string, sep: char)
    ensures Join(Split(s, sep), sep) == s
  {
    if s != [] {
      var rest := Split(s[1..], sep);
      JoinSplit(s[1..], sep);
      if s[0] == sep {
        assert Split(s, sep) == [[]] + rest;
        assert ([[]] + rest)[1..] == rest;
        assert Join([[]] + rest, sep) == [] + [sep] + Join(rest, sep);
      } else {
        var parts := [[s[0]] + rest[0]] + rest[1..];
        assert Split(s, sep) == parts;
        if |rest| == 1 {
          assert Join(parts, sep) == [s[0]] + rest[0];
        } else {
          assert parts[1..] == rest[1..];
          assert Join(rest, sep) == rest[0] + [sep] + Join(rest[1..], sep);
          assert Join(parts, sep) == [s[0]] + rest[0] + [sep] + Join(rest[1..], sep);
        }
        assert s == [s[0]] + s[1..];
      }
    }
  }

  lemma {:induction false} SplitNoSep(p: string, sep: char)
    requires sep !in p
    ensures Split(p, sep) == [p]
  {
    if p != [] {
      SplitNoSep(p[1..], sep);
      assert [p[0]] + p[1..] == p;
    }
  }

  lemma {:induction false} SplitAfterPiece(p: string, rest: string, sep: char)
    requires sep !in p
    ensures Split(p + [sep] + rest, sep) == [p] + Split(rest, sep)
  {
    if p == [] {
      assert p + [sep] + rest == [sep] + rest;
      assert ([sep] + rest)[1..] == rest;
    } else {
      var s := p + [sep] + rest;
      assert s[0] == p[0];
      assert s[1..] == p[1..] + [sep] + rest;
      SplitAfterPiece(p[1..], rest, sep);
      assert [p[0]] + p[1..] == p;
    }
  }

  /** Splitting a join of separator-free pieces gives the pieces back. */
  lemma {:induction false} SplitJoin(parts: seq<string>, sep: char)
    requires |parts| >= 1
    requires forall i :: 0 <= i < |parts| ==> sep !in parts[i]
    ensures Split(Join(parts, sep), sep) == parts
  {
    if |parts| == 1 {
      SplitNoSep(parts[0], sep);
    } else {
      SplitJoin(parts[1..], sep);
      SplitAfterPiece(parts[0], Join(parts[1..], sep), sep);
      assert [parts[0]] + parts[1..] == parts;
    }
  }

  /** A string splits into at least two pieces exactly when it holds the separator. */
  lemma SplitInTwo(s: string, sep: char)
    ensures |Split(s, sep)| >= 2 <==> sep in s
  {
    CountZero(s, sep);
  }

  // ------------------------------------------------------------- TrimSpace

  /** Number of white-space characters at the start of `s`. */
  function Leading(s: string): (n: nat)
    ensures n <= |s|
    ensures forall i :: 0 <= i < n ==> IsSpace(s[i])
    ensures n < |s| ==> !IsSpace(s[n])
  {
    if s != [] && IsSpace(s[0]) then 1 + Leading(s[1..]) else 0
  }

  /** Number of white-space characters at the end of `s`. */
  function Trailing(s: string): (n: nat)
    ensures n <= |s|
    ensures forall i :: |s| - n <= i < |s| ==> IsSpace(s[i])
    ensures n < |s| ==> !IsSpace(s[|s| - 1 - n])
  {
    if s != [] && IsSpace(s[|s| - 1]) then 1 + Trailing(s[..|s| - 1]) else 0
  }

  /**
    `strings.TrimSpace`: `s` without its leading and trailing white space.
    The result is the slice of `s` starting after the leading white space,
    everything of `s` outside that slice is white space, and the result is
    empty exactly when `s` is all white space.
  */
  function TrimSpace(s: string): (r: string)
    ensures Tight(r)
    ensures r == [] <==> SpaceOnly(s)
    ensures Leading(s) + |r| <= |s| && r == s[Leading(s)..Leading(s) + |r|]
    ensures forall i :: 0 <= i < |s| && !(Leading(s) <= i < Leading(s) + |r|) ==> IsSpace(s[i])
  {
    var a := Leading(s);
    if a == |s| then []
    else
      var b := |s| - Trailing(s);
      assert a < b;
      s[a..b]
  }

  /** Trimming a string with no white space at either end changes nothing. */
  lemma TrimTight(s: string)
    requires Tight(s)
    ensures TrimSpace(s) == s
  {
    assert s != [] ==> Leading(s) == 0 && Trailing(s) == 0;
  }

  /** The leading white space of `pre + s` is `pre` when `s` does not start with white space. */
  lemma {:induction false} LeadingOfSpacePrefix(pre: string, s: string)
    requires SpaceOnly(pre) && (s == [] || !IsSpace(s[0]))
    ensures Leading(pre + s) == |pre|
    decreases |pre|
  {
    if pre == [] {
      assert pre + s == s;
    } else {
      assert (pre + s)[1..] == pre[1..] + s;
      LeadingOfSpacePrefix(pre[1..], s);
    }
  }

  /** A string whose first `k` characters are white space and whose rest is tight trims to that rest. */
  lemma TrimSpacePrefix(s: string, k: nat)
    requires k < |s| && SpaceOnly(s[..k]) && Tight(s[k..])
    ensures TrimSpace(s) == s[k..]
  {
    assert s == s[..k] + s[k..];
    LeadingOfSpacePrefix(s[..k], s[k..]);
    assert s[|s| - 1] == s[k..][|s| - k - 1];
    assert Trailing(s) == 0;
  }

  // --------------------------------------------------------------- ToLower

  /** Lower-cases the ASCII letters 'A'..'Z'; every other character is kept. */
  function LowerChar(c: char): (d: char)
    ensures ('A' <= c <= 'Z') ==> 'a' <= d <= 'z' && d as int == c as int + 32
    ensures !('A' <= c <= 'Z') ==> d == c
  {
    if 'A' <= c <= 'Z' then (c as int + 32) as char else c
  }

  ghost predicate NoUpper(s: string) {
    forall i :: 0 <= i < |s| ==> !('A' <= s[i] <= 'Z')
  }

  /** `strings.ToLower`, character by character. */
  function ToLower(s: string): (r: string)
    ensures |r| == |s|
    ensures forall i :: 0 <= i < |s| ==> r[i] == LowerChar(s[i])
    ensures NoUpper(r)
  {
    if s == [] then [] else [LowerChar(s[0])] + ToLower(s[1..])
  }

  /** Lower-casing keeps white space where it was and keeps non-space non-space. */
  lemma ToLowerKeepsSpace(s: string)
    ensures Tight(s) ==> Tight(ToLower(s))
    ensures s != [] <==> ToLower(s) != []
  {
  }

  lemma ToLowerIdempotent(s: string)
    ensures ToLower(ToLower(s)) == ToLower(s)
  {
  }

  /** A string with no upper-case letter is its own lower-case form. */
  lemma ToLowerOfLower(s: string)
    requires NoUpper(s)
    ensures ToLower(s) == s
  {
  }
}
