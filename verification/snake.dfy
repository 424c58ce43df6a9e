/**
  `toSnakeCase` of `utils.go`, over ASCII strings: every uppercase letter is
  lowercased, and an underscore goes before it when it is not the first
  character and its left or right neighbour is a lowercase letter.
 */
module Snake {

  import opened Strings

  /** An underscore is written before position `i`. */
  predicate BreaksAt(s: string, i: nat)
    requires i < |s|
  {
    IsUpper(s[i]) && i > 0 && (IsLower(s[i - 1]) || (i < |s| - 1 && IsLower(s[i + 1])))
  }

  /** What the loop writes for position `i`. */
  function Piece(s: string, i: nat): (r: string)
    requires i < |s|
    ensures |r| == (if BreaksAt(s, i) then 2 else 1)
  {
    if IsUpper(s[i]) then (if BreaksAt(s, i) then "_" else "") + [ToLower(s[i])]
    else [s[i]]
  }

  /** The output for the first `n` characters. */
  function SnakePrefix(s: string, n: nat): string
    requires n <= |s|
  {
    if n == 0 then "" else SnakePrefix(s, n - 1) + Piece(s, n - 1)
  }

  /** The number of underscores written for the first `n` characters. */
  function BreakCount(s: string, n: nat): nat
    requires n <= |s|
  {
    if n == 0 then 0 else BreakCount(s, n - 1) + (if BreaksAt(s, n - 1) then 1 else 0)
  }

  /** The converted string, as a function (what `ToSnakeCase` returns). */
  function SnakeCase(s: string): string {
    SnakePrefix(s, |s|)
  }

  predicate NoUpper(s: string) {
    forall i :: 0 <= i < |s| ==> !IsUpper(s[i])
  }

  /**
    `toSnakeCase`, written as the source's loop. Its result has no uppercase
    letters and is as long as the input plus the underscores written.
   */
  method ToSnakeCase(s: string) returns (r: string)
    ensures s == "" ==> r == ""
    ensures r == SnakePrefix(s, |s|)
    ensures |r| == |s| + BreakCount(s, |s|)
    ensures NoUpper(r)
  {
    if s == "" {
      return "";
    }
    r := "";
    var i := 0;
    while i < |s|
      invariant 0 <= i <= |s|
      invariant r == SnakePrefix(s, i)
    {
      var c := s[i];
      var piece: string;
      if IsUpper(c) {
        piece := "";
        if i > 0 {
          var prevIsLower := IsLower(s[i - 1]);
          var nextIsLower := i < |s| - 1 && IsLower(s[i + 1]);
          if prevIsLower || nextIsLower {
            piece := "_";
          }
        }
        piece := piece + [ToLower(c)];
      } else {
        piece := [c];
      }
      assert piece == Piece(s, i);
      r := r + piece;
      i := i + 1;
    }
    SnakeLength(s, |s|);
    SnakeHasNoUpper(s, |s|);
  }

  /** The output never contains an uppercase letter. */
  lemma {:induction false} SnakeHasNoUpper(s: string, n: nat)
    requires n <= |s|
    ensures NoUpper(SnakePrefix(s, n))
  {
    if n > 0 {
      SnakeHasNoUpper(s, n - 1);
    }
  }

  /** A string without uppercase letters is copied unchanged. */
  lemma {:induction false} SnakeIdentity(s: string, n: nat)
    requires n <= |s| && NoUpper(s)
    ensures SnakePrefix(s, n) == s[..n]
  {
    if n > 0 {
      SnakeIdentity(s, n - 1);
      assert s[..n] == s[..n - 1] + [s[n - 1]];
    }
  }

  /** Converting twice is converting once. */
  lemma SnakeIdempotent(s: string)
    ensures var once := SnakePrefix(s, |s|);
            SnakePrefix(once, |once|) == once
  {
    var once := SnakePrefix(s, |s|);
    SnakeHasNoUpper(s, |s|);
    SnakeIdentity(once, |once|);
    assert once[..|once|] == once;
  }

  lemma {:induction false} SnakeLength(s: string, n: nat)
    requires n <= |s|
    ensures |SnakePrefix(s, n)| == n + BreakCount(s, n)
  {
    if n > 0 {
      SnakeLength(s, n - 1);
    }
  }

  lemma {:induction false} SnakePrefixGrows(s: string, n: nat, m: nat)
    requires n <= m <= |s|
    ensures SnakePrefix(s, n) <= SnakePrefix(s, m)
    decreases m - n
  {
    if n < m {
      SnakePrefixGrows(s, n, m - 1);
    }
  }

  /**
    Where each input character lands: character `i` starts at offset
    `i + (underscores written before it)`, and that offset holds an underscore
    exactly when `BreaksAt(s, i)`, followed by the lowercased letter.
   */
  lemma SnakePosition(s: string, i: nat)
    requires i < |s|
    ensures var out := SnakePrefix(s, |s|);
            var at := i + BreakCount(s, i);
            at + (if BreaksAt(s, i) then 1 else 0) < |out| &&
            out[at] == (if BreaksAt(s, i) then '_' else ToLower(s[i])) &&
            (BreaksAt(s, i) ==> out[at + 1] == ToLower(s[i]))
  {
    var out := SnakePrefix(s, |s|);
    var before := SnakePrefix(s, i);
    var upto := SnakePrefix(s, i + 1);
    SnakeLength(s, i);
    SnakeLength(s, i + 1);
    SnakePrefixGrows(s, i + 1, |s|);
    assert upto == before + Piece(s, i);
    assert upto[i + BreakCount(s, i)] == Piece(s, i)[0];
    if BreaksAt(s, i) {
      assert upto[i + BreakCount(s, i) + 1] == Piece(s, i)[1];
    }
  }

  /** The documented example and a two-word type name. */
  lemma SnakeExamples()
    ensures SnakePrefix("UserID", 6) == "user_id"
    ensures SnakePrefix("PostTag", 7) == "post_tag"
  {
    assert BreaksAt("UserID", 4) && !BreaksAt("UserID", 5) && !BreaksAt("UserID", 0);
    assert BreaksAt("PostTag", 4) && !BreaksAt("PostTag", 0);
  }

  /** The first character never gets an underscore before it. */
  lemma NoLeadingBreak(s: string)
    requires |s| > 0
    ensures SnakePrefix(s, 1) == [ToLower(s[0])]
    ensures |SnakePrefix(s, 1)| == 1
  {
  }
}
