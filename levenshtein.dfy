/**
  Edit distance between two strings of UTF-16 code units, as computed by
  `levenshteinDistance` in static/app.js: a dynamic-programming table filled
  row by row. `Lev` is the textbook recursive definition (each cell is the
  least of a deletion, an insertion and a substitution that costs nothing
  when the characters agree); the method is proved to compute it.
*/
module Levenshtein {

  function Min3(a: nat, b: nat, c: nat): nat {
    if a <= b && a <= c then a else if b <= c then b else c
  }

  function SubstCost(x: char, y: char): nat {
    if x == y then 0 else 1
  }

  /** The Levenshtein distance between `a` and `b`, by recursion on the last characters. */
  function Lev(a: string, b: string): nat
    decreases |a| + |b|
  {
    if |a| == 0 then |b|
    else if |b| == 0 then |a|
    else
      Min3(Lev(a[..|a| - 1], b) + 1,
           Lev(a, b[..|b| - 1]) + 1,
           Lev(a[..|a| - 1], b[..|b| - 1]) + SubstCost(a[|a| - 1], b[|b| - 1]))
  }

  /** The row and column of the table that the source fills first: distance to the empty string. */
  lemma {:induction false} LevToEmpty(a: string)
    ensures Lev(a, []) == |a| && Lev([], a) == |a|
  {
  }

  /** Distance never falls below the difference of the lengths. */
  lemma {:induction false} LevLower(a: string, b: string)
    ensures Lev(a, b) >= |a| - |b| && Lev(a, b) >= |b| - |a|
    decreases |a| + |b|
  {
    if |a| > 0 && |b| > 0 {
      LevLower(a[..|a| - 1], b);
      LevLower(a, b[..|b| - 1]);
      LevLower(a[..|a| - 1], b[..|b| - 1]);
    }
  }

  /** Distance never exceeds the length of the longer string. */
  lemma {:induction false} LevUpper(a: string, b: string)
    ensures Lev(a, b) <= if |a| >= |b| then |a| else |b|
    decreases |a| + |b|
  {
    if |a| > 0 && |b| > 0 {
      LevUpper(a[..|a| - 1], b[..|b| - 1]);
    }
  }

  /** A string is at distance 0 from itself. */
  lemma {:induction false} LevSelf(a: string)
    ensures Lev(a, a) == 0
    decreases |a|
  {
    if |a| > 0 {
      LevSelf(a[..|a| - 1]);
    }
  }

  /** Distance 0 holds exactly for equal strings. */
  lemma {:induction false} LevZeroIff(a: string, b: string)
    ensures Lev(a, b) == 0 <==> a == b
  {
    if a == b {
      LevSelf(a);
    } else if Lev(a, b) == 0 {
      LevZeroEqual(a, b);
    }
  }

  lemma {:induction false} LevZeroEqual(a: string, b: string)
    requires Lev(a, b) == 0
    ensures a == b
    decreases |a| + |b|
  {
    if |a| > 0 && |b| > 0 {
      var a', b' := a[..|a| - 1], b[..|b| - 1];
      assert Lev(a', b') == 0 && a[|a| - 1] == b[|b| - 1];
      LevZeroEqual(a', b');
      assert a == a' + [a[|a| - 1]] && b == b' + [b[|b| - 1]];
    }
  }

  /** The distance is symmetric. */
  lemma {:induction false} LevSymmetric(a: string, b: string)
    ensures Lev(a, b) == Lev(b, a)
    decreases |a| + |b|
  {
    if |a| > 0 && |b| > 0 {
      LevSymmetric(a[..|a| - 1], b);
      LevSymmetric(a, b[..|b| - 1]);
      LevSymmetric(a[..|a| - 1], b[..|b| - 1]);
    }
  }

  /** Dropping the last character of the second string raises the distance by at most one. */
  lemma {:induction false} LevDropRight(a: string, b: string)
    requires |b| > 0
    ensures Lev(a, b[..|b| - 1]) <= Lev(a, b) + 1
    decreases |a|
  {
    var b' := b[..|b| - 1];
    if |a| == 0 {
    } else if |b'| == 0 {
      LevLower(a, b);
    } else {
      var a' := a[..|a| - 1];
      LevDropRight(a', b);
    }
  }

  /**
    When the last characters agree the diagonal cell alone is the distance,
    which is the shortcut the source's table takes.
  */
  lemma LevMatchShortcut(a: string, b: string)
    requires |a| > 0 && |b| > 0 && a[|a| - 1] == b[|b| - 1]
    ensures Lev(a, b) == Lev(a[..|a| - 1], b[..|b| - 1])
  {
    var a', b' := a[..|a| - 1], b[..|b| - 1];
    LevDropRight(a', b);
    LevDropRight(b', a);
    LevSymmetric(b', a');
    LevSymmetric(b', a);
  }

  /** The distance between the first `i` characters of `s1` and the first `j` of `s2`. */
  function Cell(s1: string, s2: string, i: nat, j: nat): nat
    requires i <= |s1| && j <= |s2|
  {
    Lev(s1[..i], s2[..j])
  }

  /** One interior cell of the table, in the order the source's recurrence writes it. */
  lemma CellStep(s1: string, s2: string, i: nat, j: nat)
    requires 0 < i <= |s1| && 0 < j <= |s2|
    ensures Cell(s1, s2, i, j) ==
      if s1[i - 1] == s2[j - 1] then Cell(s1, s2, i - 1, j - 1)
      else Min3(Cell(s1, s2, i - 1, j - 1) + 1, Cell(s1, s2, i, j - 1) + 1, Cell(s1, s2, i - 1, j) + 1)
  {
    var a, b := s1[..i], s2[..j];
    assert a[..i - 1] == s1[..i - 1] && b[..j - 1] == s2[..j - 1];
    assert a[i - 1] == s1[i - 1] && b[j - 1] == s2[j - 1];
    if s1[i - 1] == s2[j - 1] {
      LevMatchShortcut(a, b);
    }
  }

  /**
    The source's `levenshteinDistance`: an (|s1|+1) x (|s2|+1) table whose
    first column and first row hold their index, filled by two nested loops.
  */
  method LevenshteinDistance(s1: string, s2: string) returns (d: nat)
    ensures d == Lev(s1, s2)
  {
    var len1, len2 := |s1|, |s2|;
    var matrix := new nat[len1 + 1, len2 + 1];
    for i := 0 to len1 + 1
      invariant forall r :: 0 <= r < i ==> matrix[r, 0] == r
    {
      matrix[i, 0] := i;
    }
    for j := 0 to len2 + 1
      invariant forall r :: 0 < r <= len1 ==> matrix[r, 0] == r
      invariant forall c :: 0 <= c < j ==> matrix[0, c] == c
    {
      matrix[0, j] := j;
    }
    forall c | 0 <= c <= len2 ensures matrix[0, c] == Cell(s1, s2, 0, c) {
      LevToEmpty(s2[..c]);
    }
    for i := 1 to len1 + 1
      invariant forall r, c :: 0 <= r < i && 0 <= c <= len2 ==> matrix[r, c] == Cell(s1, s2, r, c)
      invariant forall r :: i <= r <= len1 ==> matrix[r, 0] == r
    {
      LevToEmpty(s1[..i]);
      assert matrix[i, 0] == Cell(s1, s2, i, 0);
      for j := 1 to len2 + 1
        invariant forall r, c :: 0 <= r < i && 0 <= c <= len2 ==> matrix[r, c] == Cell(s1, s2, r, c)
        invariant forall c :: 0 <= c < j ==> matrix[i, c] == Cell(s1, s2, i, c)
        invariant forall r :: i < r <= len1 ==> matrix[r, 0] == r
      {
        CellStep(s1, s2, i, j);
        if s1[i - 1] == s2[j - 1] {
          matrix[i, j] := matrix[i - 1, j - 1];
        } else {
          matrix[i, j] := Min3(matrix[i - 1, j - 1] + 1, matrix[i, j - 1] + 1, matrix[i - 1, j] + 1);
        }
      }
    }
    assert s1[..len1] == s1 && s2[..len2] == s2;
    d := matrix[len1, len2];
  }
}
