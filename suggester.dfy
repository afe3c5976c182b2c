/**
  The category suggester of static/app.js (`similarity`, `findSimilarCategory`
  and the filtering half of `populateList`, all inside
  `setupSearchableDropdown`): a type-ahead list of the known category names
  that contain the typed text, and, when that list is empty, a
  "did you mean" suggestion of the most similar name.
*/
module Suggester {
  import opened Wrappers
  import opened Levenshtein

  /** Acceptance threshold of a suggestion (`bestScore >= 0.7`). */
  const Threshold: real := 0.7
  /** Shortest input the suggester looks at (`inputValue.length < 2`). */
  const MinLength: nat := 2

  /**
    `String.prototype.toLowerCase` on one UTF-16 code unit, for the letters of
    Basic Latin, Latin-1 and Latin Extended-A (which hold every Turkish
    letter); dotted capital I becomes two code units, "i" and a combining dot.
  */
  function LowerUnit(c: char): (r: string)
    ensures 1 <= |r| <= 2
    ensures |r| == 2 <==> c as int == 0x130
    ensures 'a' <= c <= 'z' ==> r == [c]
  {
    var n := c as int;
    if 0x41 <= n <= 0x5A then [(n + 32) as char]
    else if (0xC0 <= n <= 0xDE && n != 0xD7) then [(n + 32) as char]
    else if n == 0x130 then ['i', 0x307 as char]
    else if n == 0x178 then [0xFF as char]
    else if (0x100 <= n <= 0x12F || 0x132 <= n <= 0x137 || 0x14A <= n <= 0x177) && n % 2 == 0 then [(n + 1) as char]
    else if (0x139 <= n <= 0x148 || 0x179 <= n <= 0x17E) && n % 2 == 1 then [(n + 1) as char]
    else [c]
  }

  /** `toLowerCase` on a string: each code unit folded in turn. */
  function Lower(s: string): (r: string)
    ensures |r| >= |s|
  {
    if s == [] then [] else LowerUnit(s[0]) + Lower(s[1..])
  }

  /** Lower-casing works code unit by code unit, so it distributes over concatenation. */
  lemma {:induction false} LowerAppend(a: string, b: string)
    ensures Lower(a + b) == Lower(a) + Lower(b)
  {
    if a == [] {
      assert a + b == b;
    } else {
      assert (a + b)[0] == a[0] && (a + b)[1..] == a[1..] + b;
      LowerAppend(a[1..], b);
    }
  }

  /**
    The folding table: each capital of Basic Latin and Latin-1 becomes its
    small letter, and so do the Turkish capitals. As in JavaScript, which
    does not look at the locale, `I` becomes `i`, `İ` becomes `i` followed
    by a combining dot, and the dotless `ı` stays.
  */
  lemma LowerUnitTable()
    ensures LowerUnit('A') == "a" && LowerUnit('B') == "b" && LowerUnit('C') == "c" && LowerUnit('D') == "d" && LowerUnit('E') == "e" && LowerUnit('F') == "f" && LowerUnit('G') == "g" && LowerUnit('H') == "h" && LowerUnit('I') == "i" && LowerUnit('J') == "j" && LowerUnit('K') == "k" && LowerUnit('L') == "l" && LowerUnit('M') == "m"
    ensures LowerUnit('N') == "n" && LowerUnit('O') == "o" && LowerUnit('P') == "p" && LowerUnit('Q') == "q" && LowerUnit('R') == "r" && LowerUnit('S') == "s" && LowerUnit('T') == "t" && LowerUnit('U') == "u" && LowerUnit('V') == "v" && LowerUnit('W') == "w" && LowerUnit('X') == "x" && LowerUnit('Y') == "y" && LowerUnit('Z') == "z"
    ensures LowerUnit('À') == "à" && LowerUnit('Á') == "á" && LowerUnit('Â') == "â" && LowerUnit('Ã') == "ã" && LowerUnit('Ä') == "ä" && LowerUnit('Å') == "å" && LowerUnit('Æ') == "æ" && LowerUnit('Ç') == "ç" && LowerUnit('È') == "è" && LowerUnit('É') == "é"
    ensures LowerUnit('Ê') == "ê" && LowerUnit('Ë') == "ë" && LowerUnit('Ì') == "ì" && LowerUnit('Í') == "í" && LowerUnit('Î') == "î" && LowerUnit('Ï') == "ï" && LowerUnit('Ð') == "ð" && LowerUnit('Ñ') == "ñ" && LowerUnit('Ò') == "ò" && LowerUnit('Ó') == "ó"
    ensures LowerUnit('Ô') == "ô" && LowerUnit('Õ') == "õ" && LowerUnit('Ö') == "ö" && LowerUnit('Ø') == "ø" && LowerUnit('Ù') == "ù" && LowerUnit('Ú') == "ú" && LowerUnit('Û') == "û" && LowerUnit('Ü') == "ü" && LowerUnit('Ý') == "ý" && LowerUnit('Þ') == "þ"
    ensures LowerUnit('Ç') == "ç" && LowerUnit('Ğ') == "ğ" && LowerUnit('Ö') == "ö" && LowerUnit('Ş') == "ş" && LowerUnit('Ü') == "ü" && LowerUnit('I') == "i"
    ensures LowerUnit('İ') == "i\U{0307}" && LowerUnit('ı') == "ı"
  {
  }

  /** Every code unit `LowerUnit` produces is already lower case. */
  lemma LowerUnitFolded(c: char)
    ensures forall k :: 0 <= k < |LowerUnit(c)| ==> LowerUnit(LowerUnit(c)[k]) == [LowerUnit(c)[k]]
  {
  }

  /** Lower-casing what `LowerUnit` produced changes nothing. */
  lemma LowerOfUnit(c: char)
    ensures Lower(LowerUnit(c)) == LowerUnit(c)
  {
    var u := LowerUnit(c);
    LowerUnitFolded(c);
    if |u| == 1 {
      assert Lower(u) == LowerUnit(u[0]) + Lower(u[1..]);
    } else {
      assert Lower(u[1..]) == LowerUnit(u[1]) + Lower(u[2..]);
    }
  }

  /** Lower-casing twice is lower-casing once. */
  lemma {:induction false} LowerIdempotent(s: string)
    ensures Lower(Lower(s)) == Lower(s)
  {
    if s != [] {
      LowerAppend(LowerUnit(s[0]), Lower(s[1..]));
      LowerOfUnit(s[0]);
      LowerIdempotent(s[1..]);
    }
  }

  /**
    The source's `similarity`: 1 for two empty strings, otherwise the share of
    the longer string's length that the edit distance leaves over.
  */
  function Similarity(s1: string, s2: string): (r: real)
    ensures 0.0 <= r <= 1.0
  {
    var longer := if |s1| > |s2| then s1 else s2;
    var shorter := if |s1| > |s2| then s2 else s1;
    var longerLength := |longer|;
    if longerLength == 0 then 1.0
    else
      LevUpper(longer, shorter);
      Ratio(longerLength - Lev(longer, shorter), longerLength)
  }

  /** `num / den` as an exact real. */
  function Ratio(num: nat, den: nat): (r: real)
    requires 0 < den && num <= den
    ensures 0.0 <= r <= 1.0
    ensures r == 1.0 <==> num == den
  {
    var r := num as real / den as real;
    assert r * den as real == num as real;
    r
  }

  /** Away from two empty strings, the score is (L - d) / L for the longer length L. */
  lemma SimilarityValue(s1: string, s2: string)
    requires |s1| > 0 || |s2| > 0
    ensures var L := if |s1| >= |s2| then |s1| else |s2|;
            Similarity(s1, s2) == (L - Lev(s1, s2)) as real / L as real
  {
    LevSymmetric(s1, s2);
    LevUpper(s1, s2);
  }

  /** A score of exactly 1 means the strings are equal, and equal strings score 1. */
  lemma SimilarityOneIff(s1: string, s2: string)
    ensures Similarity(s1, s2) == 1.0 <==> s1 == s2
  {
    LevZeroIff(s1, s2);
    LevSymmetric(s1, s2);
  }

  /** The score does not depend on the order of the arguments. */
  lemma SimilaritySymmetric(s1: string, s2: string)
    ensures Similarity(s1, s2) == Similarity(s2, s1)
  {
    LevSymmetric(s1, s2);
  }

  /** The score of a category name against the lower-cased input. */
  function Score(query: string, name: string): real {
    Similarity(query, Lower(name))
  }

  /** Best score so far and the position of the entry that holds it (`bestScore`, `bestMatch`). */
  datatype Best = Best(score: real, at: Option<nat>)

  /**
    The forEach of `findSimilarCategory` over `names`: an entry replaces the
    best one when it scores strictly higher and below 1.
  */
  function BestOf(query: string, names: seq<string>): (b: Best)
    ensures 0.0 <= b.score < 1.0
    ensures b.at.None? <==> b.score == 0.0
    ensures b.at.Some? ==> b.at.value < |names| && b.score == Score(query, names[b.at.value])
    decreases |names|
  {
    if names == [] then Best(0.0, None)
    else
      var prev := BestOf(query, names[..|names| - 1]);
      var score := Score(query, names[|names| - 1]);
      if score > prev.score && score < 1.0 then Best(score, Some(|names| - 1)) else prev
  }

  /**
    The scan finds the highest score below 1 (0 and no position when no entry
    scores above 0), held by the earliest entry that reaches it.
  */
  lemma {:induction false} BestOfSpec(query: string, names: seq<string>)
    ensures var b := BestOf(query, names);
      forall j :: 0 <= j < |names| && Score(query, names[j]) < 1.0 ==> Score(query, names[j]) <= b.score
    ensures var b := BestOf(query, names);
      b.at.Some? ==> forall j :: 0 <= j < b.at.value ==> Score(query, names[j]) < b.score || Score(query, names[j]) == 1.0
    decreases |names|
  {
    if names != [] {
      var prefix := names[..|names| - 1];
      BestOfSpec(query, prefix);
      assert forall j :: 0 <= j < |prefix| ==> prefix[j] == names[j];
    }
  }

  /** A suggestion: the original-case name and its score. */
  datatype Suggestion = Suggestion(name: string, score: real)

  /** What `findSimilarCategory(input)` returns for the category list `names`. */
  function Suggest(input: string, names: seq<string>): (r: Option<Suggestion>)
    ensures |input| < MinLength ==> r.None?
    ensures r.Some? ==> r.value.name in names && Threshold <= r.value.score < 1.0
  {
    if |input| < MinLength then None
    else
      var b := BestOf(Lower(input), names);
      if b.score >= Threshold then Some(Suggestion(names[b.at.value], b.score)) else None
  }

  /**
    What the suggester promises: nothing for an input shorter than two code
    units or an empty list; otherwise a suggestion exactly when some entry
    that is not a case-insensitive exact match scores at least 0.7, and then
    the earliest such entry with the highest score.
  */
  lemma SuggestSpec(input: string, names: seq<string>)
    ensures |input| < MinLength || names == [] ==> Suggest(input, names).None?
    ensures Suggest(input, names).None? && |input| >= MinLength ==>
      forall j :: 0 <= j < |names| && Lower(names[j]) != Lower(input) ==> Score(Lower(input), names[j]) < Threshold
    ensures Suggest(input, names).Some? ==>
      var s := Suggest(input, names).value;
      exists k :: 0 <= k < |names| && names[k] == s.name
        && s.score == Score(Lower(input), names[k])
        && Threshold <= s.score < 1.0
        && Lower(s.name) != Lower(input)
        && (forall j :: 0 <= j < |names| && Lower(names[j]) != Lower(input) ==> Score(Lower(input), names[j]) <= s.score)
        && (forall j :: 0 <= j < k ==> Score(Lower(input), names[j]) < s.score || Lower(names[j]) == Lower(input))
  {
    var q := Lower(input);
    BestOfSpec(q, names);
    forall j | 0 <= j < |names| ensures Score(q, names[j]) == 1.0 <==> Lower(names[j]) == q {
      SimilarityOneIff(q, Lower(names[j]));
    }
  }

  /**
    The source's `findSimilarCategory`: lower-case the input once, scan the
    list keeping the strictly best score below 1, then apply the threshold.
  */
  method FindSimilarCategory(inputValue: string, kategoriler: seq<string>) returns (r: Option<Suggestion>)
    ensures r == Suggest(inputValue, kategoriler)
  {
    if |inputValue| < MinLength {
      return None;
    }
    var inputLower := Lower(inputValue);
    var bestMatch: Option<string> := None;
    var bestScore: real := 0.0;
    for i := 0 to |kategoriler|
      invariant var b := BestOf(inputLower, kategoriler[..i]);
        bestScore == b.score
        && (b.at.None? ==> bestMatch.None?)
        && (b.at.Some? ==> bestMatch == Some(kategoriler[b.at.value]))
    {
      assert kategoriler[..i + 1][..i] == kategoriler[..i];
      var score := Similarity(inputLower, Lower(kategoriler[i]));
      if score > bestScore && score < 1.0 {
        bestScore := score;
        bestMatch := Some(kategoriler[i]);
      }
    }
    assert kategoriler[..|kategoriler|] == kategoriler;
    r := if bestScore >= Threshold then Some(Suggestion(bestMatch.value, bestScore)) else None;
  }

  /** `String.prototype.includes`: `sub` occurs in `s` at some position. */
  predicate Includes(s: string, sub: string)
    decreases |s|
  {
    (|sub| <= |s| && s[..|sub|] == sub) || (|s| > 0 && Includes(s[1..], sub))
  }

  /** `sub` occurs in `s` starting at position `i`. */
  predicate OccursAt(s: string, sub: string, i: int) {
    0 <= i && i + |sub| <= |s| && s[i..i + |sub|] == sub
  }

  /** `Includes` holds exactly when `sub` occurs in `s` at some position. */
  lemma {:induction false} IncludesIff(s: string, sub: string)
    ensures Includes(s, sub) <==> exists i :: OccursAt(s, sub, i)
    decreases |s|
  {
    if |sub| <= |s| && s[..|sub|] == sub {
      assert OccursAt(s, sub, 0);
    } else if |s| > 0 {
      IncludesIff(s[1..], sub);
      if Includes(s[1..], sub) {
        var i :| OccursAt(s[1..], sub, i);
        assert s[i + 1..i + 1 + |sub|] == s[1..][i..i + |sub|];
        assert OccursAt(s, sub, i + 1);
      }
      if exists i :: OccursAt(s, sub, i) {
        var i :| OccursAt(s, sub, i);
        assert i != 0;
        assert s[1..][i - 1..i - 1 + |sub|] == s[i..i + |sub|];
        assert OccursAt(s[1..], sub, i - 1);
      }
    }
  }

  /** Whether a category name stays in the list for the typed `filter`. */
  predicate Matches(name: string, filter: string) {
    Includes(Lower(name), Lower(filter))
  }

  /** `kategoriler.filter(kat => kat.ad.toLowerCase().includes(filter.toLowerCase()))`. */
  function Filter(names: seq<string>, filter: string): (r: seq<string>)
    ensures |r| <= |names|
    ensures forall x :: x in r <==> x in names && Matches(x, filter)
  {
    if names == [] then []
    else (if Matches(names[0], filter) then [names[0]] else []) + Filter(names[1..], filter)
  }

  /** Filtering keeps order: it distributes over concatenation. */
  lemma {:induction false} FilterAppend(a: seq<string>, b: seq<string>, filter: string)
    ensures Filter(a + b, filter) == Filter(a, filter) + Filter(b, filter)
  {
    if a == [] {
      assert a + b == b;
    } else {
      assert (a + b)[0] == a[0] && (a + b)[1..] == a[1..] + b;
      FilterAppend(a[1..], b, filter);
    }
  }

  /** An empty filter keeps every name, in order. */
  lemma {:induction false} FilterEmptyKeepsAll(names: seq<string>)
    ensures Filter(names, []) == names
  {
    if names != [] {
      assert Matches(names[0], []);
      FilterEmptyKeepsAll(names[1..]);
    }
  }

  /** What the drop-down shows: the filtered names and possibly one suggestion. */
  datatype Listing = Listing(shown: seq<string>, suggestion: Option<Suggestion>)

  /** The decision part of `populateList(filter)`; the DOM work is not modelled. */
  function PopulateList(names: seq<string>, filter: string): (r: Listing)
    ensures forall x :: x in r.shown <==> x in names && Matches(x, filter)
    ensures r.suggestion.Some? ==> r.shown == [] && |filter| >= MinLength
  {
    var filtered := Filter(names, filter);
    Listing(filtered, if |filtered| == 0 && |filter| >= MinLength then Suggest(filter, names) else None)
  }

  /**
    The suggester runs only when no name contains the filter and the filter
    has at least two code units; then its answer is shown unchanged. A
    suggested name never contains the filter.
  */
  lemma PopulateListSpec(names: seq<string>, filter: string)
    ensures PopulateList(names, filter).suggestion.Some? ==>
      |filter| >= MinLength && forall x :: x in names ==> !Matches(x, filter)
    ensures (exists x :: x in names && Matches(x, filter)) ==> PopulateList(names, filter).suggestion.None?
    ensures (forall x :: x in names ==> !Matches(x, filter)) && |filter| >= MinLength ==>
      PopulateList(names, filter).suggestion == Suggest(filter, names)
    ensures PopulateList(names, filter).suggestion.Some? ==>
      !Matches(PopulateList(names, filter).suggestion.value.name, filter)
  {
    var v := PopulateList(names, filter);
    if v.suggestion.Some? {
      SuggestSpec(filter, names);
    }
    if forall x :: x in names ==> !Matches(x, filter) {
      FilterNoneMatch(names, filter);
    }
  }

  /** When no name matches, nothing is shown. */
  lemma {:induction false} FilterNoneMatch(names: seq<string>, filter: string)
    requires forall x :: x in names ==> !Matches(x, filter)
    ensures Filter(names, filter) == []
  {
    if names != [] {
      assert names[0] in names;
      FilterNoneMatch(names[1..], filter);
    }
  }
}
