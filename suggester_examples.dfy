/**
  Worked cases of the suggester: a one-letter typo is suggested, a
  case-insensitive exact match is not, and substring hits pre-empt the
  suggestion.
*/
module SuggesterExamples {
  import opened Wrappers
  import opened Levenshtein
  import opened Suggester

  /** Lower-case ASCII letters are left alone by the case fold. */
  lemma {:induction false} LowerKeepsSmallLetters(s: string)
    requires forall i :: 0 <= i < |s| ==> 'a' <= s[i] <= 'z'
    ensures Lower(s) == s
  {
    if s != [] {
      LowerKeepsSmallLetters(s[1..]);
    }
  }

  lemma LowerLaptob()
    ensures Lower("Laptob") == "laptob" && Lower("Laptop") == "laptop"
  {
    var x, y := "Laptob", "Laptop";
    assert LowerUnit('L') == ['l'];
    assert x[0] == 'L' && x[1..] == "aptob";
    assert y[0] == 'L' && y[1..] == "aptop";
    LowerKeepsSmallLetters("aptob");
    LowerKeepsSmallLetters("aptop");
    assert Lower(x) == LowerUnit(x[0]) + Lower(x[1..]);
    assert Lower(y) == LowerUnit(y[0]) + Lower(y[1..]);
  }

  lemma LevLaptob()
    ensures Lev("laptop", "laptob") == 1
  {
    var a, b := "laptop", "laptob";
    LevSelf("lapto");
    assert a[..5] == "lapto" && b[..5] == "lapto";
    assert Lev(a[..5], b[..5]) == 0;
    assert a[5] != b[5];
  }

  lemma ScoreLaptob()
    ensures Score("laptob", "Laptop") == 5.0 / 6.0
  {
    LowerLaptob();
    LevLaptob();
  }

  /** "Laptob" is one substitution from "Laptop": score 5/6, above the threshold. */
  lemma LaptobSuggestsLaptop()
    ensures Suggest("Laptob", ["Laptop"]) == Some(Suggestion("Laptop", 5.0 / 6.0))
  {
    LowerLaptob();
    ScoreLaptob();
    var names := ["Laptop"];
    assert names[..0] == [] && names[0] == "Laptop";
    assert BestOf("laptob", names) == Best(5.0 / 6.0, Some(0));
  }

  /** "laptop" equals "Laptop" once folded, so it scores 1 and is never suggested. */
  lemma ExactMatchNotSuggested()
    ensures Suggest("laptop", ["Laptop"]).None?
  {
    LowerLaptob();
    LowerKeepsSmallLetters("laptop");
    SimilarityOneIff("laptop", "laptop");
    var names := ["Laptop"];
    assert names[..0] == [] && names[0] == "Laptop";
    assert Score("laptop", "Laptop") == 1.0;
  }

  lemma LowerTop()
    ensures Lower("top") == "top"
  {
  }

  lemma LowerDesktop()
    ensures Lower("Desktop") == "desktop"
  {
  }

  lemma TopMatchesBoth()
    ensures Matches("Laptop", "top") && Matches("Desktop", "top")
  {
    LowerLaptob();
    LowerTop();
    LowerDesktop();
    assert OccursAt("laptop", "top", 3);
    assert OccursAt("desktop", "top", 4);
    IncludesIff("laptop", "top");
    IncludesIff("desktop", "top");
  }

  /** "top" occurs in both names, so both are listed and the suggester does not run. */
  lemma SubstringHitsPreventSuggestion()
    ensures PopulateList(["Laptop", "Desktop"], "top") == Listing(["Laptop", "Desktop"], None)
  {
    TopMatchesBoth();
    var names := ["Laptop", "Desktop"];
    assert names[1..] == ["Desktop"] && names[1..][1..] == [];
    assert Filter(names[1..][1..], "top") == [];
    assert Filter(names[1..], "top") == ["Desktop"];
    assert Filter(names, "top") == names;
  }
}
