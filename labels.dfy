/**
 * The label clean-up both the facet list and the mentions list apply to a
 * piece of text before showing it: `text.trim().replaceAll("_", " ")`.
 */
module Labels {
  import opened Js

  /** Trim white space from both ends, then turn every underscore into a space. */
  function Normalise(s: string): (r: string)
    ensures |r| <= |s|
    ensures '_' !in r
  {
    ReplaceAll(Trim(s), '_', ' ')
  }

  /** Normalising gives the empty string exactly when the text is all white space. */
  lemma NormaliseEmpty(s: string)
    ensures Normalise(s) == [] <==> forall i :: 0 <= i < |s| ==> IsWhiteSpace(s[i])
  {
    TrimBlank(s);
  }

  /** Clean text (no surrounding white space, no underscores) is left as it is. */
  lemma NormaliseClean(s: string)
    requires s == [] || (!IsWhiteSpace(s[0]) && !IsWhiteSpace(s[|s| - 1]))
    requires '_' !in s
    ensures Normalise(s) == s
  {
    TrimClean(s);
  }

  /**
   * The replacement runs after the trim, so an underscore at either end
   * leaves a space there: normalising twice can differ from normalising once.
   */
  lemma NormaliseNotIdempotent()
    ensures Normalise("_x") == " x"
    ensures Normalise(Normalise("_x")) == "x"
  {
    TrimClean("_x");
    assert ReplaceAll("_x", '_', ' ') == " x";
    assert Trim(" x") == "x" by {
      assert TrimStart(" x") == "x" by {
        assert " x"[1..] == "x";
      }
    }
    NormaliseClean("x");
  }
}
