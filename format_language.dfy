/**
  `src/shared/utils/formatLanguage.ts`: a language name shown with a capital
  first letter and the rest in lower case.
*/
module FormatLanguage {
  import opened Text

  /** `formatLanguage`: the empty name stays empty; otherwise the first
      character upper-cased and the rest lower-cased. */
  function FormatLanguage(language: string): (r: string)
    ensures |r| == |language|
    ensures language == "" ==> r == ""
    ensures language != "" ==> r[0] == ToUpperChar(language[0])
    ensures forall i :: 0 < i < |language| ==> r[i] == ToLowerChar(language[i])
  {
    if language == "" then language
    else [ToUpperChar(language[0])] + ToLower(language[1..])
  }

  /** Formatting a formatted name changes nothing. */
  lemma FormatIdempotent(language: string)
    ensures FormatLanguage(FormatLanguage(language)) == FormatLanguage(language)
  {
    var r := FormatLanguage(language);
    var rr := FormatLanguage(r);
    forall i | 0 <= i < |rr| ensures rr[i] == r[i] {
      if i > 0 {
        assert r[i] == ToLowerChar(language[i]);
      }
    }
  }

  /** Names that differ only in the case of their letters format alike. */
  lemma FormatIgnoresCase(language: string)
    ensures FormatLanguage(ToUpper(language)) == FormatLanguage(language)
    ensures FormatLanguage(ToLower(language)) == FormatLanguage(language)
  {
    var r := FormatLanguage(language);
    var u := FormatLanguage(ToUpper(language));
    var l := FormatLanguage(ToLower(language));
    forall i | 0 <= i < |r| ensures u[i] == r[i] && l[i] == r[i] {
      if i > 0 {
        assert u[i] == ToLowerChar(ToUpper(language)[i]);
        assert l[i] == ToLowerChar(ToLower(language)[i]);
      } else {
        assert u[0] == ToUpperChar(ToUpper(language)[0]);
        assert l[0] == ToUpperChar(ToLower(language)[0]);
      }
    }
  }

  lemma FormatExamples()
    ensures FormatLanguage("FRENCH") == "French"
    ensures FormatLanguage("java") == "Java"
    ensures FormatLanguage("") == ""
  {
    assert FormatLanguage("FRENCH") == [ToUpperChar('F')] + ToLower("RENCH");
    assert ToLower("RENCH") == "rench";
    assert ToLower("ava") == "ava";
  }
}
