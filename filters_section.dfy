/**
  The language picker of `src/features/components/FiltersSection.tsx`: which
  language names become options, and which options remain for what the user
  has typed.
*/
module FiltersSection {
  import opened Wrappers
  import opened Text

  /** The options: the loaded names, without missing ones and blank ones
      (`lang != null && lang.trim() !== ''`). */
  function CleanOptions(languages: seq<Option<string>>): (r: seq<string>)
    ensures |r| <= |languages|
    ensures forall k :: 0 <= k < |r| ==> !IsBlank(r[k])
    ensures forall x :: x in r <==> Some(x) in languages && !IsBlank(x)
  {
    if |languages| == 0 then []
    else
      var rest := CleanOptions(languages[1..]);
      assert languages == [languages[0]] + languages[1..];
      match languages[0]
      case Some(lang) =>
        TrimEmptyIffBlank(lang);
        if Trim(lang) != "" then [lang] + rest else rest
      case None => rest
  }

  /** The options keep the order the names were loaded in. */
  lemma {:induction false} CleanOptionsKeepOrder(languages: seq<Option<string>>)
    ensures SubsequenceOf(Present(CleanOptions(languages)), languages)
  {
    if |languages| > 0 {
      var rest := CleanOptions(languages[1..]);
      CleanOptionsKeepOrder(languages[1..]);
      match languages[0]
      case Some(lang) =>
        TrimEmptyIffBlank(lang);
        if Trim(lang) != "" {
          KeptFirst(lang, rest, languages);
        } else {
          DroppedFirst(rest, languages);
        }
      case None =>
        DroppedFirst(rest, languages);
    }
  }

  /** Keeping the first loaded name extends the order of the rest. */
  lemma KeptFirst(lang: string, rest: seq<string>, languages: seq<Option<string>>)
    requires |languages| > 0 && languages[0] == Some(lang)
    requires SubsequenceOf(Present(rest), languages[1..])
    ensures SubsequenceOf(Present([lang] + rest), languages)
  {
    assert Present([lang] + rest)[1..] == Present(rest);
  }

  /** Dropping the first loaded entry keeps the order of the rest. */
  lemma DroppedFirst(rest: seq<string>, languages: seq<Option<string>>)
    requires |languages| > 0
    requires SubsequenceOf(Present(rest), languages[1..])
    ensures SubsequenceOf(Present(rest), languages)
  {
  }

  /** The names as the present values they were in the loaded list. */
  function Present(names: seq<string>): (r: seq<Option<string>>)
    ensures |r| == |names| && forall k :: 0 <= k < |names| ==> r[k] == Some(names[k])
  {
    seq(|names|, k requires 0 <= k < |names| => Some(names[k]))
  }

  /** Lowering ASCII letters neither makes nor removes white space. */
  lemma BlankLowered(s: string)
    ensures IsBlank(ToLower(s)) <==> IsBlank(s)
  {
    var l := ToLower(s);
    forall i | 0 <= i < |s| ensures IsJsSpace(l[i]) <==> IsJsSpace(s[i]) {
      assert l[i] == ToLowerChar(s[i]);
    }
  }

  /** What the typed text is compared with: lowered, then trimmed. */
  function NeedleOf(inputValue: string): string {
    Trim(ToLower(inputValue))
  }

  /** The options whose lowered name starts with `needle`, in their order. */
  function StartingWith(options: seq<string>, needle: string): (r: seq<string>)
    requires needle != ""
    ensures SubsequenceOf(r, options)
    ensures forall x :: x in r <==> x in options && StartsWith(ToLower(x), needle)
  {
    if |options| == 0 then []
    else
      var option := options[0];
      var rest := StartingWith(options[1..], needle);
      assert options == [option] + options[1..];
      if option != "" && StartsWith(ToLower(option), needle) then [option] + rest else rest
  }

  /** `filterOptions`: every option while the typed text is blank, otherwise
      the options whose lowered name starts with the lowered, trimmed text. */
  function FilterOptions(options: seq<string>, inputValue: string): (r: seq<string>)
    ensures IsBlank(inputValue) ==> r == options
    ensures SubsequenceOf(r, options)
    ensures !IsBlank(inputValue) ==>
      forall x :: x in r <==> x in options && StartsWith(ToLower(x), NeedleOf(inputValue))
  {
    TrimEmptyIffBlank(ToLower(inputValue));
    BlankLowered(inputValue);
    var needle := NeedleOf(inputValue);
    if needle == "" then
      SubsequenceOfItself(options);
      options
    else StartingWith(options, needle)
  }

  lemma NeedleExample()
    ensures NeedleOf(" ja") == "ja" && !IsBlank(" ja")
  {
    var input := " ja";
    assert ToLower(input) == input;
    assert IsJsSpace(input[0]) && input[1..] == "ja";
    assert !IsJsSpace("ja"[0]) && !IsJsSpace("ja"[1]);
    assert TrimStart(input) == "ja";
    assert !IsJsSpace(input[1]);
  }

  lemma TypedPrefixExample()
    ensures FilterOptions(["Java", "JavaScript", "Go"], " ja") == ["Java", "JavaScript"]
  {
    NeedleExample();
    assert ToLower("Go")[..2] == "go";
    assert StartingWith(["Go"], "ja") == [];
    assert ToLower("JavaScript")[..2] == "ja";
    assert StartingWith(["JavaScript", "Go"], "ja") == ["JavaScript"];
    assert ToLower("Java")[..2] == "ja";
  }

  lemma BlankInputExample()
    ensures FilterOptions(["Java", "Go"], "  ") == ["Java", "Go"]
  {
    assert IsBlank("  ") by {
      assert IsJsSpace("  "[0]) && IsJsSpace("  "[1]);
    }
  }
}
