/**
 * The result panel of components/OutputDisplay.tsx: the extension a download gets from the
 * panel's language tag, the download's file name, and the copy and download buttons.
 */
module OutputDisplay {
  import opened Wrappers
  import opened Strings

  /** Every extension a download can get. */
  const Extensions: seq<string> := ["txt", "ts", "json", "md", "py", "go", "rs", "java", "sql", "csv"]

  /**
   * One rule of the extension chain: it applies when the tag contains one of `parts` or equals
   * one of `names`.
   */
  datatype Rule = Rule(parts: seq<string>, names: seq<string>, ext: string)

  predicate Applies(r: Rule, language: string) {
    (exists i :: 0 <= i < |r.parts| && Contains(language, r.parts[i])) || language in r.names
  }

  /** The chain of `handleDownload`, in the order it is tried. */
  const Rules: seq<Rule> := [
    Rule(["script"], ["ts", "js"], "ts"),
    Rule(["json"], [], "json"),
    Rule(["markdown"], ["md"], "md"),
    Rule(["python"], [], "py"),
    Rule(["go"], [], "go"),
    Rule(["rust"], [], "rs"),
    Rule(["java"], [], "java"),
    Rule(["sql"], [], "sql"),
    Rule(["csv"], [], "csv")
  ]

  /** Reference definition: the extension of the first rule that applies, else "txt". */
  function FirstRuleExtension(rules: seq<Rule>, language: string): (ext: string)
    ensures (exists i :: 0 <= i < |rules| && Applies(rules[i], language) && ext == rules[i].ext
               && forall j :: 0 <= j < i ==> !Applies(rules[j], language))
            || (ext == "txt" && forall i :: 0 <= i < |rules| ==> !Applies(rules[i], language))
    decreases |rules|
  {
    if rules == [] then "txt"
    else if Applies(rules[0], language) then rules[0].ext
    else
      var ext := FirstRuleExtension(rules[1..], language);
      assert forall i :: 1 <= i < |rules| ==> rules[i] == rules[1..][i - 1];
      ext
  }

  /** `${language}` into `allnoop_result.${ext}` */
  function FileName(ext: string): string {
    "allnoop_result." + ext
  }

  /** The result panel, with the flag its copy button sets and what it leaves in the clipboard. */
  class Panel {
    const content: string
    const language: string
    const isLoading: bool
    var copied: bool
    var clipboard: Option<string>

    /** `language` defaults to "text" and `isLoading` to false when the caller omits them. */
    constructor (content: string, language: Option<string>, isLoading: Option<bool>, clipboard: Option<string>)
      ensures this.content == content
      ensures this.language == (if language.Some? then language.value else "text")
      ensures this.isLoading == (isLoading.Some? && isLoading.value)
      ensures !copied && this.clipboard == clipboard
    {
      this.content := content;
      this.language := if language.Some? then language.value else "text";
      this.isLoading := isLoading.Some? && isLoading.value;
      copied := false;
      this.clipboard := clipboard;
    }

    /** Both buttons: `disabled={!content || isLoading}`. */
    predicate ButtonsEnabled()
      reads this
    {
      content != "" && !isLoading
    }

    /**
     * An enabled download button never reaches the empty-content no-op of `handleDownload`;
     * an empty panel, or one still loading, has both buttons disabled.
     */
    lemma ButtonsAgainstGuard()
      ensures ButtonsEnabled() ==> content != ""
      ensures content == "" || isLoading ==> !ButtonsEnabled()
    {
    }

    /** `handleCopy()`: the content goes to the clipboard and the button shows "Copied". */
    method HandleCopy()
      modifies this
      ensures clipboard == Some(content) && copied
    {
      clipboard := Some(content);
      copied := true;
    }

    /**
     * `handleDownload()`: nothing for empty content; otherwise the name of the file it
     * offers, whose extension the first applicable rule of the chain decides.
     */
    method HandleDownload() returns (download: Option<string>)
      ensures content == "" <==> download.None?
      ensures download.Some? ==> download.value == FileName(FirstRuleExtension(Rules, language))
    {
      if content == "" {
        return None;
      }
      var ext := "txt";
      if Contains(language, "script") || language == "ts" || language == "js" {
        ext := "ts";
      } else if Contains(language, "json") {
        ext := "json";
      } else if Contains(language, "markdown") || language == "md" {
        ext := "md";
      } else if Contains(language, "python") {
        ext := "py";
      } else if Contains(language, "go") {
        ext := "go";
      } else if Contains(language, "rust") {
        ext := "rs";
      } else if Contains(language, "java") {
        ext := "java";
      } else if Contains(language, "sql") {
        ext := "sql";
      } else if Contains(language, "csv") {
        ext := "csv";
      }
      ChainIsFirstRule(language);
      ChainTail(language);
      return Some(FileName(ext));
    }
  }

  /** A rule with one substring applies when the tag contains it or is one of its names. */
  lemma AppliesOnePart(r: Rule, language: string)
    requires |r.parts| == 1
    ensures Applies(r, language) <==> Contains(language, r.parts[0]) || language in r.names
  {
  }

  /** One step of the reference definition. */
  lemma FirstRuleStep(rules: seq<Rule>, language: string)
    requires rules != [] && |rules[0].parts| == 1
    ensures FirstRuleExtension(rules, language) ==
      if Contains(language, rules[0].parts[0]) || language in rules[0].names then rules[0].ext
      else FirstRuleExtension(rules[1..], language)
  {
    AppliesOnePart(rules[0], language);
  }

  /** The written chain, as the reference definition sees it. */
  lemma ChainIsFirstRule(language: string)
    ensures FirstRuleExtension(Rules, language) ==
      if Contains(language, "script") || language == "ts" || language == "js" then "ts"
      else if Contains(language, "json") then "json"
      else if Contains(language, "markdown") || language == "md" then "md"
      else if Contains(language, "python") then "py"
      else if Contains(language, "go") then "go"
      else FirstRuleExtension(Rules[5..], language)
  {
    var r0 := Rules;
    var r1 := r0[1..];
    var r2 := r1[1..];
    var r3 := r2[1..];
    var r4 := r3[1..];
    assert r4[1..] == Rules[5..];
    FirstRuleStep(r0, language);
    FirstRuleStep(r1, language);
    FirstRuleStep(r2, language);
    FirstRuleStep(r3, language);
    FirstRuleStep(r4, language);
  }

  /** The last four rules of the chain. */
  lemma ChainTail(language: string)
    ensures FirstRuleExtension(Rules[5..], language) ==
      if Contains(language, "rust") then "rs"
      else if Contains(language, "java") then "java"
      else if Contains(language, "sql") then "sql"
      else if Contains(language, "csv") then "csv"
      else "txt"
  {
    var r5 := Rules[5..];
    var r6 := r5[1..];
    var r7 := r6[1..];
    var r8 := r7[1..];
    assert r8[1..] == [];
    FirstRuleStep(r5, language);
    FirstRuleStep(r6, language);
    FirstRuleStep(r7, language);
    FirstRuleStep(r8, language);
  }

  /** The extension is always one of the ten. */
  lemma ExtensionIsOneOfTen(language: string)
    ensures FirstRuleExtension(Rules, language) in Extensions
  {
    ChainIsFirstRule(language);
    ChainTail(language);
  }

  /** Any tag containing "script" gets "ts", "javascript" included: that rule comes before "java". */
  lemma ScriptComesFirst(language: string)
    requires Contains(language, "script")
    ensures FirstRuleExtension(Rules, language) == "ts"
  {
    ChainIsFirstRule(language);
  }

  /** "javascript" becomes a .ts file. */
  lemma JavascriptIsTs()
    ensures FirstRuleExtension(Rules, "javascript") == "ts"
  {
    var l := "javascript";
    assert OccursAt(l, "script", 4);
    ScriptComesFirst(l);
  }

  /**
   * The rules test substrings: a tag gets "go" exactly when it contains "go" and none of the
   * earlier rules applies, "django" and "mongo" included.
   */
  lemma SubstringRules(language: string)
    ensures FirstRuleExtension(Rules, language) == "go" <==>
      && Contains(language, "go")
      && !(Contains(language, "script") || language == "ts" || language == "js")
      && !Contains(language, "json")
      && !(Contains(language, "markdown") || language == "md")
      && !Contains(language, "python")
  {
    ChainIsFirstRule(language);
    ChainTail(language);
  }
}
