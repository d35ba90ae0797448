/**
 * pages/CodeSimplifier.tsx: the code field, the language selector with its list of offered
 * languages, the "Simplify" handler and the auto-detect handler that may add the detected
 * language to the list.
 *
 * Each handler is modelled as one uninterrupted step: the service call it awaits is given by
 * its reply, and the state it leaves is the state after its `finally` block.
 */
module CodeSimplifier {
  import opened Wrappers
  import opened Strings
  import opened Environment
  import opened GeminiService
  import OutputDisplay

  /** The languages offered before any detection, in order. */
  const InitialLanguages: seq<string> :=
    ["JavaScript", "TypeScript", "Python", "React TSX", "Java", "Go", "Rust", "C++", "PHP"]

  /** No language is offered twice. */
  predicate Distinct(s: seq<string>) {
    forall i, j :: 0 <= i < j < |s| ==> s[i] != s[j]
  }

  /** The list after `name` is detected: `[name, ...prev]` unless `languages.includes(name)`. */
  function Offer(languages: seq<string>, name: string): seq<string> {
    if name in languages then languages else [name] + languages
  }

  /**
   * What the list offers afterwards: the detected name, and every language offered before,
   * in the same order at the end of the list, with at most one entry added.
   */
  lemma OfferKeepsList(languages: seq<string>, name: string)
    ensures var r := Offer(languages, name);
            && name in r
            && (forall x :: x in r <==> x == name || x in languages)
            && |languages| <= |r| <= |languages| + 1
            && r[|r| - |languages|..] == languages
            && (|r| == |languages| <==> name in languages)
  {
  }

  /** Offering keeps the list free of duplicates, and offering the same name again changes nothing. */
  lemma OfferDistinct(languages: seq<string>, name: string)
    requires Distinct(languages)
    ensures Distinct(Offer(languages, name))
    ensures Offer(Offer(languages, name), name) == Offer(languages, name)
  {
    var r := Offer(languages, name);
    if name !in languages {
      forall i, j | 0 <= i < j < |r|
        ensures r[i] != r[j]
      {
        assert r[j] == languages[j - 1];
        if i > 0 {
          assert r[i] == languages[i - 1];
        }
      }
    }
  }

  /** The initial list has no duplicates and offers the initial selection. */
  lemma InitialLanguagesDistinct()
    ensures Distinct(InitialLanguages)
    ensures "JavaScript" in InitialLanguages
  {
    var s := InitialLanguages;
    assert |s[0]| == 10 && |s[1]| == 10 && |s[2]| == 6 && |s[3]| == 9 && |s[4]| == 4;
    assert |s[5]| == 2 && |s[6]| == 4 && |s[7]| == 3 && |s[8]| == 3;
    assert s[0][0] == 'J' && s[1][0] == 'T' && s[4][0] == 'J' && s[6][0] == 'R' && s[8][0] == 'P';
    assert s[7][0] == 'C';
  }

  /**
   * The panel is handed `language.toLowerCase()`: a snippet detected as "Go" downloads as a
   * .go file.
   */
  lemma GoDownloadsAsGo()
    ensures OutputDisplay.FirstRuleExtension(OutputDisplay.Rules, ToLower("Go")) == "go"
  {
    assert ToLower("Go") == "go";
    var l := "go";
    assert OccursAt(l, "go", 0);
    NotContainsWithoutHead(l, "script");
    NotContainsWithoutHead(l, "json");
    NotContainsWithoutHead(l, "markdown");
    NotContainsWithoutHead(l, "python");
    OutputDisplay.SubstringRules(l);
  }

  /**
   * A language whose name holds "Script", as "JavaScript" and "TypeScript" do, downloads as a
   * .ts file once lowered.
   */
  lemma ScriptLanguagesDownloadAsTs(a: string, b: string)
    ensures OutputDisplay.FirstRuleExtension(OutputDisplay.Rules, ToLower(a + "Script" + b)) == "ts"
  {
    var w := "Script";
    var t := a + w + b;
    var low := ToLower(t);
    var k := |a|;
    assert t[k] == w[0] && t[k + 1] == w[1] && t[k + 2] == w[2];
    assert t[k + 3] == w[3] && t[k + 4] == w[4] && t[k + 5] == w[5];
    assert low[k] == 's' && low[k + 1] == 'c' && low[k + 2] == 'r';
    assert low[k + 3] == 'i' && low[k + 4] == 'p' && low[k + 5] == 't';
    assert low[k..k + 6] == "script";
    assert OccursAt(low, "script", k);
    OutputDisplay.ScriptComesFirst(low);
  }

  /** The initial selection, "JavaScript", downloads as a .ts file. */
  lemma JavaScriptDownloadsAsTs()
    ensures OutputDisplay.FirstRuleExtension(OutputDisplay.Rules, ToLower("JavaScript")) == "ts"
  {
    assert "JavaScript" == "Java" + "Script" + "";
    ScriptLanguagesDownloadAsTs("Java", "");
  }

  /** So does "TypeScript". */
  lemma TypeScriptDownloadsAsTs()
    ensures OutputDisplay.FirstRuleExtension(OutputDisplay.Rules, ToLower("TypeScript")) == "ts"
  {
    assert "TypeScript" == "Type" + "Script" + "";
    ScriptLanguagesDownloadAsTs("Type", "");
  }

  /** The page's state. */
  class Simplifier {
    var inputCode: string
    var outputCode: string
    var loading: bool
    var detecting: bool
    var language: string
    var languages: seq<string>

    /** The selection is one of the offered languages, and none is offered twice. */
    predicate Valid()
      reads this
    {
      language in languages && Distinct(languages)
    }

    /** The first render. */
    constructor ()
      ensures inputCode == "" && outputCode == "" && !loading && !detecting
      ensures language == "JavaScript" && languages == InitialLanguages
      ensures Valid()
    {
      inputCode := "";
      outputCode := "";
      loading := false;
      detecting := false;
      language := "JavaScript";
      languages := InitialLanguages;
      InitialLanguagesDistinct();
    }

    /** Both buttons are disabled while their request runs or the field is empty. */
    predicate SimplifyEnabled()
      reads this
    {
      !loading && inputCode != ""
    }

    predicate DetectEnabled()
      reads this
    {
      !detecting && inputCode != ""
    }

    /**
     * The buttons test the raw field, the handlers the trimmed one. When a handler would act,
     * its button is enabled unless its own request is running; a field of whitespace only
     * enables both buttons, yet both handlers then do nothing.
     */
    lemma ButtonsAgainstGuards()
      ensures Trim(inputCode) != "" ==> (SimplifyEnabled() <==> !loading) && (DetectEnabled() <==> !detecting)
      ensures inputCode != "" && AllSpace(inputCode) ==>
        && Trim(inputCode) == ""
        && (SimplifyEnabled() <==> !loading)
        && (DetectEnabled() <==> !detecting)
    {
      if AllSpace(inputCode) {
        TrimAllSpace(inputCode);
      }
    }

    /** Typing into the code field. */
    method SetInputCode(code: string)
      requires Valid()
      modifies this
      ensures Valid()
      ensures inputCode == code
      ensures outputCode == old(outputCode) && loading == old(loading) && detecting == old(detecting)
      ensures language == old(language) && languages == old(languages)
    {
      inputCode := code;
    }

    /** Picking an entry of the selector, which lists exactly `languages`. */
    method SelectLanguage(choice: string)
      requires Valid()
      requires choice in languages
      modifies this
      ensures Valid()
      ensures language == choice
      ensures inputCode == old(inputCode) && outputCode == old(outputCode)
      ensures loading == old(loading) && detecting == old(detecting) && languages == old(languages)
    {
      language := choice;
    }

    /**
     * `handleSimplify()`: nothing happens for a blank field. Otherwise the code is sent with
     * the selected language; a result replaces the output, a failure leaves it as it was, and
     * the page stops loading either way.
     */
    method HandleSimplify(e: Env, reply: TextReply) returns (c: Option<Call>)
      requires Valid()
      modifies this
      ensures Valid()
      ensures Trim(old(inputCode)) == "" ==> c.None? && unchanged(this)
      ensures Trim(old(inputCode)) != "" ==>
        && c == Some(SimplifyCode(e, old(inputCode), old(language), reply))
        && outputCode == (if c.value.result.Ok? then c.value.result.value else old(outputCode))
        && !loading
      ensures inputCode == old(inputCode) && detecting == old(detecting)
      ensures language == old(language) && languages == old(languages)
    {
      if Trim(inputCode) == "" {
        return None;
      }
      loading := true;
      var call := SimplifyCode(e, inputCode, language, reply);
      if call.result.Ok? {
        outputCode := call.result.value;
      }
      loading := false;
      c := Some(call);
    }

    /**
     * `handleAutoDetect()`: nothing happens for a blank field. Otherwise the detected name,
     * trimmed, becomes the selection and is put in front of the list when the list lacks it;
     * a failure changes neither. Detection stops either way.
     */
    method HandleAutoDetect(e: Env, reply: TextReply) returns (c: Option<Call>)
      requires Valid()
      modifies this
      ensures Valid()
      ensures Trim(old(inputCode)) == "" ==> c.None? && unchanged(this)
      ensures Trim(old(inputCode)) != "" ==>
        && c == Some(DetectLanguage(e, old(inputCode), reply))
        && (c.value.result.Ok? ==>
              language == Trim(c.value.result.value) && languages == Offer(old(languages), language))
        && (c.value.result.Err? ==> language == old(language) && languages == old(languages))
        && !detecting
      ensures inputCode == old(inputCode) && outputCode == old(outputCode) && loading == old(loading)
    {
      if Trim(inputCode) == "" {
        return None;
      }
      detecting := true;
      var call := DetectLanguage(e, inputCode, reply);
      if call.result.Ok? {
        var normalized := Trim(call.result.value);
        OfferDistinct(languages, normalized);
        if normalized !in languages {
          languages := [normalized] + languages;
        }
        language := normalized;
        assert languages == Offer(old(languages), normalized) && language in languages;
      }
      detecting := false;
      c := Some(call);
    }
  }

  /**
   * With a key, a detection always succeeds: the selection becomes the service's answer, which
   * is already trimmed and never empty, so an empty reply selects "JavaScript".
   */
  lemma DetectionSelects(e: Env, code: string, reply: TextReply)
    requires Truthy(GetActiveKey(e))
    ensures var r := DetectLanguage(e, code, reply).result;
            && r.Ok? && Trim(r.value) == r.value && r.value != ""
            && (reply.Ok? && (reply.value.None? || Trim(reply.value.value) == "") ==> r.value == "JavaScript")
            && Offer(InitialLanguages, "JavaScript") == InitialLanguages
  {
    var r := DetectLanguage(e, code, reply).result;
    DetectedLanguageTrimmed(e, code, reply);
  }
}
