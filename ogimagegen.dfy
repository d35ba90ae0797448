/**
 * pages/OgImageGen.tsx: the form for a social-preview image, the generate handler that
 * stores the image's data URL, and the download handler that names the file after the title.
 *
 * As on the other pages, a handler is one uninterrupted step whose service reply is given,
 * and the state it leaves is the state after its `finally` block.
 */
module OgImageGen {
  import opened Wrappers
  import opened Strings
  import opened Environment
  import opened GeminiService

  // ---------------------------------------------------------------------------
  // The file name

  /**
   * `s.replace(/\s+/g, '_')`: every maximal run of whitespace becomes one underscore. The
   * result has no whitespace, is no longer than `s`, and each of its characters is an
   * underscore or a character of `s`.
   */
  function Underscored(s: string): (r: string)
    ensures NoSpace(r)
    ensures |r| <= |s|
    ensures forall c :: c in r ==> c == '_' || c in s
    decreases |s|
  {
    if s == [] then []
    else if IsSpace(s[0]) then "_" + Underscored(s[SpaceRunEnd(s, 0)..])
    else [s[0]] + Underscored(s[1..])
  }

  /** Text without whitespace is left alone, so replacing twice is replacing once. */
  lemma {:induction false} UnderscoredNoSpace(s: string)
    requires NoSpace(s)
    ensures Underscored(s) == s
    decreases |s|
  {
    if s != [] {
      UnderscoredNoSpace(s[1..]);
      assert [s[0]] + s[1..] == s;
    }
  }

  lemma UnderscoredIdempotent(s: string)
    ensures Underscored(Underscored(s)) == Underscored(s)
  {
    UnderscoredNoSpace(Underscored(s));
  }

  /**
   * The run between a word and the next one, however long and whatever whitespace it is
   * made of, becomes a single underscore.
   */
  lemma {:induction false} UnderscoredRun(a: string, ws: string, b: string)
    requires NoSpace(a)
    requires ws != [] && AllSpace(ws)
    requires b == [] || !IsSpace(b[0])
    ensures Underscored(a + ws + b) == a + "_" + Underscored(b)
    decreases |a|
  {
    var s := a + ws + b;
    if a == [] {
      assert s == ws + b;
      SpaceRunEndIs(s, 0, |ws|);
      assert s[|ws|..] == b;
    } else {
      assert s[0] == a[0] && s[1..] == a[1..] + ws + b;
      UnderscoredRun(a[1..], ws, b);
      assert [a[0]] + (a[1..] + "_" + Underscored(b)) == a + "_" + Underscored(b);
    }
  }

  /** The slug of a lowered title holds no capital letter. */
  lemma SlugIsLowerCase(title: string)
    ensures forall c :: c in Underscored(ToLower(title)) ==> !('A' <= c <= 'Z')
  {
    var low := ToLower(title);
    forall c | c in Underscored(low)
      ensures !('A' <= c <= 'Z')
    {
      if c != '_' {
        var j :| 0 <= j < |low| && low[j] == c;
        assert low[j] == LowerChar(title[j]);
      }
    }
  }

  /** `og_image_${title.toLowerCase().replace(/\s+/g, '_')}.png` */
  function OgFileName(title: string): (r: string)
    ensures "og_image_" <= r && |r| >= 13 && r[|r| - 4..] == ".png"
    ensures NoSpace(r)
    ensures forall i :: 0 <= i < |r| ==> !('A' <= r[i] <= 'Z')
  {
    var slug := Underscored(ToLower(title));
    SlugIsLowerCase(title);
    var p, q := "og_image_", ".png";
    FixedPartsPlain();
    var r := p + slug + q;
    forall i | 0 <= i < |r|
      ensures !IsSpace(r[i]) && !('A' <= r[i] <= 'Z')
    {
      if i < 9 {
        assert r[i] == p[i];
      } else if i < 9 + |slug| {
        assert r[i] == slug[i - 9] && slug[i - 9] in slug;
      } else {
        assert r[i] == q[i - 9 - |slug|];
      }
    }
    r
  }

  /** The fixed parts of the name: neither whitespace nor capitals. */
  predicate Plain(s: string) {
    forall i :: 0 <= i < |s| ==> !IsSpace(s[i]) && !('A' <= s[i] <= 'Z')
  }

  lemma FixedPartsPlain()
    ensures Plain("og_image_") && Plain(".png")
  {
  }

  /**
   * Two lower-case words separated by any run of whitespace are named with one underscore
   * between them.
   */
  lemma {:induction false} TwoWordFileName(a: string, ws: string, b: string)
    requires NoSpace(a) && NoSpace(b) && b != []
    requires ws != [] && AllSpace(ws)
    requires forall i :: 0 <= i < |a| ==> !('A' <= a[i] <= 'Z')
    requires forall i :: 0 <= i < |b| ==> !('A' <= b[i] <= 'Z')
    ensures OgFileName(a + ws + b) == "og_image_" + a + "_" + b + ".png"
  {
    var t := a + ws + b;
    ToLowerKeepsLower(t);
    UnderscoredRun(a, ws, b);
    UnderscoredNoSpace(b);
  }

  /** Text without `A`-`Z` is its own lower case. */
  lemma ToLowerKeepsLower(s: string)
    requires forall i :: 0 <= i < |s| ==> !('A' <= s[i] <= 'Z')
    ensures ToLower(s) == s
  {
    assert forall i :: 0 <= i < |s| ==> ToLower(s)[i] == s[i];
  }

  /** For example, "all" and "noop" with a space, a tab and a space between are saved as og_image_all_noop.png. */
  lemma AllNoopFileName()
    ensures OgFileName("all \t noop") == "og_image_" + "all_noop" + ".png"
  {
    assert "all \t noop" == "all" + " \t " + "noop";
    TwoWordFileName("all", " \t ", "noop");
    assert "all" + "_" + "noop" == "all_noop";
    assert "og_image_" + "all" + "_" + "noop" + ".png" == "og_image_" + ("all" + "_" + "noop") + ".png";
  }

  // ---------------------------------------------------------------------------
  // The page

  /** The URL the page shows after a request, or "" when the request threw. */
  function GeneratedUrl(e: Env, reply: ImageReply): string {
    if !Truthy(GetActiveKey(e)) || reply.Err? then ""
    else
      var parts := if reply.value.Some? then reply.value.value else [];
      match FirstInlineData(parts)
      case Some(d) => DataUrl(d)
      case None => ""
  }

  /**
   * A shown URL is always a PNG data URL; none is shown exactly when there is no key, the
   * request failed, or no part of the reply carried inline data.
   */
  lemma GeneratedUrlIsPng(e: Env, reply: ImageReply)
    ensures GeneratedUrl(e, reply) != "" ==> "data:image/png;base64," <= GeneratedUrl(e, reply)
    ensures GeneratedUrl(e, reply) == "" <==>
      || !Truthy(GetActiveKey(e))
      || reply.Err?
      || FirstInlineData(if reply.value.Some? then reply.value.value else []).None?
  {
  }

  /** What the download link gets: the image and the file name. */
  datatype Download = Download(href: string, fileName: string)

  /** The page's state. */
  class OgPage {
    var title: string
    var subtitle: string
    var tech: string
    var imageUrl: string
    var loading: bool

    /** The first render: every field empty, nothing loading. */
    constructor ()
      ensures title == "" && subtitle == "" && tech == "" && imageUrl == "" && !loading
    {
      title := "";
      subtitle := "";
      tech := "";
      imageUrl := "";
      loading := false;
    }

    /** The generate button: `disabled={loading || !title}`. */
    predicate GenerateEnabled()
      reads this
    {
      !loading && title != ""
    }

    /**
     * The button and the handler test the same title: an enabled button always gets past the
     * handler's guard, and without a title the button is disabled.
     */
    lemma ButtonAgainstGuard()
      ensures GenerateEnabled() ==> title != ""
      ensures title == "" ==> !GenerateEnabled()
      ensures !loading && title != "" ==> GenerateEnabled()
    {
    }

    /** Typing into the three fields. */
    method SetFields(title: string, subtitle: string, tech: string)
      modifies this
      ensures this.title == title && this.subtitle == subtitle && this.tech == tech
      ensures imageUrl == old(imageUrl) && loading == old(loading)
    {
      this.title := title;
      this.subtitle := subtitle;
      this.tech := tech;
    }

    /**
     * `handleGenerate()`: nothing happens without a title. Otherwise the previous image is
     * cleared, the request is sent, and the page ends showing the returned URL, or nothing
     * when the request threw; loading stops either way.
     */
    method HandleGenerate(e: Env, reply: ImageReply) returns (c: Option<Call>)
      modifies this
      ensures old(title) == "" ==> c.None? && unchanged(this)
      ensures old(title) != "" ==>
        && c.Some?
        && imageUrl == (if c.value.result.Ok? then c.value.result.value else "")
        && imageUrl == GeneratedUrl(e, reply)
        && !loading
      ensures old(title) != "" && Truthy(GetActiveKey(e)) ==>
        c.value.sent == Some(Request(GetActiveKey(e).value, ImageModel, OgPrompt(title, subtitle, tech), false))
      ensures title == old(title) && subtitle == old(subtitle) && tech == old(tech)
    {
      if title == "" {
        return None;
      }
      loading := true;
      imageUrl := "";
      var call := GenerateOgImage(e, title, subtitle, tech, reply);
      if call.result.Ok? {
        imageUrl := call.result.value;
      }
      loading := false;
      c := Some(call);
    }

    /**
     * `handleDownload()`: nothing without an image; otherwise a link to the image, named
     * after the title.
     */
    method HandleDownload() returns (d: Option<Download>)
      ensures d.None? <==> imageUrl == ""
      ensures d.Some? ==> d.value == Download(imageUrl, OgFileName(title))
    {
      if imageUrl == "" {
        return None;
      }
      return Some(Download(imageUrl, OgFileName(title)));
    }
  }
}
