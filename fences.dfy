/**
 * `cleanMarkdown` of services/geminiService.ts: the bodies of the fenced code blocks of a
 * reply, found as `trimmed.matchAll(/```(?:\w+)?\s*([\s\S]*?)\s*```/g)` finds them.
 *
 * The scanner matches the regular expression's backtracking order. At a position where three
 * backticks start, the optional tag takes the longest run of `\w`, the first `\s*` the longest
 * whitespace run after it, and the lazy body then stops at the nearest following fence, less
 * the whitespace just before that fence (the trailing `\s*`). Tag and leading whitespace contain
 * no backtick, so a shorter choice for them can never succeed where the longest failed. A
 * position with no later fence is skipped, and a match resumes the search right after its
 * closing fence.
 */
module Fences {
  import opened Wrappers
  import opened Strings

  /** Three backticks start at position `i` of `t`. */
  predicate FenceAt(t: string, i: nat) {
    i + 3 <= |t| && t[i] == '`' && t[i + 1] == '`' && t[i + 2] == '`'
  }

  /** No three backticks in a row anywhere in `s`. */
  predicate FenceFree(s: string) {
    forall i: nat | i < |s| :: !FenceAt(s, i)
  }

  /** Both an opening and a later closing fence occur in `t`. */
  predicate HasFencePair(t: string) {
    exists a: nat, b: nat | a + 3 <= b < |t| :: FenceAt(t, a) && FenceAt(t, b)
  }

  /** The nearest fence that starts at or after `i`. */
  function NextFence(t: string, i: nat): (r: Option<nat>)
    requires i <= |t|
    ensures r.Some? ==> i <= r.value && FenceAt(t, r.value)
    ensures forall k: nat :: i <= k && (r.None? || k < r.value) ==> !FenceAt(t, k)
    decreases |t| - i
  {
    if i + 3 > |t| then None
    else if FenceAt(t, i) then Some(i)
    else NextFence(t, i + 1)
  }

  /** No fence starts inside `t[lo..hi]` as far as `t` shows, so the slice has none either. */
  lemma SliceFenceFree(t: string, lo: nat, hi: nat)
    requires lo <= hi <= |t|
    requires forall k: nat :: lo <= k && k + 3 <= hi ==> !FenceAt(t, k)
    ensures FenceFree(t[lo..hi])
  {
    forall i: nat ensures !FenceAt(t[lo..hi], i) {
      if FenceAt(t[lo..hi], i) {
        assert FenceAt(t, lo + i);
      }
    }
  }

  /**
   * The match of the pattern at the start of `t`, if any: where its captured body starts and
   * ends, and where the text after its closing fence begins. The optional tag is the run of
   * word characters after the opening fence; the body closes at the nearest fence after it.
   */
  function MatchAt(t: string): (m: Option<(nat, nat, nat)>)
    ensures m.Some? ==> m.value.0 <= m.value.1 <= |t| && 3 <= m.value.2 <= |t|
  {
    if |t| >= 3 && FenceAt(t, 0) then
      var open := SpaceRunEnd(t, WordRunEnd(t, 3));
      var close := NextFence(t, open);
      if close.None? then None
      else Some((open, SpaceRunStart(t, open, close.value), close.value + 3))
    else None
  }

  /**
   * The captured bodies, in order, of the successive matches in `t`. Each body is already
   * trimmed and contains no fence: it closes at the nearest fence after its opening.
   */
  function Bodies(t: string): seq<string>
    decreases |t|
  {
    if |t| < 3 then []
    else
      match MatchAt(t)
      case None => Bodies(t[1..])
      case Some(m) => [t[m.0..m.1]] + Bodies(t[m.2..])
  }

  /** The body of a match is trimmed and holds no fence. */
  lemma MatchBodyClean(t: string)
    requires MatchAt(t).Some?
    ensures var m := MatchAt(t).value; Trimmed(t[m.0..m.1]) && FenceFree(t[m.0..m.1])
  {
    var open := SpaceRunEnd(t, WordRunEnd(t, 3));
    var close := NextFence(t, open).value;
    var end := SpaceRunStart(t, open, close);
    assert MatchAt(t).value == (open, end, close + 3);
    SliceFenceFree(t, open, end);
    var body := t[open..end];
    assert body != [] ==> body[0] == t[open] && body[|body| - 1] == t[end - 1];
  }

  /** Every captured body is already trimmed and holds no fence. */
  lemma {:induction false} BodiesTrimmedAndFenceFree(t: string)
    ensures forall i :: 0 <= i < |Bodies(t)| ==> Trimmed(Bodies(t)[i]) && FenceFree(Bodies(t)[i])
    decreases |t|
  {
    if |t| >= 3 {
      match MatchAt(t)
      case None =>
        BodiesTrimmedAndFenceFree(t[1..]);
      case Some(m) =>
        MatchBodyClean(t);
        var rest := t[m.2..];
        BodiesTrimmedAndFenceFree(rest);
        assert Bodies(t) == [t[m.0..m.1]] + Bodies(rest);
    }
  }

  /** The nearest fence is determined by the contract of `NextFence`. */
  lemma NextFenceIs(t: string, i: nat, c: nat)
    requires i <= c && FenceAt(t, c)
    requires forall k: nat :: i <= k < c ==> !FenceAt(t, k)
    ensures NextFence(t, i) == Some(c)
  {
  }

  /** The match at the start of `t`, given its closing fence. */
  lemma MatchAtIs(t: string, close: nat)
    requires FenceAt(t, 0)
    requires NextFence(t, SpaceRunEnd(t, WordRunEnd(t, 3))) == Some(close)
    ensures var open := SpaceRunEnd(t, WordRunEnd(t, 3));
            MatchAt(t) == Some((open, SpaceRunStart(t, open, close), close + 3))
  {
  }

  /** A match at the start of `t`: its body, then the matches after its closing fence. */
  lemma BodiesAtMatch(t: string, close: nat)
    requires FenceAt(t, 0)
    requires NextFence(t, SpaceRunEnd(t, WordRunEnd(t, 3))) == Some(close)
    ensures var open := SpaceRunEnd(t, WordRunEnd(t, 3));
            Bodies(t) == [t[open..SpaceRunStart(t, open, close)]] + Bodies(t[close + 3..])
  {
    var open := SpaceRunEnd(t, WordRunEnd(t, 3));
    MatchAtIs(t, close);
    var rest := t[close + 3..];
    assert Bodies(t) == [t[open..SpaceRunStart(t, open, close)]] + Bodies(rest);
  }

  /** A character other than a backtick at the start of `t` is skipped. */
  lemma BodiesAtProse(t: string)
    requires |t| > 0 && t[0] != '`'
    ensures Bodies(t) == Bodies(t[1..])
  {
  }

  /** `bodies.map(b => b.trim())` */
  function TrimEach(bodies: seq<string>): (r: seq<string>)
    ensures |r| == |bodies|
    ensures forall i :: 0 <= i < |r| ==> r[i] == Trim(bodies[i])
  {
    seq(|bodies|, i requires 0 <= i < |bodies| => Trim(bodies[i]))
  }

  /** `cleanMarkdown(text)` */
  function CleanMarkdown(text: Option<string>): (r: string)
    ensures !Truthy(text) ==> r == ""
  {
    if !Truthy(text) then ""
    else
      var trimmed := Trim(text.value);
      var bodies := Bodies(trimmed);
      if |bodies| > 0 then Join(TrimEach(bodies), "\n\n") else trimmed
  }

  // ---------------------------------------------------------------------------
  // When is there a match at all?

  lemma FenceAtTail(t: string, k: nat)
    requires |t| > 0
    ensures FenceAt(t[1..], k) <==> FenceAt(t, k + 1)
  {
  }

  /** A fence cannot start inside an opening fence's tag or the whitespace after it. */
  lemma NoFenceInOpening(t: string)
    requires FenceAt(t, 0)
    ensures forall k: nat :: 3 <= k < SpaceRunEnd(t, WordRunEnd(t, 3)) ==> !FenceAt(t, k)
  {
  }

  /** The scanner finds a block exactly when an opening fence is followed by a closing one. */
  lemma {:induction false} BodiesNonEmptyIff(t: string)
    ensures Bodies(t) != [] <==> HasFencePair(t)
    decreases |t|
  {
    if |t| >= 3 {
      forall k: nat ensures FenceAt(t[1..], k) <==> FenceAt(t, k + 1) {
        FenceAtTail(t, k);
      }
      var tail := t[1..];
      if FenceAt(t, 0) {
        var open := SpaceRunEnd(t, WordRunEnd(t, 3));
        var close := NextFence(t, open);
        if close.Some? {
          assert FenceAt(t, 0) && FenceAt(t, close.value) && 0 + 3 <= close.value;
        } else {
          BodiesNonEmptyIff(tail);
          NoFenceInOpening(t);
          assert forall b: nat :: 3 <= b ==> !FenceAt(t, b);
        }
      } else {
        BodiesNonEmptyIff(tail);
        if HasFencePair(t) {
          var a: nat, b: nat :| a + 3 <= b && FenceAt(t, a) && FenceAt(t, b);
          assert a >= 1;
          assert FenceAt(tail, a - 1) && FenceAt(tail, b - 1);
        }
        if HasFencePair(tail) {
          var a: nat, b: nat :| a + 3 <= b && FenceAt(tail, a) && FenceAt(tail, b);
          assert FenceAt(t, a + 1) && FenceAt(t, b + 1);
        }
      }
    }
  }

  /** Without an opening and a closing fence the reply is only trimmed. */
  lemma CleanMarkdownWithoutFences(text: string)
    requires !HasFencePair(Trim(text))
    ensures CleanMarkdown(Some(text)) == Trim(text)
  {
    BodiesNonEmptyIff(Trim(text));
  }

  /** With an opening and a closing fence the result is the bodies joined by a blank line. */
  lemma CleanMarkdownWithFences(text: string)
    requires HasFencePair(Trim(text))
    ensures CleanMarkdown(Some(text)) == Join(Bodies(Trim(text)), "\n\n")
  {
    BodiesNonEmptyIff(Trim(text));
    var bodies := Bodies(Trim(text));
    BodiesTrimmedAndFenceFree(Trim(text));
    assert TrimEach(bodies) == bodies;
  }

  // ---------------------------------------------------------------------------
  // Round trip: a rendered document gives back the bodies of its blocks

  /** A fenced block preceded by some prose. */
  datatype Block = Block(lead: string, tag: string, body: string)

  /** Prose without backticks, a `\w*` tag, and a trimmed body without a fence. */
  predicate WellFormed(b: Block) {
    && '`' !in b.lead
    && (forall i :: 0 <= i < |b.tag| ==> IsWordChar(b.tag[i]))
    && Trimmed(b.body)
    && FenceFree(b.body)
  }

  /** A fenced block on lines of its own. */
  function Fenced(tag: string, body: string): string {
    "```" + tag + "\n" + body + "\n```"
  }

  function RenderBlock(b: Block): string {
    b.lead + Fenced(b.tag, b.body)
  }

  /** The text of a reply made of the given blocks. */
  function Render(doc: seq<Block>): string
    decreases |doc|
  {
    if doc == [] then "" else RenderBlock(doc[0]) + Render(doc[1..])
  }

  function BodiesOf(doc: seq<Block>): seq<string>
    decreases |doc|
  {
    if doc == [] then [] else [doc[0].body] + BodiesOf(doc[1..])
  }

  /** Prose without a backtick in front of a text does not change what is found in it. */
  lemma {:induction false} BodiesSkipProse(p: string, t: string)
    requires '`' !in p
    ensures Bodies(p + t) == Bodies(t)
    decreases |p|
  {
    if p != [] {
      var u := p + t;
      assert u[0] == p[0] && p[0] in p;
      assert u[1..] == p[1..] + t;
      BodiesAtProse(u);
      BodiesSkipProse(p[1..], t);
    } else {
      assert p + t == t;
    }
  }

  /** Where the parts of a rendered block lie. */
  lemma FencedBlockLayout(tag: string, body: string, rest: string)
    ensures var u := Fenced(tag, body) + rest;
            var n, m := |tag|, |body|;
            && |u| == 8 + n + m + |rest|
            && FenceAt(u, 0)
            && (forall i :: 0 <= i < n ==> u[3 + i] == tag[i])
            && u[3 + n] == '\n'
            && (forall i :: 0 <= i < m ==> u[4 + n + i] == body[i])
            && u[4 + n + m] == '\n'
            && FenceAt(u, 5 + n + m)
            && u[4 + n..4 + n + m] == body
            && u[8 + n + m..] == rest
  {
  }

  /**
   * A match at the start of `u`, laid out as a rendered block: fence, `n` word characters,
   * a line break, `m` characters without a fence or whitespace at either end, a line break
   * and the closing fence.
   */
  lemma BodiesOfBlockAt(u: string, n: nat, m: nat)
    requires |u| >= 8 + n + m && FenceAt(u, 0)
    requires forall i :: 3 <= i < 3 + n ==> IsWordChar(u[i])
    requires u[3 + n] == '\n' && u[4 + n + m] == '\n' && FenceAt(u, 5 + n + m)
    requires m > 0 ==> !IsSpace(u[4 + n]) && !IsSpace(u[3 + n + m])
    requires forall k: nat :: 4 + n <= k && k + 3 <= 4 + n + m ==> !FenceAt(u, k)
    ensures Bodies(u) == [u[4 + n..4 + n + m]] + Bodies(u[8 + n + m..])
  {
    // The tag is the whole \w run: the line break after it is not a word character.
    WordRunEndIs(u, 3, 3 + n);
    if m == 0 {
      BodiesOfEmptyBlockAt(u, n);
      assert u[4 + n..4 + n + m] == "";
    } else {
      BodiesOfFullBlockAt(u, n, m);
    }
  }

  /** An empty body: the leading whitespace is both line breaks, up to the closing fence. */
  lemma BodiesOfEmptyBlockAt(u: string, n: nat)
    requires |u| >= 8 + n && FenceAt(u, 0) && WordRunEnd(u, 3) == 3 + n
    requires u[3 + n] == '\n' && u[4 + n] == '\n' && FenceAt(u, 5 + n)
    ensures Bodies(u) == [""] + Bodies(u[8 + n..])
  {
    var close := 5 + n;
    SpaceRunEndIs(u, 3 + n, close);
    NextFenceIs(u, close, close);
    SpaceRunStartIs(u, close, close, close);
    BodiesAtMatch(u, close);
    assert u[close..close] == "";
  }

  /**
   * A non-empty body: the leading whitespace is the line break, the trailing one the line
   * break before the closing fence, and the nearest fence after the opening is the closing one.
   */
  lemma BodiesOfFullBlockAt(u: string, n: nat, m: nat)
    requires m > 0 && |u| >= 8 + n + m && FenceAt(u, 0) && WordRunEnd(u, 3) == 3 + n
    requires u[3 + n] == '\n' && u[4 + n + m] == '\n' && FenceAt(u, 5 + n + m)
    requires !IsSpace(u[4 + n]) && !IsSpace(u[3 + n + m])
    requires forall k: nat :: 4 + n <= k && k + 3 <= 4 + n + m ==> !FenceAt(u, k)
    ensures Bodies(u) == [u[4 + n..4 + n + m]] + Bodies(u[8 + n + m..])
  {
    var open, end, close := 4 + n, 4 + n + m, 5 + n + m;
    SpaceRunEndIs(u, 3 + n, open);
    forall k: nat | open <= k < close ensures !FenceAt(u, k) {
      if k + 3 > end {
        assert k <= end < k + 3;
      }
    }
    NextFenceIs(u, open, close);
    SpaceRunStartIs(u, open, close, end);
    BodiesAtMatch(u, close);
  }

  /** One fenced block in front of a text contributes exactly its body. */
  lemma BodiesOfFencedBlock(tag: string, body: string, rest: string)
    requires forall i :: 0 <= i < |tag| ==> IsWordChar(tag[i])
    requires Trimmed(body) && FenceFree(body)
    ensures Bodies(Fenced(tag, body) + rest) == [body] + Bodies(rest)
  {
    var u := Fenced(tag, body) + rest;
    var n, m := |tag|, |body|;
    FencedBlockLayout(tag, body, rest);
    assert u[4 + n..4 + n + m] == body;
    assert u[8 + n + m..] == rest;
    BodyInside(u, 4 + n, body);
    BodiesOfBlockAt(u, n, m);
    assert Bodies(u) == [body] + Bodies(rest);

  }

  /** A trimmed body without a fence, copied into `u` at `lo`. */
  lemma BodyInside(u: string, lo: nat, body: string)
    requires lo + |body| <= |u| && u[lo..lo + |body|] == body
    requires Trimmed(body) && FenceFree(body)
    ensures forall k: nat :: lo <= k && k + 3 <= lo + |body| ==> !FenceAt(u, k)
    ensures |body| > 0 ==> !IsSpace(u[lo]) && !IsSpace(u[lo + |body| - 1])
  {
    forall k: nat | lo <= k && k + 3 <= lo + |body| ensures !FenceAt(u, k) {
      var b := k - lo;
      assert !FenceAt(body, b);
      assert u[k] == body[b] && u[k + 1] == body[b + 1] && u[k + 2] == body[b + 2];
    }
    if |body| > 0 {
      assert u[lo] == body[0] && u[lo + |body| - 1] == body[|body| - 1];
    }
  }

  lemma {:induction false} BodiesOfRender(doc: seq<Block>)
    requires forall i :: 0 <= i < |doc| ==> WellFormed(doc[i])
    ensures Bodies(Render(doc)) == BodiesOf(doc)
    decreases |doc|
  {
    if doc != [] {
      var b := doc[0];
      var rest := Render(doc[1..]);
      var u := Fenced(b.tag, b.body) + rest;
      assert Render(doc) == b.lead + u;
      BodiesSkipProse(b.lead, u);
      BodiesOfFencedBlock(b.tag, b.body, rest);
      BodiesOfRender(doc[1..]);
    }
  }

  lemma {:induction false} RenderEndsWithFence(doc: seq<Block>)
    requires doc != []
    ensures |Render(doc)| >= 3 && Render(doc)[|Render(doc)| - 1] == '`'
    decreases |doc|
  {
    if doc[1..] != [] {
      RenderEndsWithFence(doc[1..]);
    }
  }

  /** A rendered document that does not open with whitespace is already trimmed. */
  lemma RenderTrimmed(doc: seq<Block>)
    requires doc != [] ==> doc[0].lead == [] || !IsSpace(doc[0].lead[0])
    ensures Trimmed(Render(doc))
  {
    if doc != [] {
      var t := Render(doc);
      RenderEndsWithFence(doc);
      assert t == RenderBlock(doc[0]) + Render(doc[1..]);
      assert t[0] == (if doc[0].lead == [] then '`' else doc[0].lead[0]);
    }
  }

  /** On trimmed text with a match, cleanMarkdown joins the bodies as captured. */
  lemma CleanMarkdownOfTrimmed(t: string)
    requires t != [] && Trimmed(t) && Bodies(t) != []
    ensures CleanMarkdown(Some(t)) == Join(Bodies(t), "\n\n")
  {
    var bodies := Bodies(t);
    BodiesTrimmedAndFenceFree(t);
    assert TrimEach(bodies) == bodies;
  }

  /**
   * cleanMarkdown gives back the bodies of a rendered document, in order, joined by a blank
   * line: the tags and the prose around the blocks are dropped.
   */
  lemma CleanMarkdownOfRender(doc: seq<Block>)
    requires forall i :: 0 <= i < |doc| ==> WellFormed(doc[i])
    requires doc != [] ==> doc[0].lead == [] || !IsSpace(doc[0].lead[0])
    ensures CleanMarkdown(Some(Render(doc))) == Join(BodiesOf(doc), "\n\n")
  {
    BodiesOfRender(doc);
    if doc != [] {
      RenderTrimmed(doc);
      RenderEndsWithFence(doc);
      CleanMarkdownOfTrimmed(Render(doc));
    }
  }

  /** Where the parts of "```" + w + "```" lie. */
  lemma OneWordLayout(w: string)
    ensures var t := "```" + w + "```";
            && |t| == 6 + |w| && FenceAt(t, 0) && FenceAt(t, 3 + |w|)
            && (forall i :: 0 <= i < |w| ==> t[3 + i] == w[i])
  {
  }

  /** Fence, `n` word characters, fence: one match, with an empty body. */
  lemma BodiesOfOneWordAt(u: string, n: nat)
    requires |u| == 6 + n && FenceAt(u, 0) && FenceAt(u, 3 + n)
    requires forall i :: 3 <= i < 3 + n ==> IsWordChar(u[i])
    ensures Bodies(u) == [""]
  {
    WordRunEndIs(u, 3, 3 + n);
    SpaceRunEndIs(u, 3 + n, 3 + n);
    NextFenceIs(u, 3 + n, 3 + n);
    SpaceRunStartIs(u, 3 + n, 3 + n, 3 + n);
    BodiesAtMatch(u, 3 + n);
    assert u[6 + n..] == [] && Bodies([]) == [];
    assert u[3 + n..3 + n] == "";
  }

  /** The text "```" + w + "```" holds one match, with an empty body. */
  lemma BodiesOfOneWordFence(w: string)
    requires |w| > 0 && forall i :: 0 <= i < |w| ==> IsWordChar(w[i])
    ensures Bodies("```" + w + "```") == [""]
  {
    var t := "```" + w + "```";
    OneWordLayout(w);
    BodiesOfOneWordAt(t, |w|);
  }

  /** Fence, word, fence on one line gives an empty result. */
  lemma OneWordFenceIsEmpty(w: string)
    requires |w| > 0 && forall i :: 0 <= i < |w| ==> IsWordChar(w[i])
    ensures CleanMarkdown(Some("```" + w + "```")) == ""
  {
    var t := "```" + w + "```";
    OneWordLayout(w);
    assert Trimmed(t);
    BodiesOfOneWordFence(w);
    assert TrimEach([""]) == [""];
  }

  /** The same word on a line of its own between fences is the result. */
  lemma OneWordBlockBody(w: string)
    requires |w| > 0 && forall i :: 0 <= i < |w| ==> IsWordChar(w[i])
    ensures CleanMarkdown(Some(Fenced("", w))) == w
  {
    assert IsWordChar(w[0]) && IsWordChar(w[|w| - 1]);
    SliceFenceFree(w, 0, |w|);
    assert w[0..|w|] == w;
    var doc := [Block("", "", w)];
    assert doc[1..] == [];
    assert Render(doc) == Fenced("", w);
    assert BodiesOf(doc) == [w];
    CleanMarkdownOfRender(doc);
  }

  /**
   * A block whose first line is a single word loses that word: the optional tag takes it, so
   * "```SELECT```" gives "" while "```\nSELECT\n```" gives "SELECT".
   */
  lemma OneWordBlockIsTakenAsTag(w: string)
    requires |w| > 0 && forall i :: 0 <= i < |w| ==> IsWordChar(w[i])
    ensures CleanMarkdown(Some("```" + w + "```")) == ""
    ensures CleanMarkdown(Some(Fenced("", w))) == w
  {
    OneWordFenceIsEmpty(w);
    OneWordBlockBody(w);
  }
}
