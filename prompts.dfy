/**
 * The request sent to the vision model: one user message holding the image
 * URL and a text prompt that mentions the known title and description and asks
 * for the `OBJECTS:` / `SCENE:` / `DESCRIPTION:` reply layout.
 */
module Prompts {

  datatype Role = User | Assistant

  /** `{type: "image_url", image_url: {url}}` or `{type: "text", text}`. */
  datatype ContentPart = ImageUrlPart(url: string) | TextPart(text: string)

  datatype Message = Message(role: Role, content: seq<ContentPart>)

  const Preamble: string := "Analyze this image in detail. "
  const TitleOpening: string := "The image is titled \""
  const DescriptionOpening: string := "Current description: \""
  const ClauseClosing: string := "\". "
  const Instructions: string :=
    "\n\nPlease provide:\n"
    + "1. A list of main objects and elements visible in the image\n"
    + "2. The overall scene or setting\n"
    + "3. Any notable visual characteristics\n"
    + "4. A natural, detailed description of the image\n"
    + "\nFormat the response as:\n"
    + "OBJECTS: [comma-separated list of objects]\n"
    + "SCENE: [brief scene description]\n"
    + "DESCRIPTION: [detailed description]"

  /** Mentioned only when given (an empty title is falsy). */
  function TitleClause(title: string): string {
    if title != "" then TitleOpening + title + ClauseClosing else ""
  }

  function DescriptionClause(description: string): string {
    if description != "" then DescriptionOpening + description + ClauseClosing else ""
  }

  function PromptText(title: string, description: string): string {
    Preamble + (TitleClause(title) + DescriptionClause(description)) + Instructions
  }

  /** `createImageAnalysisPrompt(imageUrl, {title, description})`; an absent field is the empty string. */
  function CreateImageAnalysisPrompt(imageUrl: string, title: string, description: string): (r: seq<Message>)
    ensures |r| == 1 && r[0].role == User && |r[0].content| == 2
    ensures r[0].content[0] == ImageUrlPart(imageUrl) && r[0].content[1].TextPart?
  {
    [Message(User, [ImageUrlPart(imageUrl), TextPart(PromptText(title, description))])]
  }

  /** The reply layout is long enough to hold either opening and starts with a line break. */
  lemma InstructionsShape()
    ensures |Instructions| >= |TitleOpening| + |DescriptionOpening| && Instructions[0] == '\n'
  {
  }

  /** The clauses are recognisable by their first character: 'T', 'C', or the tail's line break. */
  lemma ClausesLayout(title: string, description: string, tail: string)
    requires |tail| >= |TitleOpening| + |DescriptionOpening| && tail[0] == '\n'
    ensures var rest := TitleClause(title) + DescriptionClause(description) + tail;
      && (title != "" <==> rest[..|TitleOpening|] == TitleOpening)
      && (description != "" <==> rest[|TitleClause(title)|..][..|DescriptionOpening|] == DescriptionOpening)
  {
    var after := DescriptionClause(description) + tail;
    var rest := TitleClause(title) + after;
    assert rest[|TitleClause(title)|..] == after;
    if description == "" {
      assert after[0] == '\n';
    } else {
      assert after[..|DescriptionOpening|] == DescriptionOpening;
    }
    if title == "" {
      assert rest == after;
      assert after[0] != TitleOpening[0];
    } else {
      assert rest[..|TitleOpening|] == TitleOpening;
    }
  }

  /**
   * How a prompt built from `pre`, the optional clauses and `tail` reads: it
   * opens with `pre` and closes with `tail`; the title clause follows `pre`
   * exactly when a title is given, and the description clause follows it
   * exactly when a description is given.
   */
  predicate LaidOut(t: string, pre: string, tail: string, title: string, description: string) {
    && pre <= t
    && |t| >= |pre| + |tail|
    && t[|t| - |tail|..] == tail
    && (title != "" <==> |t| >= |pre| + |TitleOpening| && t[|pre|..][..|TitleOpening|] == TitleOpening)
    && (description != "" <==>
          |t| >= |pre| + |TitleClause(title)| + |DescriptionOpening|
          && t[|pre| + |TitleClause(title)|..][..|DescriptionOpening|] == DescriptionOpening)
  }

  /** The prompt text is laid out as the preamble, the clauses that apply, and the reply layout. */
  lemma PromptLayout(title: string, description: string)
    ensures LaidOut(PromptText(title, description), Preamble, Instructions, title, description)
  {
    InstructionsShape();
    FramedClausesLayout(Preamble, title, description, Instructions);
  }

  lemma FramedClausesLayout(pre: string, title: string, description: string, tail: string)
    requires |tail| >= |TitleOpening| + |DescriptionOpening| && tail[0] == '\n'
    ensures LaidOut(pre + (TitleClause(title) + DescriptionClause(description)) + tail, pre, tail, title, description)
  {
    FrameLayout(pre, TitleClause(title) + DescriptionClause(description), tail);
    ClausesLayout(title, description, tail);
  }

  /** A text framed by an opening and a closing keeps both where they were put. */
  lemma FrameLayout(pre: string, mid: string, tail: string)
    ensures var t := pre + mid + tail;
      && pre <= t
      && |t| == |pre| + |mid| + |tail|
      && t[|t| - |tail|..] == tail
      && t[|pre|..] == mid + tail
  {
    var t := pre + mid + tail;
    assert t[|pre|..] == mid + tail;
  }

  /** Text free of double quotes, so that a clause's closing quote ends it. */
  predicate QuoteFree(s: string) {
    '"' !in s
  }

  lemma {:induction false} QuotedPrefix(a: string, b: string, x: string, y: string)
    requires QuoteFree(a) && QuoteFree(b)
    requires a + ['"'] + x == b + ['"'] + y
    ensures a == b && x == y
  {
    var s := a + ['"'] + x;
    assert s[|a|] == '"' && s[|b|] == '"';
    assert |a| == |b|;
    assert a == s[..|a|] == b;
    assert x == s[|a| + 1..] == y;
  }

  lemma ClauseInjective(opening: string, v1: string, v2: string, rest1: string, rest2: string)
    requires QuoteFree(v1) && QuoteFree(v2)
    requires opening + v1 + ClauseClosing + rest1 == opening + v2 + ClauseClosing + rest2
    ensures v1 == v2 && rest1 == rest2
  {
    var s1 := opening + v1 + ClauseClosing + rest1;
    var s2 := opening + v2 + ClauseClosing + rest2;
    assert s1[|opening|..] == v1 + ['"'] + (". " + rest1);
    assert s2[|opening|..] == v2 + ['"'] + (". " + rest2);
    QuotedPrefix(v1, v2, ". " + rest1, ". " + rest2);
    assert rest1 == (". " + rest1)[2..];
    assert rest2 == (". " + rest2)[2..];
  }

  /** A clause is recognised by its opening's first character, which what may follow it does not start with. */
  lemma OptionalClauseInjective(opening: string, v1: string, v2: string, r1: string, r2: string)
    requires opening != [] && QuoteFree(v1) && QuoteFree(v2)
    requires r1 != [] && r2 != [] && r1[0] != opening[0] && r2[0] != opening[0]
    requires (if v1 != "" then opening + v1 + ClauseClosing else "") + r1
          == (if v2 != "" then opening + v2 + ClauseClosing else "") + r2
    ensures v1 == v2 && r1 == r2
  {
    var c1 := if v1 != "" then opening + v1 + ClauseClosing else "";
    var c2 := if v2 != "" then opening + v2 + ClauseClosing else "";
    assert (c1 + r1)[0] == if v1 != "" then opening[0] else r1[0];
    assert (c2 + r2)[0] == if v2 != "" then opening[0] else r2[0];
    if v1 != "" && v2 != "" {
      assert opening + v1 + ClauseClosing + r1 == c1 + r1;
      assert opening + v2 + ClauseClosing + r2 == c2 + r2;
      ClauseInjective(opening, v1, v2, r1, r2);
    } else if v1 == "" && v2 == "" {
      assert c1 + r1 == r1 && c2 + r2 == r2;
    }
  }

  lemma Reassociate(pre: string, a: string, b: string, tail: string)
    ensures pre + (a + b) + tail == pre + (a + (b + tail))
  {
  }

  lemma CancelPrefix(pre: string, x: string, y: string)
    requires pre + x == pre + y
    ensures x == y
  {
    assert x == (pre + x)[|pre|..];
    assert y == (pre + y)[|pre|..];
  }

  /** Two prompts with the same frame, whose tail starts with a line break, are equal only for equal values. */
  lemma ClausesInjective(pre: string, t1: string, d1: string, t2: string, d2: string, tail: string)
    requires QuoteFree(t1) && QuoteFree(d1) && QuoteFree(t2) && QuoteFree(d2)
    requires tail != [] && tail[0] == '\n'
    requires pre + (TitleClause(t1) + DescriptionClause(d1)) + tail == pre + (TitleClause(t2) + DescriptionClause(d2)) + tail
    ensures t1 == t2 && d1 == d2
  {
    var r1 := DescriptionClause(d1) + tail;
    var r2 := DescriptionClause(d2) + tail;
    Reassociate(pre, TitleClause(t1), DescriptionClause(d1), tail);
    Reassociate(pre, TitleClause(t2), DescriptionClause(d2), tail);
    CancelPrefix(pre, TitleClause(t1) + r1, TitleClause(t2) + r2);
    assert r1[0] != TitleOpening[0] && r2[0] != TitleOpening[0];
    OptionalClauseInjective(TitleOpening, t1, t2, r1, r2);
    OptionalClauseInjective(DescriptionOpening, d1, d2, tail, tail);
  }

  /**
   * The request determines the image and the context it carries: for a title
   * and a description without double quotes, two requests are equal exactly
   * when their URLs, titles and descriptions are.
   */
  lemma PromptDeterminesContext(url1: string, t1: string, d1: string, url2: string, t2: string, d2: string)
    requires QuoteFree(t1) && QuoteFree(d1) && QuoteFree(t2) && QuoteFree(d2)
    ensures CreateImageAnalysisPrompt(url1, t1, d1) == CreateImageAnalysisPrompt(url2, t2, d2)
      <==> url1 == url2 && t1 == t2 && d1 == d2
  {
    if CreateImageAnalysisPrompt(url1, t1, d1) == CreateImageAnalysisPrompt(url2, t2, d2) {
      var p1 := PromptText(t1, d1);
      var p2 := PromptText(t2, d2);
      assert TextPart(p1) == CreateImageAnalysisPrompt(url1, t1, d1)[0].content[1];
      assert p1 == p2;
      InstructionsShape();
      ClausesInjective(Preamble, t1, d1, t2, d2, Instructions);
    }
  }
}
