/**
 * The analysis endpoint's response parser: it pulls the `OBJECTS:`, `SCENE:`
 * and `DESCRIPTION:` sections out of the vision model's free text, derives
 * lower-cased tags, merges the result with the caller's context without
 * duplicates, and builds the same-shaped empty result for failures.
 *
 * The three regular expressions are modelled as the backtracking searches a
 * JavaScript engine performs:
 *   OBJECTS:\s*([^\n]+)              /i
 *   SCENE:\s*([^\n]+)                /i
 *   DESCRIPTION:\s*(.+?)(?=\n|$)     /is
 */
module ResponseParser {
  import opened Wrappers
  import opened Text
  import opened Seqs
  import opened UploadTypes

  const ObjectsMarker: string := "OBJECTS:"
  const SceneMarker: string := "SCENE:"
  const DescriptionMarker: string := "DESCRIPTION:"

  /** The fixed confidence given to every extracted label. */
  const LabelConfidence: real := 0.9

  const AnalysisSeparator: string := "\n\nAI Analysis: "

  /** `userContext.technical`; an absent or empty field reads as its default, `composition` is `None` unless it is an array. */
  datatype ContextTechnical = ContextTechnical(orientation: string, quality: string, lighting: string, composition: Option<seq<string>>)

  /** `userContext`; an absent field is modelled by its empty value, which the source's `||` defaults treat alike. */
  datatype Context = Context(
    title: string,
    description: string,
    tags: seq<string>,
    objects: seq<string>,
    scenes: seq<string>,
    technical: ContextTechnical)

  /** `{}`. */
  const EmptyContext := Context("", "", [], [], [], ContextTechnical("", "", "", None))

  // ---------------------------------------------------------------- the regular expressions

  /** The upper-case marker `m` occurs at `p`, ignoring ASCII case (the `i` flag). */
  predicate MarkerAt(s: string, p: nat, m: string) {
    p + |m| <= |s| && forall i :: 0 <= i < |m| ==> FoldCase(s[p + i]) == m[i]
  }

  /**
   * The group captured after a marker ending at `e`, once the greedy `\s*` has
   * given back everything after `k`: `[^\n]+` needs a first character other than
   * '\n' and runs to the end of the line; with `dotAll`, `.+?(?=\n|$)` takes any
   * first character and stops at the first '\n' or the end of the text.
   */
  function CaptureFrom(s: string, e: nat, k: nat, dotAll: bool): (r: Option<string>)
    requires e <= k <= |s|
    decreases k
  {
    if k < |s| && (dotAll || s[k] != '\n') then Some(s[k..LineEnd(s, k + 1)])
    else if k == e then None
    else CaptureFrom(s, e, k - 1, dotAll)
  }

  /** The capture of the whole pattern when it is tried at position `p`. */
  function MatchAt(s: string, p: nat, m: string, dotAll: bool): Option<string> {
    if MarkerAt(s, p, m) then CaptureFrom(s, p + |m|, SkipSpace(s, p + |m|), dotAll) else None
  }

  /** `s.match(re)?.[1]`: the capture at the leftmost position from `p` on where the pattern matches. */
  function Search(s: string, m: string, dotAll: bool, p: nat): Option<string>
    requires m != [] && p <= |s|
    decreases |s| - p
  {
    if p + |m| > |s| then None
    else
      match MatchAt(s, p, m, dotAll)
      case Some(g) => Some(g)
      case None => Search(s, m, dotAll, p + 1)
  }

  function ObjectsGroup(response: string): Option<string> {
    Search(response, ObjectsMarker, false, 0)
  }

  function SceneGroup(response: string): Option<string> {
    Search(response, SceneMarker, false, 0)
  }

  function DescriptionGroup(response: string): Option<string> {
    Search(response, DescriptionMarker, true, 0)
  }

  // ---------------------------------------------------------------- extraction

  /** `.map(x => x.trim()).filter(Boolean)`. */
  function TrimmedNonEmpty(pieces: seq<string>): seq<string> {
    if pieces == [] then []
    else
      var t := Trim(pieces[0]);
      (if t == [] then [] else [t]) + TrimmedNonEmpty(pieces[1..])
  }

  /** `group.split(',').map(x => x.trim()).filter(Boolean)`. */
  function SplitLabels(group: string): seq<string> {
    TrimmedNonEmpty(Split(group, IsComma))
  }

  function GroupLabels(group: Option<string>): seq<string> {
    match group
    case None => []
    case Some(g) => SplitLabels(g)
  }

  function ObjectLabels(response: string): seq<string> {
    GroupLabels(ObjectsGroup(response))
  }

  function SceneLabels(response: string): seq<string> {
    GroupLabels(SceneGroup(response))
  }

  /** `descriptionMatch?.[1]?.trim() || response`. */
  function ParsedDescription(response: string): string {
    match DescriptionGroup(response)
    case Some(g) => if Trim(g) != [] then Trim(g) else response
    case None => response
  }

  function WithConfidence(labels: seq<string>): (r: seq<Entry>)
    ensures |r| == |labels|
    ensures forall i :: 0 <= i < |r| ==> r[i] == Scored(labels[i], LabelConfidence)
  {
    seq(|labels|, i requires 0 <= i < |labels| => Scored(labels[i], LabelConfidence))
  }

  function LowerAll(xs: seq<string>): (r: seq<string>)
    ensures |r| == |xs|
    ensures forall i :: 0 <= i < |xs| ==> r[i] == Lower(xs[i])
  {
    seq(|xs|, i requires 0 <= i < |xs| => Lower(xs[i]))
  }

  /** `[...new Set([...objects.map(lower), ...scenes.map(lower)])]`. */
  function RawTags(objects: seq<string>, scenes: seq<string>): seq<string> {
    Dedup(LowerAll(objects) + LowerAll(scenes))
  }

  /** `.filter(w => w.length > 2)`, where `length` counts UTF-16 code units. */
  function LongWords(ws: seq<string>): (r: seq<string>)
    ensures forall i :: 0 <= i < |r| ==> Utf16Length(r[i]) > 2
    ensures forall w :: w in r <==> w in ws && Utf16Length(w) > 2
  {
    if ws == [] then []
    else (if Utf16Length(ws[0]) > 2 then [ws[0]] else []) + LongWords(ws[1..])
  }

  /**
   * `title ? title.toLowerCase().split(/\s+/).filter(w => w.length > 2) : []`.
   * Splitting at every whitespace character rather than at runs of it only adds
   * empty pieces, which the length filter drops.
   */
  function TitleWords(title: string): seq<string> {
    if title == "" then [] else LongWords(Split(Lower(title), IsSpace))
  }

  function OrDefault(value: string, default: string): string {
    if value != "" then value else default
  }

  /** `technical_details`: the context's settings where given, else landscape/high/natural/[]. */
  function TechnicalFrom(t: ContextTechnical): Technical {
    Technical(
      OrDefault(t.orientation, "landscape"),
      OrDefault(t.quality, "high"),
      OrDefault(t.lighting, "natural"),
      t.composition.GetOr([]))
  }

  /** The final description: the context's description, if any, keeps its place in front. */
  function ComposeDescription(contextDescription: string, parsed: string): string {
    if contextDescription != "" then contextDescription + AnalysisSeparator + parsed else parsed
  }

  /** `parseAnalysisResponse(response, userContext)`. */
  function ParseAnalysisResponse(response: string, ctx: Context): (r: ImageAnalysis)
    ensures r.rawResults.Some?
  {
    var objects := ObjectLabels(response);
    var scenes := SceneLabels(response);
    var description := ParsedDescription(response);
    var tags := RawTags(objects, scenes);
    ImageAnalysis(
      Dedup(ctx.objects + objects),
      Dedup(ctx.scenes + scenes),
      Dedup(TitleWords(ctx.title) + ctx.tags + tags),
      ComposeDescription(ctx.description, description),
      TechnicalFrom(ctx.technical),
      Some(RawAnalysis(WithConfidence(objects), WithConfidence(scenes), tags, description)))
  }

  /** `createErrorResponse(error, userContext)`; the error itself is only logged. */
  function CreateErrorResponse(ctx: Context): (r: ImageAnalysis)
    ensures r.objects == [] && r.scenes == [] && r.tags == [] && r.description == ""
    ensures r.rawResults == Some(RawAnalysis([], [], [], ""))
    ensures r.technicalDetails.composition == []
    ensures r.technicalDetails.orientation != "" && r.technicalDetails.quality != "" && r.technicalDetails.lighting != ""
  {
    ImageAnalysis([], [], [], "", TechnicalFrom(ctx.technical).(composition := []), Some(RawAnalysis([], [], [], "")))
  }

  // ---------------------------------------------------------------- where a section is read from

  /** The first position at or after `p` where the marker occurs. */
  function FirstMarker(s: string, m: string, p: nat): (r: Option<nat>)
    requires p <= |s|
    ensures r.Some? ==> p <= r.value && MarkerAt(s, r.value, m)
    ensures forall q :: p <= q && (r.None? || q < r.value) ==> !MarkerAt(s, q, m)
    decreases |s| - p
  {
    if MarkerAt(s, p, m) then Some(p)
    else if p == |s| then None
    else FirstMarker(s, m, p + 1)
  }

  /**
   * Reference reading of a section: after the first occurrence of its marker,
   * skip whitespace (line breaks included) and take the rest of that line.
   */
  function SectionLine(s: string, m: string): Option<string> {
    match FirstMarker(s, m, 0)
    case None => None
    case Some(p) =>
      var q := SkipSpace(s, p + |m|);
      if q < |s| then Some(s[q..LineEnd(s, q)]) else None
  }

  /** A section read this way is a non-empty single line that starts with a non-space character. */
  lemma SectionLineShape(s: string, m: string)
    ensures var r := SectionLine(s, m);
      r.Some? ==> r.value != [] && !IsSpace(r.value[0]) && '\n' !in r.value
  {
    match FirstMarker(s, m, 0) {
      case None =>
      case Some(p) =>
        var q := SkipSpace(s, p + |m|);
        if q < |s| {
          var line := s[q..LineEnd(s, q)];
          forall k | 0 <= k < |line| ensures line[k] != '\n' {
            assert line[k] == s[q + k];
          }
        }
    }
  }

  /** When the capture fails, everything the `\s*` could give back was a line break (or there was nothing). */
  lemma {:induction false} CaptureNoneRest(s: string, e: nat, k: nat, dotAll: bool)
    requires e <= k <= |s| && CaptureFrom(s, e, k, dotAll) == None
    ensures forall j :: e <= j <= k && j < |s| ==> !dotAll && s[j] == '\n'
    decreases k
  {
    if k != e {
      CaptureNoneRest(s, e, k - 1, dotAll);
    }
  }

  /** When only whitespace follows the marker, whatever is captured is whitespace. */
  lemma {:induction false} CaptureInSpace(s: string, e: nat, k: nat, dotAll: bool)
    requires e <= k <= |s|
    requires forall j :: e <= j < |s| ==> IsSpace(s[j])
    ensures CaptureFrom(s, e, k, dotAll).None? || AllSpace(CaptureFrom(s, e, k, dotAll).value)
    decreases k
  {
    if k < |s| && (dotAll || s[k] != '\n') {
    } else if k != e {
      CaptureInSpace(s, e, k - 1, dotAll);
    }
  }

  /** The capture after a marker ending at `e`, in terms of the first non-space character after it. */
  lemma CaptureAfterSpace(s: string, e: nat, dotAll: bool)
    requires e <= |s|
    ensures SkipSpace(s, e) < |s| ==>
      CaptureFrom(s, e, SkipSpace(s, e), dotAll) == Some(s[SkipSpace(s, e)..LineEnd(s, SkipSpace(s, e))])
    ensures SkipSpace(s, e) == |s| ==>
      CaptureFrom(s, e, |s|, dotAll).None? || AllSpace(CaptureFrom(s, e, |s|, dotAll).value)
  {
    if SkipSpace(s, e) == |s| {
      CaptureInSpace(s, e, |s|, dotAll);
    }
  }

  /** A pattern whose marker does not end in a line break matches first where its marker first occurs. */
  lemma {:induction false} SearchFromFirstMarker(s: string, m: string, dotAll: bool, p: nat)
    requires m != [] && m[|m| - 1] != '\n' && p <= |s|
    ensures Search(s, m, dotAll, p) ==
      match FirstMarker(s, m, p)
      case None => None
      case Some(q) => MatchAt(s, q, m, dotAll)
    decreases |s| - p
  {
    if p + |m| > |s| {
      assert FirstMarker(s, m, p).None?;
    } else if MarkerAt(s, p, m) {
      if MatchAt(s, p, m, dotAll).None? {
        var e := p + |m|;
        var k := SkipSpace(s, e);
        CaptureAfterSpace(s, e, dotAll);
        CaptureNoneRest(s, e, k, dotAll);
        assert k == |s|;
        forall q | p + 1 <= q ensures !MarkerAt(s, q, m) {
          if q + |m| <= |s| {
            var j := q + |m| - 1;
            assert s[j] == '\n';
            assert FoldCase(s[j]) != m[|m| - 1];
          }
        }
        SearchFromFirstMarker(s, m, dotAll, p + 1);
      }
    } else {
      SearchFromFirstMarker(s, m, dotAll, p + 1);
    }
  }

  /** The `[^\n]+` capture and the reference reading agree once the labels are split. */
  lemma LineSectionLabels(s: string, m: string)
    requires m != [] && m[|m| - 1] != '\n'
    ensures GroupLabels(Search(s, m, false, 0)) == GroupLabels(SectionLine(s, m))
  {
    SearchFromFirstMarker(s, m, false, 0);
    match FirstMarker(s, m, 0) {
      case None =>
      case Some(p) => LineSectionAt(s, m, p);
    }
  }

  /** Once the first marker is found, the capture after it and the reference line give the same labels. */
  lemma LineSectionAt(s: string, m: string, p: nat)
    requires FirstMarker(s, m, 0) == Some(p)
    ensures GroupLabels(MatchAt(s, p, m, false)) == GroupLabels(SectionLine(s, m))
  {
    var e := p + |m|;
    CaptureAfterSpace(s, e, false);
    if SkipSpace(s, e) < |s| {
      assert MatchAt(s, p, m, false) == SectionLine(s, m);
    } else {
      assert SectionLine(s, m) == None;
      var g := MatchAt(s, p, m, false);
      if g.Some? {
        SplitLabelsAllSpace(g.value);
      }
    }
  }

  /** Labels of a blank group: none. */
  lemma SplitLabelsAllSpace(g: string)
    requires AllSpace(g)
    ensures SplitLabels(g) == []
  {
    var pieces := Split(g, IsComma);
    SplitPieceChars(g, IsComma);
    forall i | 0 <= i < |pieces| ensures AllSpace(pieces[i]) {
      forall j | 0 <= j < |pieces[i]| ensures IsSpace(pieces[i][j]) {
        var c := pieces[i][j];
        assert c in pieces[i];
        assert c in g;
        var k :| 0 <= k < |g| && g[k] == c;
      }
    }
    TrimmedNonEmptyBlank(pieces);
  }

  lemma {:induction false} TrimmedNonEmptyBlank(pieces: seq<string>)
    requires forall i :: 0 <= i < |pieces| ==> AllSpace(pieces[i])
    ensures TrimmedNonEmpty(pieces) == []
  {
    if pieces != [] {
      TrimAllSpace(pieces[0]);
      TrimmedNonEmptyBlank(pieces[1..]);
    }
  }

  /**
   * Object labels: split the rest of the line after the first case-insensitive
   * `OBJECTS:` (whitespace after the marker, line breaks included, is skipped);
   * no marker, or nothing but whitespace after it, gives no labels.
   */
  lemma ObjectLabelsFromSection(response: string)
    ensures ObjectLabels(response) == GroupLabels(SectionLine(response, ObjectsMarker))
  {
    LineSectionLabels(response, ObjectsMarker);
  }

  /** Scene labels: as for objects, after the first case-insensitive `SCENE:`. */
  lemma SceneLabelsFromSection(response: string)
    ensures SceneLabels(response) == GroupLabels(SectionLine(response, SceneMarker))
  {
    LineSectionLabels(response, SceneMarker);
  }

  /**
   * Description: the trimmed rest of the line after the first case-insensitive
   * `DESCRIPTION:`; the whole response when there is no such marker or nothing
   * but whitespace follows it.
   */
  lemma DescriptionFromSection(response: string)
    ensures ParsedDescription(response) ==
      match SectionLine(response, DescriptionMarker)
      case None => response
      case Some(line) => Trim(line)
    ensures SectionLine(response, DescriptionMarker).Some? ==> Trim(SectionLine(response, DescriptionMarker).value) != []
  {
    var m := DescriptionMarker;
    SectionLineShape(response, m);
    SearchFromFirstMarker(response, m, true, 0);
    if FirstMarker(response, m, 0).Some? {
      var p := FirstMarker(response, m, 0).value;
      CaptureAfterSpace(response, p + |m|, true);
      if SectionLine(response, m).Some? {
        TrimNonBlank(SectionLine(response, m).value);
      } else if DescriptionGroup(response).Some? {
        TrimAllSpace(DescriptionGroup(response).value);
      }
    }
  }

  lemma TrimNonBlank(s: string)
    requires s != [] && !IsSpace(s[0])
    ensures Trim(s) != []
  {
    TrimEmptyIsAllSpace(s);
  }

  // ---------------------------------------------------------------- labels

  /** A label as the parser yields it: non-empty, no surrounding whitespace, no comma. */
  predicate IsLabel(x: string) {
    x != [] && IsTrimmed(x) && ',' !in x
  }

  /** Every character of `x` occurs in `g` and is not a comma. */
  predicate DrawnFrom(x: string, g: string) {
    forall c :: c in x ==> c in g && c != ','
  }

  lemma TrimDrawnFrom(x: string, g: string)
    requires DrawnFrom(x, g)
    ensures DrawnFrom(Trim(x), g)
  {
    TrimChars(x);
  }

  /** Trimming and dropping the empty pieces leaves labels made of the pieces' characters. */
  lemma {:induction false} TrimmedNonEmptyLabels(pieces: seq<string>, g: string)
    requires forall i :: 0 <= i < |pieces| ==> DrawnFrom(pieces[i], g)
    ensures forall i :: 0 <= i < |TrimmedNonEmpty(pieces)| ==>
      IsLabel(TrimmedNonEmpty(pieces)[i]) && DrawnFrom(TrimmedNonEmpty(pieces)[i], g)
  {
    if pieces != [] {
      TrimmedNonEmptyLabels(pieces[1..], g);
      TrimDrawnFrom(pieces[0], g);
      LabelsCons(Trim(pieces[0]), TrimmedNonEmpty(pieces[1..]), g);
    }
  }

  lemma LabelsCons(t: string, rest: seq<string>, g: string)
    requires IsTrimmed(t) && DrawnFrom(t, g)
    requires forall i :: 0 <= i < |rest| ==> IsLabel(rest[i]) && DrawnFrom(rest[i], g)
    ensures var r := (if t == [] then [] else [t]) + rest;
      forall i :: 0 <= i < |r| ==> IsLabel(r[i]) && DrawnFrom(r[i], g)
  {
    if t != [] {
      assert IsLabel(t);
      var r := [t] + rest;
      forall i | 0 <= i < |r| ensures IsLabel(r[i]) && DrawnFrom(r[i], g) {
        if i > 0 {
          assert r[i] == rest[i - 1];
        }
      }
    } else {
      assert [] + rest == rest;
    }
  }

  /** Every label is a well-formed label made of the group's characters. */
  lemma SplitLabelsAreLabels(g: string)
    ensures forall i :: 0 <= i < |SplitLabels(g)| ==> IsLabel(SplitLabels(g)[i])
    ensures forall i, c :: 0 <= i < |SplitLabels(g)| && c in SplitLabels(g)[i] ==> c in g
  {
    var pieces := Split(g, IsComma);
    SplitPieceChars(g, IsComma);
    forall i | 0 <= i < |pieces| ensures DrawnFrom(pieces[i], g) {
      forall c | c in pieces[i] ensures c in g && c != ',' {
        var j :| 0 <= j < |pieces[i]| && pieces[i][j] == c;
      }
    }
    TrimmedNonEmptyLabels(pieces, g);
    var r := SplitLabels(g);
    assert r == TrimmedNonEmpty(pieces);
    forall i | 0 <= i < |r| ensures forall c :: c in r[i] ==> c in g {
      assert DrawnFrom(r[i], g);
    }
  }

  /** Text up to the first comma is the first piece; it contributes its trimmed self unless that is empty. */
  lemma SplitLabelsCons(a: string, b: string)
    requires ',' !in a
    ensures SplitLabels(a + [','] + b) == (if Trim(a) == [] then [] else [Trim(a)]) + SplitLabels(b)
  {
    assert forall i :: 0 <= i < |a| ==> !IsComma(a[i]) by {
      forall i | 0 <= i < |a| ensures !IsComma(a[i]) { assert a[i] in a; }
    }
    SplitAfterPiece(a, b, IsComma, ',');
    var pieces := [a] + Split(b, IsComma);
    assert pieces[1..] == Split(b, IsComma);
  }

  /** A single piece without a comma: its trimmed self, unless that is empty. */
  lemma SplitLabelsSingle(a: string)
    requires ',' !in a
    ensures SplitLabels(a) == if Trim(a) == [] then [] else [Trim(a)]
  {
    assert forall i :: 0 <= i < |a| ==> !IsComma(a[i]) by {
      forall i | 0 <= i < |a| ensures !IsComma(a[i]) { assert a[i] in a; }
    }
    SplitNoSeparator(a, IsComma);
    assert [a][1..] == [];
    assert SplitLabels(a) == TrimmedNonEmpty([a]);
    assert TrimmedNonEmpty([a]) == (if Trim(a) == [] then [] else [Trim(a)]) + TrimmedNonEmpty([]);
  }

  lemma SpaceHasNoComma(pad: string)
    requires AllSpace(pad)
    ensures ',' !in pad
  {
    forall i | 0 <= i < |pad| ensures pad[i] != ',' {
      assert IsSpace(pad[i]);
    }
  }

  /** The first label after some padding, as a piece of the split. */
  lemma PaddedLabel(pad: string, x: string)
    requires AllSpace(pad) && IsLabel(x)
    ensures ',' !in pad + x && Trim(pad + x) == x
  {
    SpaceHasNoComma(pad);
    TrimLeadingSpace(pad, x);
  }

  lemma {:induction false} SplitLabelsPaddedJoin(pad: string, xs: seq<string>)
    requires AllSpace(pad)
    requires forall i :: 0 <= i < |xs| ==> IsLabel(xs[i])
    ensures SplitLabels(pad + Join(xs, ", ")) == xs
    decreases |xs|
  {
    if xs == [] {
      assert pad + Join(xs, ", ") == pad;
      SplitLabelsAllSpace(pad);
    } else if |xs| == 1 {
      PaddedSingleLabel(pad, xs[0]);
      assert pad + Join(xs, ", ") == pad + xs[0];
    } else {
      SplitLabelsPaddedJoin(" ", xs[1..]);
      PaddedLabelsCons(pad, xs);
    }
  }

  lemma PaddedSingleLabel(pad: string, x: string)
    requires AllSpace(pad) && IsLabel(x)
    ensures SplitLabels(pad + x) == [x]
  {
    PaddedLabel(pad, x);
    SplitLabelsSingle(pad + x);
  }

  /** The step of the induction: the first label, then the others after their `", "` separator. */
  lemma PaddedLabelsCons(pad: string, xs: seq<string>)
    requires AllSpace(pad) && |xs| > 1 && IsLabel(xs[0])
    requires SplitLabels(" " + Join(xs[1..], ", ")) == xs[1..]
    ensures SplitLabels(pad + Join(xs, ", ")) == xs
  {
    PaddedLabel(pad, xs[0]);
    JoinCons(pad, xs);
    SplitLabelsCons(pad + xs[0], " " + Join(xs[1..], ", "));
    assert xs == [xs[0]] + xs[1..];
  }

  lemma JoinCons(pad: string, xs: seq<string>)
    requires |xs| > 1
    ensures pad + Join(xs, ", ") == (pad + xs[0]) + [','] + (" " + Join(xs[1..], ", "))
  {
    var rest := Join(xs[1..], ", ");
    assert Join(xs, ", ") == xs[0] + ", " + rest;
    assert ", " + rest == [','] + (" " + rest);
  }

  /** Splitting labels joined the way the reply format lists them gives the labels back. */
  lemma SplitLabelsJoin(xs: seq<string>)
    requires forall i :: 0 <= i < |xs| ==> IsLabel(xs[i])
    ensures SplitLabels(Join(xs, ", ")) == xs
  {
    SplitLabelsPaddedJoin("", xs);
    assert "" + Join(xs, ", ") == Join(xs, ", ");
  }

  /** Re-listing parsed labels and parsing again changes nothing. */
  lemma SplitLabelsNormalForm(g: string)
    ensures SplitLabels(Join(SplitLabels(g), ", ")) == SplitLabels(g)
  {
    SplitLabelsAreLabels(g);
    SplitLabelsJoin(SplitLabels(g));
  }

  /** Raw entries carry the parsed labels, each a well-formed single-line label scored 0.9. */
  lemma RawEntriesWellFormed(response: string, ctx: Context)
    ensures var raw := ParseAnalysisResponse(response, ctx).rawResults.value;
      EntryLabels(raw.objects) == ObjectLabels(response) && EntryLabels(raw.scenes) == SceneLabels(response)
      && WellFormedEntries(raw.objects) && WellFormedEntries(raw.scenes)
  {
    var raw := ParseAnalysisResponse(response, ctx).rawResults.value;
    assert raw.objects == WithConfidence(ObjectLabels(response));
    assert raw.scenes == WithConfidence(SceneLabels(response));
    ObjectLabelsFromSection(response);
    SceneLabelsFromSection(response);
    SectionLineShape(response, ObjectsMarker);
    SectionLineShape(response, SceneMarker);
    EntriesOfSection(SectionLine(response, ObjectsMarker));
    EntriesOfSection(SectionLine(response, SceneMarker));
  }

  /** Scored 0.9, and a single-line well-formed label. */
  predicate WellFormedEntries(es: seq<Entry>) {
    forall i :: 0 <= i < |es| ==>
      es[i].Scored? && es[i].confidence == LabelConfidence && IsLabel(es[i].text) && '\n' !in es[i].text
  }

  lemma EntriesOfSection(line: Option<string>)
    requires line.Some? ==> '\n' !in line.value
    ensures EntryLabels(WithConfidence(GroupLabels(line))) == GroupLabels(line)
    ensures WellFormedEntries(WithConfidence(GroupLabels(line)))
  {
    if line.Some? {
      SplitLabelsAreLabels(line.value);
    }
  }

  // ---------------------------------------------------------------- a reply in the requested format

  /** A label that can be listed in the reply format: also no line break and no colon. */
  predicate IsReplyLabel(x: string) {
    IsLabel(x) && '\n' !in x && ':' !in x
  }

  /** The reply layout the analysis prompt asks the model for. */
  function FormatReply(objects: seq<string>, scenes: seq<string>, description: string): (r: string)
    ensures |r| == 31 + |Join(objects, ", ")| + |Join(scenes, ", ")| + |description|
  {
    "OBJECTS: " + Join(objects, ", ") + "\nSCENE: " + Join(scenes, ", ") + "\nDESCRIPTION: " + description
  }

  /** A section whose first marker is at `p`, followed by one space and `line` up to a line break or the end. */
  lemma SectionAt(s: string, m: string, p: nat, line: string)
    requires MarkerAt(s, p, m) && forall q :: 0 <= q < p ==> !MarkerAt(s, q, m)
    requires line != [] && !IsSpace(line[0]) && '\n' !in line
    requires p + |m| + 1 + |line| <= |s| && s[p + |m|] == ' '
    requires s[p + |m| + 1..p + |m| + 1 + |line|] == line
    requires p + |m| + 1 + |line| == |s| || s[p + |m| + 1 + |line|] == '\n'
    ensures SectionLine(s, m) == Some(line)
  {
    var a := p + |m| + 1;
    var b := a + |line|;
    assert s[a] == line[0];
    SectionAfter(s, m, p, a);
    forall k | a <= k < b ensures s[k] != '\n' {
      assert s[k] == line[k - a];
      assert s[k] in line;
    }
    assert LineEnd(s, a) == b;
  }

  lemma JoinLabelsChars(xs: seq<string>)
    requires xs != [] && forall i :: 0 <= i < |xs| ==> IsReplyLabel(xs[i])
    ensures forall c :: c in Join(xs, ", ") ==> c != '\n' && c != ':'
    ensures xs[0] != [] && !IsSpace(xs[0][0])
    ensures Join(xs, ", ") != [] && Join(xs, ", ")[0] == xs[0][0]
  {
    assert IsReplyLabel(xs[0]);
    JoinChars(xs, ", ", c => c != '\n' && c != ':');
    if |xs| > 1 {
      assert Join(xs, ", ") == xs[0] + ", " + Join(xs[1..], ", ");
    }
  }

  /** Where the parts of a formatted reply sit. */
  lemma ReplyLayout(objects: seq<string>, scenes: seq<string>, description: string)
    ensures var s := FormatReply(objects, scenes, description);
      var o2 := 9 + |Join(objects, ", ")|;
      var o4 := o2 + 8 + |Join(scenes, ", ")|;
      && s[0..8] == ObjectsMarker && s[8] == ' ' && s[9..o2] == Join(objects, ", ") && s[o2] == '\n'
      && s[o2 + 1..o2 + 7] == SceneMarker && s[o2 + 7] == ' ' && s[o2 + 8..o4] == Join(scenes, ", ") && s[o4] == '\n'
      && s[o4 + 1..o4 + 13] == DescriptionMarker && s[o4 + 13] == ' ' && s[o4 + 14..] == description
      && |s| == o4 + 14 + |description| && s[o4 + 14..o4 + 14 + |description|] == description
  {
  }

  /** In a formatted reply, the first colon that is not the one of `OBJECTS:` is the one of `SCENE:`. */
  lemma ReplyColons(objects: seq<string>, scenes: seq<string>, description: string, j: nat)
    requires forall c :: c in Join(objects, ", ") ==> c != ':'
    requires forall c :: c in Join(scenes, ", ") ==> c != ':'
    requires j < 9 + |Join(objects, ", ")| + 8 + |Join(scenes, ", ")| + 12
    requires j != 7 && j != 9 + |Join(objects, ", ")| + 6
    ensures FormatReply(objects, scenes, description)[j] != ':'
  {
    var s := FormatReply(objects, scenes, description);
    var j1 := Join(objects, ", ");
    var j2 := Join(scenes, ", ");
    var o2 := 9 + |j1|;
    var o3 := o2 + 8;
    var o4 := o3 + |j2|;
    ReplyLayout(objects, scenes, description);
    assert ':' !in "OBJECTS" && ':' !in "SCENE" && ':' !in "DESCRIPTION";
    if j < 7 {
      assert s[j] == ObjectsMarker[j] == "OBJECTS"[j];
    } else if 9 <= j < o2 {
      assert s[j] == j1[j - 9];
      assert s[j] in j1;
    } else if o2 + 1 <= j < o2 + 6 {
      assert s[j] == SceneMarker[j - o2 - 1] == "SCENE"[j - o2 - 1];
    } else if o3 <= j < o4 {
      assert s[j] == j2[j - o3];
      assert s[j] in j2;
    } else if o4 + 1 <= j {
      assert s[j] == DescriptionMarker[j - o4 - 1] == "DESCRIPTION"[j - o4 - 1];
    }
  }

  lemma FormattedObjects(objects: seq<string>, scenes: seq<string>, description: string)
    requires objects != [] && forall i :: 0 <= i < |objects| ==> IsReplyLabel(objects[i])
    ensures ObjectLabels(FormatReply(objects, scenes, description)) == objects
  {
    var s := FormatReply(objects, scenes, description);
    ReplyLayout(objects, scenes, description);
    JoinLabelsChars(objects);
    MarkerCopy(s, 0, ObjectsMarker);
    SectionAt(s, ObjectsMarker, 0, Join(objects, ", "));
    ObjectLabelsFromSection(s);
    SplitLabelsJoin(objects);
  }

  lemma FormattedScenes(objects: seq<string>, scenes: seq<string>, description: string)
    requires objects != [] && forall i :: 0 <= i < |objects| ==> IsReplyLabel(objects[i])
    requires scenes != [] && forall i :: 0 <= i < |scenes| ==> IsReplyLabel(scenes[i])
    ensures SceneLabels(FormatReply(objects, scenes, description)) == scenes
  {
    var s := FormatReply(objects, scenes, description);
    var o2 := 9 + |Join(objects, ", ")|;
    ReplyLayout(objects, scenes, description);
    JoinLabelsChars(objects);
    JoinLabelsChars(scenes);
    MarkerCopy(s, o2 + 1, SceneMarker);
    NoEarlierSceneMarker(objects, scenes, description);
    SectionAt(s, SceneMarker, o2 + 1, Join(scenes, ", "));
    SceneLabelsFromSection(s);
    SplitLabelsJoin(scenes);
  }

  /** `SCENE:` does not occur before its own line: the only earlier colon ends `OBJECTS:`. */
  lemma NoEarlierSceneMarker(objects: seq<string>, scenes: seq<string>, description: string)
    requires forall c :: c in Join(objects, ", ") ==> c != ':'
    requires forall c :: c in Join(scenes, ", ") ==> c != ':'
    ensures var s := FormatReply(objects, scenes, description);
      forall q :: 0 <= q < 9 + |Join(objects, ", ")| + 1 ==> !MarkerAt(s, q, SceneMarker)
  {
    var s := FormatReply(objects, scenes, description);
    var o2 := 9 + |Join(objects, ", ")|;
    ReplyLayout(objects, scenes, description);
    forall q | 0 <= q < o2 + 1 ensures !MarkerAt(s, q, SceneMarker) {
      if q == 2 {
        assert s[2] == ObjectsMarker[2];
        assert FoldCase(s[2]) != SceneMarker[0];
      } else {
        ReplyColons(objects, scenes, description, q + 5);
        assert FoldCase(s[q + 5]) != SceneMarker[5];
      }
    }
  }

  /** `DESCRIPTION:` does not occur before its own line: the earlier colons end the other two markers. */
  lemma NoEarlierDescriptionMarker(objects: seq<string>, scenes: seq<string>, description: string)
    requires forall c :: c in Join(objects, ", ") ==> c != ':'
    requires forall c :: c in Join(scenes, ", ") ==> c != ':'
    ensures var s := FormatReply(objects, scenes, description);
      forall q :: 0 <= q < 9 + |Join(objects, ", ")| + 8 + |Join(scenes, ", ")| + 1 ==> !MarkerAt(s, q, DescriptionMarker)
  {
    var s := FormatReply(objects, scenes, description);
    var o2 := 9 + |Join(objects, ", ")|;
    var o4 := o2 + 8 + |Join(scenes, ", ")|;
    ReplyLayout(objects, scenes, description);
    forall q | 0 <= q < o4 + 1 ensures !MarkerAt(s, q, DescriptionMarker) {
      if q + 11 == o2 + 6 {
        assert s[q + 10] == SceneMarker[4];
        assert FoldCase(s[q + 10]) != DescriptionMarker[10];
      } else if q + 12 <= |s| {
        ReplyColons(objects, scenes, description, q + 11);
        assert FoldCase(s[q + 11]) != DescriptionMarker[11];
      }
    }
  }

  lemma FormattedDescription(objects: seq<string>, scenes: seq<string>, description: string)
    requires objects != [] && forall i :: 0 <= i < |objects| ==> IsReplyLabel(objects[i])
    requires scenes != [] && forall i :: 0 <= i < |scenes| ==> IsReplyLabel(scenes[i])
    requires description != [] && IsTrimmed(description) && '\n' !in description
    ensures ParsedDescription(FormatReply(objects, scenes, description)) == description
  {
    var s := FormatReply(objects, scenes, description);
    var o2 := 9 + |Join(objects, ", ")|;
    var o4 := o2 + 8 + |Join(scenes, ", ")|;
    ReplyLayout(objects, scenes, description);
    JoinLabelsChars(objects);
    JoinLabelsChars(scenes);
    MarkerCopy(s, o4 + 1, DescriptionMarker);
    NoEarlierDescriptionMarker(objects, scenes, description);
    SectionAt(s, DescriptionMarker, o4 + 1, description);
    DescriptionFromSection(s);
    TrimmedIsFixed(description);
  }

  /**
   * Round trip: a reply in the requested format, with at least one object and
   * one scene, labels free of line breaks and colons and a one-line trimmed
   * description, parses back to exactly those labels and that description.
   */
  lemma FormattedReplyRoundTrip(objects: seq<string>, scenes: seq<string>, description: string)
    requires objects != [] && scenes != []
    requires forall i :: 0 <= i < |objects| ==> IsReplyLabel(objects[i])
    requires forall i :: 0 <= i < |scenes| ==> IsReplyLabel(scenes[i])
    requires description != [] && IsTrimmed(description) && '\n' !in description
    ensures ObjectLabels(FormatReply(objects, scenes, description)) == objects
    ensures SceneLabels(FormatReply(objects, scenes, description)) == scenes
    ensures ParsedDescription(FormatReply(objects, scenes, description)) == description
  {
    FormattedObjects(objects, scenes, description);
    FormattedScenes(objects, scenes, description);
    FormattedDescription(objects, scenes, description);
  }

  /**
   * The greedy `\s*` also skips line breaks: when only whitespace follows
   * `OBJECTS:` on its line, the objects are read from the next non-blank line,
   * e.g. `"OBJECTS: \nSCENE: park"` yields the single object `"SCENE: park"`.
   */
  lemma BlankObjectsLineReadsNextLine(blank: string, line: string)
    requires AllSpace(blank) && IsLabel(line) && '\n' !in line
    ensures ObjectLabels(ObjectsMarker + blank + line) == [line]
  {
    var s := ObjectsMarker + blank + line;
    var a := 8 + |blank|;
    assert s[0..8] == ObjectsMarker;
    MarkerCopy(s, 0, ObjectsMarker);
    assert s[8..a] == blank && s[a..] == line && s[a..|s|] == line;
    forall k | 8 <= k < a ensures IsSpace(s[k]) {
      assert s[k] == blank[k - 8];
    }
    LineEndNoBreak(s, a);
    SectionAfter(s, ObjectsMarker, 0, a);
    assert SectionLine(s, ObjectsMarker) == Some(line);
    ObjectLabelsFromSection(s);
    SplitLabelsSingle(line);
    TrimmedIsFixed(line);
    assert SplitLabels(line) == [line];
  }

  lemma FirstMarkerIs(s: string, m: string, p: nat)
    requires MarkerAt(s, p, m) && forall q :: 0 <= q < p ==> !MarkerAt(s, q, m)
    ensures FirstMarker(s, m, 0) == Some(p)
  {
    var r := FirstMarker(s, m, 0);
    assert r.Some?;
    assert r.value <= p;
  }

  /** A section whose first marker is at `p` and whose text starts, after whitespace, at `a`. */
  lemma SectionAfter(s: string, m: string, p: nat, a: nat)
    requires MarkerAt(s, p, m) && forall q :: 0 <= q < p ==> !MarkerAt(s, q, m)
    requires p + |m| <= a < |s| && !IsSpace(s[a])
    requires forall k :: p + |m| <= k < a ==> IsSpace(s[k])
    ensures SectionLine(s, m) == Some(s[a..LineEnd(s, a)])
  {
    FirstMarkerIs(s, m, p);
    SkipSpaceTo(s, p + |m|, a);
  }

  lemma LineEndNoBreak(s: string, i: nat)
    requires i <= |s| && '\n' !in s[i..]
    ensures LineEnd(s, i) == |s|
  {
    forall k | i <= k < |s| ensures s[k] != '\n' {
      assert s[k] == s[i..][k - i];
    }
  }

  /** A copy of a marker written without lower-case letters is an occurrence of it. */
  lemma MarkerCopy(s: string, p: nat, m: string)
    requires forall c :: c in m ==> !('a' <= c <= 'z')
    requires p + |m| <= |s| && s[p..p + |m|] == m
    ensures MarkerAt(s, p, m)
  {
    forall i | 0 <= i < |m| ensures FoldCase(s[p + i]) == m[i] {
      assert s[p + i] == s[p..p + |m|][i];
      assert m[i] in m;
    }
  }

  // ---------------------------------------------------------------- the merged result

  /** Without any of the three markers, nothing is extracted and the whole response is the description. */
  lemma NoMarkersFallback(response: string, ctx: Context)
    requires forall p: nat :: !MarkerAt(response, p, ObjectsMarker)
    requires forall p: nat :: !MarkerAt(response, p, SceneMarker)
    requires forall p: nat :: !MarkerAt(response, p, DescriptionMarker)
    ensures ParseAnalysisResponse(response, ctx).rawResults == Some(RawAnalysis([], [], [], response))
    ensures ctx == EmptyContext ==>
      ParseAnalysisResponse(response, ctx) ==
        ImageAnalysis([], [], [], response, DefaultTechnical, Some(RawAnalysis([], [], [], response)))
  {
    assert FirstMarker(response, ObjectsMarker, 0).None?;
    assert FirstMarker(response, SceneMarker, 0).None?;
    assert FirstMarker(response, DescriptionMarker, 0).None?;
    ObjectLabelsFromSection(response);
    SceneLabelsFromSection(response);
    DescriptionFromSection(response);
    assert RawTags([], []) == [];
  }

  /**
   * Objects and scenes are the union of the context's list and the parsed
   * labels: every element of either, nothing else, no duplicates, and a
   * duplicate-free context list comes first, unchanged.
   */
  lemma MergedListsAreUnions(response: string, ctx: Context)
    ensures var r := ParseAnalysisResponse(response, ctx);
      && (forall x :: x in r.objects <==> x in ctx.objects || x in ObjectLabels(response))
      && (forall x :: x in r.scenes <==> x in ctx.scenes || x in SceneLabels(response))
      && NoDups(r.objects) && NoDups(r.scenes)
      && (NoDups(ctx.objects) ==> ctx.objects <= r.objects)
      && (NoDups(ctx.scenes) ==> ctx.scenes <= r.scenes)
  {
    UnionContextFirst(ctx.objects, ObjectLabels(response));
    UnionContextFirst(ctx.scenes, SceneLabels(response));
  }

  /** Tags come from the lower-cased labels, objects first, each once. */
  lemma RawTagsFromLabels(objects: seq<string>, scenes: seq<string>)
    ensures NoDups(RawTags(objects, scenes))
    ensures forall t :: t in RawTags(objects, scenes) <==>
      (exists i :: 0 <= i < |objects| && t == Lower(objects[i])) || (exists i :: 0 <= i < |scenes| && t == Lower(scenes[i]))
    ensures forall t :: t in RawTags(objects, scenes) ==> IsLowerCase(t)
  {
    var all := LowerAll(objects) + LowerAll(scenes);
    forall t ensures t in all <==>
      (exists i :: 0 <= i < |objects| && t == Lower(objects[i])) || (exists i :: 0 <= i < |scenes| && t == Lower(scenes[i]))
    {
      if t in LowerAll(objects) {
        var i :| 0 <= i < |objects| && LowerAll(objects)[i] == t;
      }
      if t in LowerAll(scenes) {
        var i :| 0 <= i < |scenes| && LowerAll(scenes)[i] == t;
      }
      if exists i :: 0 <= i < |objects| && t == Lower(objects[i]) {
        var i :| 0 <= i < |objects| && t == Lower(objects[i]);
        assert LowerAll(objects)[i] == t;
      }
      if exists i :: 0 <= i < |scenes| && t == Lower(scenes[i]) {
        var i :| 0 <= i < |scenes| && t == Lower(scenes[i]);
        assert LowerAll(scenes)[i] == t;
      }
    }
    forall t | t in RawTags(objects, scenes) ensures IsLowerCase(t) {
      if exists i :: 0 <= i < |objects| && t == Lower(objects[i]) {
        var i :| 0 <= i < |objects| && t == Lower(objects[i]);
        LowerIsLowerCase(objects[i]);
      } else {
        var i :| 0 <= i < |scenes| && t == Lower(scenes[i]);
        LowerIsLowerCase(scenes[i]);
      }
    }
  }

  /** No ASCII upper-case letter. */
  predicate IsLowerCase(t: string) {
    forall i :: 0 <= i < |t| ==> !('A' <= t[i] <= 'Z')
  }

  lemma LowerIsLowerCase(t: string)
    ensures IsLowerCase(Lower(t))
  {
  }

  /** Title words: lower-case, free of whitespace, longer than two UTF-16 units; every such piece of the title is one. */
  lemma TitleWordsAreKeywords(title: string)
    ensures forall w :: w in TitleWords(title) ==> Utf16Length(w) > 2 && IsLowerCase(w) && forall c :: c in w ==> !IsSpace(c)
    ensures forall w :: w in Split(Lower(title), IsSpace) && Utf16Length(w) > 2 ==> w in TitleWords(title)
  {
    if title != "" {
      var lower := Lower(title);
      var pieces := Split(lower, IsSpace);
      LowerIsLowerCase(title);
      SplitPieceChars(lower, IsSpace);
      forall w | w in pieces ensures IsLowerCase(w) && forall c :: c in w ==> !IsSpace(c) {
        forall j | 0 <= j < |w| ensures !('A' <= w[j] <= 'Z') {
          assert w[j] in w;
          var k :| 0 <= k < |pieces| && pieces[k] == w;
          assert w[j] in lower;
        }
        forall c | c in w ensures !IsSpace(c) {
          var j :| 0 <= j < |w| && w[j] == c;
          var k :| 0 <= k < |pieces| && pieces[k] == w;
        }
      }
    }
  }

  /** `length` counts a character beyond the basic multilingual plane twice, so the two-character title "🐱s" is a keyword. */
  lemma SupplementaryCharCountsTwice()
    ensures Utf16Length("\U{1F431}s") == 3
    ensures TitleWords("\U{1F431}s") == ["\U{1F431}s"]
  {
    var w := "\U{1F431}s";
    assert Lower(w) == w;
    SplitNoSeparator(w, IsSpace);
    assert Utf16Length(w) == 2 + Utf16Length(w[1..]);
  }

  /**
   * The final tags: title words, then the context's tags, then the parsed
   * tags, each once, and nothing else.
   */
  lemma MergedTags(response: string, ctx: Context)
    ensures var r := ParseAnalysisResponse(response, ctx);
      && NoDups(r.tags)
      && (forall t :: t in r.tags <==> t in TitleWords(ctx.title) || t in ctx.tags || t in r.rawResults.value.tags)
      && r.rawResults.value.tags == RawTags(ObjectLabels(response), SceneLabels(response))
  {
    UnionContextFirst(TitleWords(ctx.title) + ctx.tags, RawTags(ObjectLabels(response), SceneLabels(response)));
  }

  /**
   * The parsed description is the whole response, or one trimmed non-empty
   * line of it.
   */
  lemma ParsedDescriptionShape(response: string)
    ensures var d := ParsedDescription(response);
      d == response || (d != [] && IsTrimmed(d) && '\n' !in d)
  {
    DescriptionFromSection(response);
    SectionLineShape(response, DescriptionMarker);
    var line := SectionLine(response, DescriptionMarker);
    if line.Some? {
      var t := Trim(line.value);
      forall c | c in t ensures c != '\n' {
        assert c in line.value;
      }
    }
  }

  /**
   * The context's description is kept in front of the parsed one, separated by
   * a blank line and the `AI Analysis:` heading; without one the parsed
   * description is the result.
   */
  lemma DescriptionKeepsContext(response: string, ctx: Context)
    ensures var r := ParseAnalysisResponse(response, ctx); var d := ParsedDescription(response);
      && (ctx.description == "" ==> r.description == d)
      && (ctx.description != "" ==>
            |r.description| == |ctx.description| + |AnalysisSeparator| + |d|
            && r.description[..|ctx.description|] == ctx.description
            && r.description[|ctx.description|..|ctx.description| + |AnalysisSeparator|] == AnalysisSeparator
            && r.description[|ctx.description| + |AnalysisSeparator|..] == d)
  {
    var d := ParsedDescription(response);
    assert ParseAnalysisResponse(response, ctx).description == ComposeDescription(ctx.description, d);
    if ctx.description != "" {
      ThreeParts(ctx.description, AnalysisSeparator, d);
    }
  }

  lemma ThreeParts(a: string, b: string, c: string)
    ensures var t := a + b + c;
      && |t| == |a| + |b| + |c|
      && t[..|a|] == a && t[|a|..|a| + |b|] == b && t[|a| + |b|..] == c
  {
  }

  /**
   * Technical details never depend on the model's reply: a setting in the
   * context is kept, a missing one takes its default, and failures report the
   * same settings with no composition.
   */
  lemma TechnicalFromContextOnly(response1: string, response2: string, ctx: Context)
    ensures ParseAnalysisResponse(response1, ctx).technicalDetails == ParseAnalysisResponse(response2, ctx).technicalDetails
    ensures CreateErrorResponse(ctx).technicalDetails ==
      ParseAnalysisResponse(response1, ctx).technicalDetails.(composition := [])
    ensures var t := ParseAnalysisResponse(response1, ctx).technicalDetails;
      && (ctx.technical.orientation != "" ==> t.orientation == ctx.technical.orientation)
      && (ctx.technical.orientation == "" ==> t.orientation == DefaultTechnical.orientation)
      && (ctx.technical.quality != "" ==> t.quality == ctx.technical.quality)
      && (ctx.technical.quality == "" ==> t.quality == DefaultTechnical.quality)
      && (ctx.technical.lighting != "" ==> t.lighting == ctx.technical.lighting)
      && (ctx.technical.lighting == "" ==> t.lighting == DefaultTechnical.lighting)
      && (ctx.technical.composition.Some? ==> t.composition == ctx.technical.composition.value)
      && (ctx.technical.composition.None? ==> t.composition == [])
  {
  }

  /**
   * The failure result is what parsing an empty reply gives when the context
   * contributes only its technical settings (without a composition).
   */
  lemma ErrorResponseIsEmptyParse(ctx: Context)
    ensures CreateErrorResponse(ctx) ==
      ParseAnalysisResponse("", EmptyContext.(technical := ctx.technical.(composition := None)))
  {
    var c := EmptyContext.(technical := ctx.technical.(composition := None));
    assert FirstMarker("", ObjectsMarker, 0).None?;
    assert FirstMarker("", SceneMarker, 0).None?;
    assert FirstMarker("", DescriptionMarker, 0).None?;
    ObjectLabelsFromSection("");
    SceneLabelsFromSection("");
    DescriptionFromSection("");
    assert RawTags([], []) == [];
  }
}
