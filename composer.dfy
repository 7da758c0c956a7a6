/** The agent composer (backend/app/agent/composer.py).  `_extract_animation_specs`
    asks a model for a JSON plan of animations, cuts the first `{` ... last `}`
    out of the answer, parses it and keeps the usable descriptions;
    `compose_document` renders one animation per description through the
    Manim tool, describes the successful ones in LaTeX comments appended to
    the prompt, and asks the LaTeX tool for the document.  The model's
    answer, `json.loads`, `uuid4().hex` and the two tools' `run` are
    parameters. */
module Composer {
  import opened Wrappers
  import opened Strings
  import opened Json
  import opened Registry

  // ---------------------------------------------------------------------------
  // _extract_animation_specs
  // ---------------------------------------------------------------------------

  /** The text handed to `json.loads`: the whole answer when it is already
      braced, else the span from the first `{` to the last `}` when both exist
      in that order, else the whole answer.  Whatever it is, it is either the
      answer itself or a braced piece of it. */
  function ExtractCandidate(raw: string): (candidate: string)
    ensures StartsWith(raw, "{") && EndsWith(raw, "}") ==> candidate == raw
    ensures candidate == raw || (|candidate| >= 2 && candidate[0] == '{' && candidate[|candidate| - 1] == '}')
    ensures |candidate| <= |raw|
  {
    if StartsWith(raw, "{") && EndsWith(raw, "}") then raw
    else
      var start := Find(raw, '{');
      var end := RFind(raw, '}');
      if start != -1 && end != -1 && end > start then raw[start..end + 1] else raw
  }

  /** When the answer is not braced but holds a `{` at `i` (the first) and a
      `}` at `j` (the last) with `i < j`, the candidate is exactly that span. */
  lemma CandidateFirstToLast(raw: string, i: int, j: int)
    requires !(StartsWith(raw, "{") && EndsWith(raw, "}"))
    requires 0 <= i < j < |raw|
    requires raw[i] == '{' && '{' !in raw[..i]
    requires raw[j] == '}' && '}' !in raw[j + 1..]
    ensures ExtractCandidate(raw) == raw[i..j + 1]
  {
  }

  /** Without a `{`, without a `}`, or with every `}` before every `{`, the
      answer goes to the parser as it is. */
  lemma CandidateUnchanged(raw: string)
    requires '{' !in raw || '}' !in raw
      || forall i, j :: 0 <= i < |raw| && 0 <= j < |raw| && raw[i] == '{' && raw[j] == '}' ==> j < i
    ensures ExtractCandidate(raw) == raw
  {
  }

  /** Extracting twice is extracting once. */
  lemma CandidateIdempotent(raw: string)
    ensures ExtractCandidate(ExtractCandidate(raw)) == ExtractCandidate(raw)
  {
    var c := ExtractCandidate(raw);
    if c != raw {
      assert c[..1] == "{" && c[|c| - 1..] == "}";
    }
  }

  /** The entry `{"description": desc}` a plan lists per animation. */
  function PlanEntry(desc: string): Json {
    JObject(map["description" := JString(desc)])
  }

  /** What one entry of the `animations` list contributes: its stripped
      description when the entry is a dict whose `description` is a string of
      5 to 500 characters before stripping, nothing otherwise. */
  function KeptDescription(a: Json): seq<string> {
    if a.JObject? && "description" in a.fields && a.fields["description"].JString?
       && 5 <= |a.fields["description"].s| <= 500
    then [Strip(a.fields["description"].s)]
    else []
  }

  /** The pieces `f` gives for each element, concatenated in order. */
  function ConcatMap<T>(xs: seq<T>, f: T -> seq<string>): seq<string> {
    if |xs| == 0 then [] else ConcatMap(xs[..|xs| - 1], f) + f(xs[|xs| - 1])
  }

  /** Mapping a concatenation concatenates the results, so order is kept. */
  lemma {:induction false} ConcatMapAppend<T>(a: seq<T>, b: seq<T>, f: T -> seq<string>)
    ensures ConcatMap(a + b, f) == ConcatMap(a, f) + ConcatMap(b, f)
    decreases |b|
  {
    if |b| == 0 {
      assert a + b == a;
    } else {
      var n := |b| - 1;
      var ab := a + b;
      assert ab[..|ab| - 1] == a + b[..n];
      assert ab[|ab| - 1] == b[n];
      ConcatMapAppend(a, b[..n], f);
    }
  }

  /** The descriptions the filter loop keeps, in list order. */
  function KeptDescriptions(items: seq<Json>): seq<string> {
    ConcatMap(items, KeptDescription)
  }

  /** The filter works entry by entry: filtering a concatenation concatenates
      the results, so the kept descriptions keep the list's order. */
  lemma KeptAppend(a: seq<Json>, b: seq<Json>)
    ensures KeptDescriptions(a + b) == KeptDescriptions(a) + KeptDescriptions(b)
  {
    ConcatMapAppend(a, b, KeptDescription);
  }

  /** Every kept description is stripped and at most 500 characters long, and
      no more descriptions are kept than there are entries. */
  lemma {:induction false} KeptBounds(items: seq<Json>)
    ensures |KeptDescriptions(items)| <= |items|
    ensures forall k :: 0 <= k < |KeptDescriptions(items)| ==>
      NoEdgeSpace(KeptDescriptions(items)[k]) && |KeptDescriptions(items)[k]| <= 500
  {
    if |items| > 0 {
      KeptBounds(items[..|items| - 1]);
    }
  }

  /** The `animations` list of a plan naming `descs`. */
  function PlanEntries(descs: seq<string>): (items: seq<Json>)
    ensures |items| == |descs| && forall k :: 0 <= k < |descs| ==> items[k] == PlanEntry(descs[k])
  {
    seq(|descs|, k requires 0 <= k < |descs| => PlanEntry(descs[k]))
  }

  /** A plan of well-formed entries (5 to 500 characters, already stripped)
      comes back description for description. */
  lemma {:induction false} KeptWellFormedPlan(descs: seq<string>)
    requires forall k :: 0 <= k < |descs| ==> 5 <= |descs[k]| <= 500 && NoEdgeSpace(descs[k])
    ensures KeptDescriptions(PlanEntries(descs)) == descs
  {
    if |descs| > 0 {
      var n := |descs| - 1;
      var items := PlanEntries(descs);
      assert items[..n] == PlanEntries(descs[..n]);
      KeptWellFormedPlan(descs[..n]);
      KeptEntry(descs[n]);
      KeptAppend(items[..n], [items[n]]);
      assert items == items[..n] + [items[n]];
      assert descs == descs[..n] + [descs[n]];
    }
  }

  /** A plan entry whose description has an acceptable length contributes
      that description, stripped. */
  lemma KeptEntry(desc: string)
    requires 5 <= |desc| <= 500
    ensures KeptDescriptions([PlanEntry(desc)]) == [Strip(desc)]
  {
    var e := PlanEntry(desc);
    assert e.fields["description"] == JString(desc);
    assert KeptDescription(e) == [Strip(desc)];
    assert [e][..0] == [];
    assert ConcatMap([e], KeptDescription) == ConcatMap([], KeptDescription) + KeptDescription(e);
  }

  /** An entry that is not a dict is dropped, whatever it holds. */
  lemma NonDictDropped(a: Json)
    requires !a.JObject?
    ensures KeptDescriptions([a]) == []
  {
    assert [a][..0] == [];
    assert ConcatMap([a], KeptDescription) == ConcatMap([], KeptDescription) + KeptDescription(a);
  }

  /** The length is measured before stripping: a padded six-character
      description is kept as a two-character one. */
  lemma KeptMeasuresBeforeStrip()
    ensures KeptDescriptions([PlanEntry("  ab  ")]) == ["ab"]
  {
    var sp := [' ', ' '];
    var ab := ['a', 'b'];
    var padded := sp + ab + sp;
    assert AllSpace(sp) && NoEdgeSpace(ab);
    StripPadding(sp, ab, sp);
    KeptEntry(padded);
    assert "  ab  " == padded && "ab" == ab;
  }

  const NOT_A_DICT := "AttributeError: the parsed plan is not a dict"
  const NOT_ITERABLE := "TypeError: the animations value is not iterable"

  /** What happens to a parsed plan: `data.get("animations", [])` needs a
      dict, and iterating the value needs a list (filtered), a string or a
      dict (whose characters or keys are not dicts, so nothing is kept). */
  function SpecsOfPlan(data: Json): Result<seq<string>, string> {
    if !data.JObject? then Err(NOT_A_DICT)
    else
      var animations := if "animations" in data.fields then data.fields["animations"] else JArray([]);
      match animations
      case JArray(items) => Ok(KeptDescriptions(items))
      case JString(_) => Ok([])
      case JObject(_) => Ok([])
      case _ => Err(NOT_ITERABLE)
  }

  /** What `_extract_animation_specs` returns (`Ok`) or raises (`Err`), given
      the answer's text (`None` when it cannot be read) and the parser. */
  function AnimationSpecs(content: Option<string>, parse: string -> Option<Json>): Result<seq<string>, string> {
    if content.None? then Ok([])
    else
      match parse(ExtractCandidate(Strip(content.value)))
      case None => Ok([])
      case Some(data) => SpecsOfPlan(data)
  }

  /** An unreadable answer and an answer the parser rejects both mean no
      animations; so does a plan without an `animations` key. */
  lemma SpecsFailuresAreEmpty(content: Option<string>, parse: string -> Option<Json>)
    ensures content.None? ==> AnimationSpecs(content, parse) == Ok([])
    ensures content.Some? && parse(ExtractCandidate(Strip(content.value))).None? ==>
      AnimationSpecs(content, parse) == Ok([])
    ensures content.Some? && parse(ExtractCandidate(Strip(content.value))) == Some(JObject(map[])) ==>
      AnimationSpecs(content, parse) == Ok([])
  {
  }

  /** A dict plan whose `animations` value is a list yields what the filter
      keeps of that list. */
  lemma SpecsOfList(content: string, parse: string -> Option<Json>, fields: map<string, Json>, items: seq<Json>)
    requires parse(ExtractCandidate(Strip(content))) == Some(JObject(fields))
    requires "animations" in fields && fields["animations"] == JArray(items)
    ensures AnimationSpecs(Some(content), parse) == Ok(KeptDescriptions(items))
  {
    assert SpecsOfPlan(JObject(fields)) == Ok(KeptDescriptions(items));
  }

  /** A well-formed plan `{"animations": [{"description": ...}, ...]}` yields
      its descriptions. */
  lemma SpecsOfWellFormedPlan(content: string, parse: string -> Option<Json>, fields: map<string, Json>, descs: seq<string>)
    requires forall k :: 0 <= k < |descs| ==> 5 <= |descs[k]| <= 500 && NoEdgeSpace(descs[k])
    requires parse(ExtractCandidate(Strip(content))) == Some(JObject(fields))
    requires "animations" in fields && fields["animations"] == JArray(PlanEntries(descs))
    ensures AnimationSpecs(Some(content), parse) == Ok(descs)
  {
    SpecsOfList(content, parse, fields, PlanEntries(descs));
    KeptWellFormedPlan(descs);
  }

  /** The filter loop of `_extract_animation_specs`, appending to `cleaned`. */
  method FilterDescriptions(items: seq<Json>) returns (cleaned: seq<string>)
    ensures cleaned == KeptDescriptions(items)
  {
    cleaned := [];
    for i := 0 to |items|
      invariant cleaned == KeptDescriptions(items[..i])
    {
      var a := items[i];
      assert items[..i + 1][..i] == items[..i];
      if a.JObject? && "description" in a.fields {
        var desc := a.fields["description"];
        if desc.JString? && 5 <= |desc.s| <= 500 {
          cleaned := cleaned + [Strip(desc.s)];
        }
      }
    }
    assert items[..|items|] == items;
  }

  /** `_extract_animation_specs`. */
  method ExtractAnimationSpecs(content: Option<string>, parse: string -> Option<Json>)
    returns (specs: Result<seq<string>, string>)
    ensures specs == AnimationSpecs(content, parse)
  {
    if content.None? {
      return Ok([]);
    }
    var raw := Strip(content.value);
    var candidate := ExtractCandidate(raw);
    var parsed := parse(candidate);
    if parsed.None? {
      return Ok([]);
    }
    var data := parsed.value;
    if !data.JObject? {
      return Err(NOT_A_DICT);
    }
    var animations := if "animations" in data.fields then data.fields["animations"] else JArray([]);
    if animations.JString? || animations.JObject? {
      return Ok([]);
    }
    if !animations.JArray? {
      return Err(NOT_ITERABLE);
    }
    var cleaned := FilterDescriptions(animations.items);
    return Ok(cleaned);
  }

  // ---------------------------------------------------------------------------
  // compose_document
  // ---------------------------------------------------------------------------

  /** `uuid.uuid4().hex[:6]`: Python slicing keeps at most six characters. */
  function Prefix6(hex: string): (r: string)
    ensures |r| <= 6 && StartsWith(hex, r)
  {
    if |hex| <= 6 then hex else hex[..6]
  }

  /** The output file name of the animation numbered `idx` (counting the
      requested animations from 1). */
  function OutputName(idx: nat, hex: string): string {
    "anim_" + NatToString(idx) + "_" + Prefix6(hex)
  }

  /** Two names are equal only for the same number: the digits end at the
      first `_` after the prefix, whatever the random part holds. */
  lemma OutputNameInjective(i: nat, h1: string, j: nat, h2: string)
    requires OutputName(i, h1) == OutputName(j, h2)
    ensures i == j && Prefix6(h1) == Prefix6(h2)
  {
    var a := NatToString(i);
    var b := NatToString(j);
    assert '_' !in a && '_' !in b by {
      assert forall k :: 0 <= k < |a| ==> IsDigit(a[k]);
      assert forall k :: 0 <= k < |b| ==> IsDigit(b[k]);
    }
    assert OutputName(i, h1) == "anim_" + a + ['_'] + Prefix6(h1);
    assert OutputName(j, h2) == "anim_" + b + ['_'] + Prefix6(h2);
    SeparatedUnique("anim_", a, Prefix6(h1), b, Prefix6(h2), '_');
    NatToStringInjective(i, j);
  }

  /** The arguments handed to the Manim tool; the other fields of its input
      take their defaults. */
  datatype AnimationArgs = AnimationArgs(description: string, outputFile: string)

  /** The dict the Manim tool returns, as far as the composer reads it
      (`success`, `video_path`, `description`); an absent key is `None`. */
  datatype ToolResult = ToolResult(success: bool, videoPath: Option<string>, description: Option<string>)

  /** The arguments of the `idx`-th requested animation (from 0). */
  function ArgsFor(descs: seq<string>, hexes: seq<string>, idx: nat): AnimationArgs
    requires idx < |descs| == |hexes|
  {
    AnimationArgs(descs[idx], OutputName(idx + 1, hexes[idx]))
  }

  /** The results of the generation loop: one Manim run per description when
      the tool is registered, none otherwise. */
  function GeneratedResults(descs: seq<string>, hexes: seq<string>, hasManim: bool, runManim: AnimationArgs -> ToolResult)
    : seq<ToolResult>
    requires |descs| == |hexes|
  {
    if hasManim then seq(|descs|, k requires 0 <= k < |descs| => runManim(ArgsFor(descs, hexes, k))) else []
  }

  /** All output files of one call are distinct, whatever the random parts. */
  lemma OutputFilesDistinct(descs: seq<string>, hexes: seq<string>, i: nat, j: nat)
    requires i < j < |descs| == |hexes|
    ensures ArgsFor(descs, hexes, i).outputFile != ArgsFor(descs, hexes, j).outputFile
  {
    if ArgsFor(descs, hexes, i).outputFile == ArgsFor(descs, hexes, j).outputFile {
      OutputNameInjective(i + 1, hexes[i], j + 1, hexes[j]);
    }
  }

  /** The generation loop of `compose_document`. */
  method GenerateAnimations(descs: seq<string>, hexes: seq<string>, manimTool: Option<Tool>, runManim: AnimationArgs -> ToolResult)
    returns (results: seq<ToolResult>)
    requires |descs| == |hexes|
    ensures results == GeneratedResults(descs, hexes, manimTool.Some?, runManim)
  {
    results := [];
    for idx := 0 to |descs|
      invariant manimTool.Some? ==> |results| == idx
      invariant manimTool.Some? ==> forall k :: 0 <= k < idx ==> results[k] == runManim(ArgsFor(descs, hexes, k))
      invariant manimTool.None? ==> results == []
    {
      var args := AnimationArgs(descs[idx], OutputName(idx + 1, hexes[idx]));
      if manimTool.Some? {
        var result := runManim(args);
        results := results + [result];
      }
    }
  }

  /** `[r for r in results if r.get("success")]`. */
  function Successes(results: seq<ToolResult>): (r: seq<ToolResult>)
    ensures |r| <= |results|
    ensures forall k :: 0 <= k < |r| ==> r[k].success
  {
    if |results| == 0 then []
    else Successes(results[..|results| - 1]) + (if results[|results| - 1].success then [results[|results| - 1]] else [])
  }

  /** How an f-string renders `r.get(...)`: `None` prints as `None`. */
  function Shown(o: Option<string>): string {
    if o.Some? then o.value else "None"
  }

  /** A truthy `video_path`: present and not empty. */
  predicate HasVideo(r: ToolResult) {
    r.videoPath.Some? && |r.videoPath.value| != 0
  }

  const CONTEXT_HEADER := "% ==== GENERATED ANIMATIONS (Agent) ===="
  const CONTEXT_FOOTER := "% ==== END GENERATED ANIMATIONS ===="

  function AnimationLine(i: nat, r: ToolResult): string {
    "% Animation " + NatToString(i) + ": " + Shown(r.description)
  }

  /** The lines describing the `i`-th success. */
  function Block(i: nat, r: ToolResult): (lines: seq<string>)
    ensures |lines| == (if HasVideo(r) then 3 else 1) && lines[0] == AnimationLine(i, r)
  {
    [AnimationLine(i, r)]
    + (if HasVideo(r) then
         ["% Local file: " + r.videoPath.value,
          "\\noindent Animation " + NatToString(i) + ": \\href{run:" + r.videoPath.value + "}{Open Video}\\par"]
       else [])
  }

  /** The blocks of the successes, numbered from 1 over the successes only. */
  function Blocks(succ: seq<ToolResult>): seq<string> {
    if |succ| == 0 then [] else Blocks(succ[..|succ| - 1]) + Block(|succ|, succ[|succ| - 1])
  }

  /** The context lines: none without a success, else the header, the blocks
      and the footer. */
  function AnimationContext(succ: seq<ToolResult>): seq<string> {
    if |succ| == 0 then [] else [CONTEXT_HEADER] + Blocks(succ) + [CONTEXT_FOOTER]
  }

  function VideoCount(succ: seq<ToolResult>): nat {
    if |succ| == 0 then 0 else VideoCount(succ[..|succ| - 1]) + (if HasVideo(succ[|succ| - 1]) then 1 else 0)
  }

  /** One line per success plus two per success with a video. */
  lemma {:induction false} BlocksLength(succ: seq<ToolResult>)
    ensures |Blocks(succ)| == |succ| + 2 * VideoCount(succ)
  {
    if |succ| > 0 {
      BlocksLength(succ[..|succ| - 1]);
    }
  }

  /** The blocks of the first `k` successes come first. */
  lemma {:induction false} BlocksPrefix(succ: seq<ToolResult>, k: nat)
    requires k <= |succ|
    ensures |Blocks(succ[..k])| <= |Blocks(succ)|
    ensures Blocks(succ)[..|Blocks(succ[..k])|] == Blocks(succ[..k])
    decreases |succ|
  {
    if k < |succ| {
      var n := |succ| - 1;
      assert succ[..n][..k] == succ[..k];
      BlocksPrefix(succ[..n], k);
      var p := Blocks(succ[..k]);
      assert Blocks(succ) == Blocks(succ[..n]) + Block(|succ|, succ[n]);
      assert Blocks(succ)[..|p|] == Blocks(succ[..n])[..|p|];
    } else {
      assert succ[..k] == succ;
    }
  }

  /** The `k`-th success (from 0) is announced as animation `k + 1`, right
      after the blocks of the successes before it. */
  lemma AnimationNumbering(succ: seq<ToolResult>, k: nat)
    requires k < |succ|
    ensures var at := |Blocks(succ[..k])|;
      at < |Blocks(succ)| && Blocks(succ)[at] == AnimationLine(k + 1, succ[k])
  {
    BlocksPrefix(succ, k + 1);
    var q := succ[..k + 1];
    assert q[..k] == succ[..k];
    assert Blocks(q) == Blocks(succ[..k]) + Block(k + 1, succ[k]);
    assert Blocks(succ)[|Blocks(succ[..k])|] == Blocks(q)[|Blocks(succ[..k])|];
  }

  /** Context lines exist exactly when something succeeded; then they are
      framed by the header and the footer and count two lines, one per
      success and two more per success with a video. */
  lemma ContextShape(succ: seq<ToolResult>)
    ensures |AnimationContext(succ)| == 0 <==> |succ| == 0
    ensures |succ| > 0 ==>
      var lines := AnimationContext(succ);
      && |lines| == 2 + |succ| + 2 * VideoCount(succ)
      && lines[0] == CONTEXT_HEADER && lines[|lines| - 1] == CONTEXT_FOOTER
  {
    BlocksLength(succ);
  }

  /** The context loop of `compose_document`. */
  method BuildContextLines(results: seq<ToolResult>) returns (contextLines: seq<string>)
    ensures contextLines == AnimationContext(Successes(results))
  {
    contextLines := [];
    var successAnims := Successes(results);
    if |successAnims| != 0 {
      contextLines := contextLines + [CONTEXT_HEADER];
      for i := 0 to |successAnims|
        invariant contextLines == [CONTEXT_HEADER] + Blocks(successAnims[..i])
      {
        var r := successAnims[i];
        assert successAnims[..i + 1][..i] == successAnims[..i];
        contextLines := contextLines + [AnimationLine(i + 1, r)];
        if HasVideo(r) {
          contextLines := contextLines + ["% Local file: " + r.videoPath.value];
          contextLines := contextLines
            + ["\\noindent Animation " + NatToString(i + 1) + ": \\href{run:" + r.videoPath.value + "}{Open Video}\\par"];
        }
      }
      assert successAnims[..|successAnims|] == successAnims;
      contextLines := contextLines + [CONTEXT_FOOTER];
    }
  }

  const INSTRUCTION := "\n\nPlease integrate the animations into an 'Animations' section. "
    + "If a full document is not present, create one. Include a section heading 'Animations'."

  /** The prompt sent to the LaTeX tool: the user's prompt, followed when
      there is context by a blank line, the context and the instruction. */
  function AugmentPrompt(prompt: string, contextLines: seq<string>): (augmented: string)
    ensures StartsWith(augmented, prompt)
    ensures augmented == prompt <==> |contextLines| == 0
    ensures |contextLines| != 0 ==> augmented[|prompt|..] == "\n\n" + Join(contextLines, "\n") + INSTRUCTION
  {
    if |contextLines| == 0 then prompt
    else
      var augmented := prompt + ("\n\n" + Join(contextLines, "\n") + INSTRUCTION);
      assert augmented[..|prompt|] == prompt;
      augmented
  }

  /** `ChatResponse`; `error` is absent on success. */
  datatype ChatResponse = ChatResponse(message: string, latex: string, error: Option<string>)

  /** The dict the LaTeX tool returns; an absent key is `None`. */
  datatype LatexReply = LatexReply(message: Option<string>, latex: Option<string>)

  const DEFAULT_MESSAGE := "Document composed."
  const MISSING_TOOL_RESPONSE := ChatResponse("Latex tool unavailable.", "", Some("Missing tool"))
  const FAILED_SUFFIX := " All requested animations failed to generate."

  function GeneratedSuffix(n: nat): string {
    " Generated " + NatToString(n) + " animation(s)."
  }

  /** The reply message with the animation summary appended. */
  function SummarizedMessage(message: string, succeeded: nat, requested: nat): (r: string)
    ensures StartsWith(r, message)
  {
    if succeeded > 0 then message + GeneratedSuffix(succeeded)
    else if requested > 0 then message + FAILED_SUFFIX
    else message
  }

  /** The message is left alone exactly when no animation was requested
      (successes never outnumber requests); a success count is rendered so it
      reads back. */
  lemma SummaryCases(message: string, succeeded: nat, requested: nat)
    requires succeeded <= requested
    ensures SummarizedMessage(message, succeeded, requested) == message <==> requested == 0
    ensures succeeded > 0 ==>
      SummarizedMessage(message, succeeded, requested)[|message|..] == GeneratedSuffix(succeeded)
      && DigitsValue(NatToString(succeeded)) == succeeded
    ensures succeeded == 0 < requested ==>
      SummarizedMessage(message, succeeded, requested)[|message|..] == FAILED_SUFFIX
  {
    NatToStringRoundTrip(succeeded);
  }

  /** `compose_document(prompt)`.  `content` and `parse` feed the plan
      extraction; `hexes` are the random parts drawn, one per requested
      animation; the registry supplies the two tools, whose `run` are
      `runManim` and `runLatex`.  `Err` is an exception raised by the plan
      extraction. */
  method ComposeDocument(
    prompt: string, content: Option<string>, parse: string -> Option<Json>, registry: ToolRegistry,
    hexes: seq<string>, runManim: AnimationArgs -> ToolResult, runLatex: string -> LatexReply)
    returns (response: Result<ChatResponse, string>)
    requires AnimationSpecs(content, parse).Ok? ==> |hexes| == |AnimationSpecs(content, parse).value|
    ensures AnimationSpecs(content, parse).Err? ==> response == Err(AnimationSpecs(content, parse).error)
    ensures AnimationSpecs(content, parse).Ok? && Get(registry, LATEX_TOOL).None? ==>
      response == Ok(MISSING_TOOL_RESPONSE)
    ensures AnimationSpecs(content, parse).Ok? && Get(registry, LATEX_TOOL).Some? ==>
      var descs := AnimationSpecs(content, parse).value;
      var succ := Successes(GeneratedResults(descs, hexes, Get(registry, MANIM_TOOL).Some?, runManim));
      var reply := runLatex(AugmentPrompt(prompt, AnimationContext(succ)));
      response == Ok(ChatResponse(
        SummarizedMessage(reply.message.GetOr(DEFAULT_MESSAGE), |succ|, |descs|),
        reply.latex.GetOr(""), None))
  {
    var animations := ExtractAnimationSpecs(content, parse);
    if animations.Err? {
      return Err(animations.error);
    }
    var descs := animations.value;
    var manimTool := Get(registry, MANIM_TOOL);
    var latexTool := Get(registry, LATEX_TOOL);
    var generated := GenerateAnimations(descs, hexes, manimTool, runManim);
    var contextLines := BuildContextLines(generated);
    var successAnims := Successes(generated);
    var augmentedPrompt := AugmentPrompt(prompt, contextLines);
    if latexTool.None? {
      return Ok(MISSING_TOOL_RESPONSE);
    }
    var latexResult := runLatex(augmentedPrompt);
    var message := latexResult.message.GetOr(DEFAULT_MESSAGE);
    var latexCode := latexResult.latex.GetOr("");
    message := SummarizedMessage(message, |successAnims|, |descs|);
    return Ok(ChatResponse(message, latexCode, None));
  }

  /** With the default registry both tools are found, so the composer never
      answers with the missing-tool response. */
  lemma DefaultRegistryHasComposerTools(schemas: seq<Json>)
    requires |schemas| == 5
    ensures Get(DefaultRegistry(schemas), LATEX_TOOL).Some?
    ensures Get(DefaultRegistry(schemas), MANIM_TOOL).Some?
  {
    DefaultRegistryHasAll(schemas);
    assert DefaultTools(schemas)[0].name == LATEX_TOOL;
    assert DefaultTools(schemas)[1].name == MANIM_TOOL;
  }
}
