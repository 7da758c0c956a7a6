/** The deterministic parts of `ManimService`
    (backend/app/services/manim_service/manim_service.py): the lookup of the
    quality flag, the re-indentation of the code the model returns, the error
    strings returned in its place, and the injection of configuration and
    code into the placeholders of the template.  The Groq call, the template
    file, the output file and the manim process are not modelled: the model's
    answer, or the way the call failed, is the parameter `call`, and the
    template text is a parameter. */
module ManimService {
  import opened Wrappers
  import opened Strings

  /** The eight spaces put in front of every non-blank generated line. */
  const INDENT := "        "

  const QUALITY_FLAGS: map<string, string> := map[
    "low_quality" := "--quality=l",
    "medium_quality" := "--quality=m",
    "high_quality" := "--quality=h",
    "production_quality" := "--quality=p"]

  const DEFAULT_QUALITY_FLAG := "--quality=m"

  /** `get_quality_flags(quality)`. */
  function QualityFlags(quality: string): (flag: string)
    ensures quality in QUALITY_FLAGS ==> flag == QUALITY_FLAGS[quality]
    ensures quality !in QUALITY_FLAGS ==> flag == DEFAULT_QUALITY_FLAG
  {
    if quality in QUALITY_FLAGS then QUALITY_FLAGS[quality] else DEFAULT_QUALITY_FLAG
  }

  /** The four quality names select the flags `l`, `m`, `h` and `p`; every
      other name, including a misspelt one or `""`, selects medium; so the
      flag is always one of the four manim accepts. */
  lemma QualityFlagsTable(quality: string)
    ensures QualityFlags("low_quality") == "--quality=l"
    ensures QualityFlags("medium_quality") == "--quality=m"
    ensures QualityFlags("high_quality") == "--quality=h"
    ensures QualityFlags("production_quality") == "--quality=p"
    ensures quality !in {"low_quality", "medium_quality", "high_quality", "production_quality"}
      ==> QualityFlags(quality) == QualityFlags("medium_quality")
    ensures QualityFlags(quality) in {"--quality=l", "--quality=m", "--quality=h", "--quality=p"}
  {
  }

  /** One line of the loop body: a blank line becomes empty, any other is
      stripped and indented by eight spaces. */
  function IndentLine(line: string): string {
    var t := Strip(line);
    if |t| != 0 then INDENT + t else []
  }

  /** `f` applied to each element, in order. */
  function MapSeq<A, B>(f: A -> B, xs: seq<A>): (r: seq<B>)
    ensures |r| == |xs| && forall i :: 0 <= i < |xs| ==> r[i] == f(xs[i])
  {
    seq(|xs|, i requires 0 <= i < |xs| => f(xs[i]))
  }

  /** One more element maps to one more entry at the end. */
  lemma MapSeqSnoc<A, B>(f: A -> B, xs: seq<A>, i: nat)
    requires i < |xs|
    ensures MapSeq(f, xs[..i + 1]) == MapSeq(f, xs[..i]) + [f(xs[i])]
  {
    var a := MapSeq(f, xs[..i + 1]);
    var b := MapSeq(f, xs[..i]) + [f(xs[i])];
    forall k | 0 <= k < |a|
      ensures a[k] == b[k]
    {
      assert xs[..i + 1][k] == xs[k];
      if k < i {
        assert xs[..i][k] == xs[k];
      }
    }
  }

  /** The lines the loop produces. */
  function IndentAll(lines: seq<string>): (r: seq<string>)
    ensures |r| == |lines| && forall i :: 0 <= i < |lines| ==> r[i] == IndentLine(lines[i])
  {
    MapSeq(IndentLine, lines)
  }

  /** What the re-indentation makes of the model's answer `raw`. */
  function IndentedCode(raw: string): string {
    Join(IndentAll(Split(Strip(raw), '\n')), "\n")
  }

  /** The `for line in lines` loop of `generate_animation_code`. */
  method IndentLines(lines: seq<string>) returns (indentedLines: seq<string>)
    ensures indentedLines == IndentAll(lines)
  {
    indentedLines := [];
    var i := 0;
    while i < |lines|
      invariant 0 <= i <= |lines|
      invariant indentedLines == IndentAll(lines[..i])
    {
      MapSeqSnoc(IndentLine, lines, i);
      var stripped := Strip(lines[i]);
      if |stripped| != 0 {
        indentedLines := indentedLines + [INDENT + stripped];
      } else {
        indentedLines := indentedLines + [""];
      }
      i := i + 1;
    }
    assert lines[..i] == lines;
  }

  /** The re-indentation of the answer: strip it, split it on newlines,
      indent each line and join the lines again. */
  method IndentGeneratedCode(raw: string) returns (code: string)
    ensures code == IndentedCode(raw)
  {
    var rawCode := Strip(raw);
    var lines := Split(rawCode, '\n');
    var indentedLines := IndentLines(lines);
    code := Join(indentedLines, "\n");
  }

  lemma IndentLineNoNewline(line: string)
    requires '\n' !in line
    ensures '\n' !in IndentLine(line)
  {
    StripOmits(line, '\n');
  }

  /** The re-indented code has one line per line of the stripped answer, and
      line `i` is the `i`-th answer line, stripped and indented by eight spaces,
      or empty when that line is blank. */
  lemma IndentedCodeLines(raw: string)
    ensures var lines := Split(Strip(raw), '\n');
      && |Split(IndentedCode(raw), '\n')| == |lines|
      && forall i :: 0 <= i < |lines| ==>
           Split(IndentedCode(raw), '\n')[i] == (if |Strip(lines[i])| == 0 then "" else INDENT + Strip(lines[i]))
  {
    var lines := Split(Strip(raw), '\n');
    var out := IndentAll(lines);
    forall i | 0 <= i < |out|
      ensures '\n' !in out[i]
    {
      IndentLineNoNewline(lines[i]);
    }
    SplitJoin(out, '\n');
  }

  /** Indentation already present on a line is discarded: a line indented by
      any amount of whitespace comes out as the unindented line does, so the
      answer's relative indentation (nested blocks) is lost. */
  lemma RelativeIndentationLost(sp: string, line: string)
    requires AllSpace(sp)
    ensures IndentLine(sp + line) == IndentLine(line)
  {
    StripSpacePrefix(sp, line);
  }

  /** An answer that is empty or only whitespace yields the empty string. */
  lemma BlankAnswer(raw: string)
    requires AllSpace(raw)
    ensures IndentedCode(raw) == ""
  {
    assert Strip(raw) == "";
    assert Split("", '\n') == [""];
  }

  /** How the Groq call went, when an API key is present. */
  datatype GroqCall =
    | ClientInitFailed(error: string)   // constructing the client raised
    | ApiCallFailed(error: string)      // the completion request raised
    | AnswerUnreadable(error: string)   // reading the answer text raised
    | Answered(content: string)         // the answer text

  /** The start of every error string: a Python comment. */
  const ERROR_MARK := "# Error"
  const MISSING_KEY_CODE := ERROR_MARK + ": GROQ_API_KEY not found. Please set the environment variable."
  const CLIENT_ERROR_PREFIX := ERROR_MARK + " initializing Groq client: "
  const API_ERROR_PREFIX := ERROR_MARK + " in API call: "
  const READ_ERROR_PREFIX := ERROR_MARK + " generating animation code: "

  /** `generate_animation_code(description)` once the key has been read from
      the environment (`None` when unset) and the call has been made.  The
      description only goes into the prompt, which is not modelled. */
  method GenerateAnimationCode(apiKey: Option<string>, call: GroqCall) returns (code: string)
    ensures apiKey.None? || apiKey == Some("") ==> code == MISSING_KEY_CODE
    ensures apiKey.Some? && apiKey.value != "" ==>
      match call
      case ClientInitFailed(e) => code == CLIENT_ERROR_PREFIX + e
      case ApiCallFailed(e) => code == API_ERROR_PREFIX + e
      case AnswerUnreadable(e) => code == READ_ERROR_PREFIX + e
      case Answered(raw) => code == IndentedCode(raw)
  {
    if apiKey.None? || apiKey.value == "" {
      return MISSING_KEY_CODE;
    }
    match call
    case ClientInitFailed(e) =>
      code := CLIENT_ERROR_PREFIX + e;
    case ApiCallFailed(e) =>
      code := API_ERROR_PREFIX + e;
    case AnswerUnreadable(e) =>
      code := READ_ERROR_PREFIX + e;
    case Answered(raw) =>
      code := IndentGeneratedCode(raw);
  }

  /** Generated code from an answer that is not blank starts with the
      eight-space indent. */
  lemma CodeStartsIndented(raw: string)
    requires !AllSpace(raw)
    ensures StartsWith(IndentedCode(raw), INDENT)
  {
    var s := Strip(raw);
    assert |s| != 0 && !IsSpace(s[0]);
    var lines := Split(s, '\n');
    var first := lines[0];
    assert |first| != 0 && first[0] == s[0] by {
      var i := Find(s, '\n');
      assert IsSpace('\n');
      if i >= 0 {
        assert first == s[..i];
      } else {
        assert first == s;
      }
    }
    assert !IsSpace(first[0]);
    assert |Strip(first)| != 0;
    var out := IndentAll(lines);
    assert out[0] == INDENT + Strip(first);
    JoinStartsWithFirst(out, "\n");
    assert StartsWith(out[0], INDENT) by {
      assert out[0][..|INDENT|] == INDENT;
    }
    StartsWithPrefix(IndentedCode(raw), out[0], INDENT);
  }

  /** Every error string starts with `# Error` at column 0: injected at the
      column-0 placeholder it is an unindented comment line, told apart from
      generated code, which starts with the indent. */
  lemma ErrorsAreComments(e: string)
    ensures StartsWith(MISSING_KEY_CODE, ERROR_MARK)
    ensures StartsWith(CLIENT_ERROR_PREFIX + e, ERROR_MARK)
    ensures StartsWith(API_ERROR_PREFIX + e, ERROR_MARK)
    ensures StartsWith(READ_ERROR_PREFIX + e, ERROR_MARK)
    ensures ERROR_MARK[0] == '#' && INDENT[0] == ' '
  {
    assert (CLIENT_ERROR_PREFIX + e)[..|ERROR_MARK|] == CLIENT_ERROR_PREFIX[..|ERROR_MARK|];
    assert (API_ERROR_PREFIX + e)[..|ERROR_MARK|] == API_ERROR_PREFIX[..|ERROR_MARK|];
    assert (READ_ERROR_PREFIX + e)[..|ERROR_MARK|] == READ_ERROR_PREFIX[..|ERROR_MARK|];
  }

  /** The input of one animation (`ManimAnimationInput`), with the fields the
      injection uses. */
  datatype AnimationInput = AnimationInput(
    height: int, width: int, frameRate: int, backgroundColor: string,
    outputFile: string, description: string, quality: string)

  /** The four assignments of the configuration block; the background colour
      is written unquoted, as a manim constant name such as `WHITE`. */
  function ConfigLines(input: AnimationInput): seq<string> {
    [ "config.pixel_height = " + IntToString(input.height),
      "config.pixel_width = " + IntToString(input.width),
      "config.frame_rate = " + IntToString(input.frameRate),
      "config.background_color = " + input.backgroundColor ]
  }

  /** The triple-quoted `config_injection`: a newline, the four lines, each
      ending with a newline. */
  function ConfigInjection(input: AnimationInput): string {
    "\n" + Join(ConfigLines(input), "\n") + "\n"
  }

  /** A prefix followed by a rendered number holds no character that neither
      the prefix nor a numeral holds. */
  lemma NumberLineOmits(prefix: string, n: int, ch: char)
    requires ch !in prefix && !IsDigit(ch) && ch != '-'
    ensures ch !in prefix + IntToString(n)
  {
  }

  lemma ConfigLinesOneLineEach(input: AnimationInput)
    requires '\n' !in input.backgroundColor
    ensures forall i :: 0 <= i < |ConfigLines(input)| ==> '\n' !in ConfigLines(input)[i]
  {
    NumberLineOmits("config.pixel_height = ", input.height, '\n');
    NumberLineOmits("config.pixel_width = ", input.width, '\n');
    NumberLineOmits("config.frame_rate = ", input.frameRate, '\n');
    assert '\n' !in "config.background_color = ";
  }

  /** Split on newlines, the configuration block is an empty line, exactly the
      four assignments in the order height, width, frame rate, background,
      and an empty line. */
  lemma ConfigInjectionLines(input: AnimationInput)
    requires '\n' !in input.backgroundColor
    ensures Split(ConfigInjection(input), '\n') == [""] + ConfigLines(input) + [""]
  {
    ConfigLinesOneLineEach(input);
    SplitFramed(ConfigLines(input), '\n');
    assert ConfigInjection(input) == ['\n'] + Join(ConfigLines(input), ['\n']) + ['\n'];
  }

  /** Each numeric value of the configuration block reads back as the
      input's: the values are written in decimal, in full, with a minus sign
      when negative. */
  lemma ConfigValuesReadBack(input: AnimationInput)
    ensures forall i :: 0 <= i < 4 ==> StartsWith(ConfigLines(input)[i], "config.")
    ensures SignedValue(ConfigLines(input)[0][|"config.pixel_height = "|..]) == input.height
    ensures SignedValue(ConfigLines(input)[1][|"config.pixel_width = "|..]) == input.width
    ensures SignedValue(ConfigLines(input)[2][|"config.frame_rate = "|..]) == input.frameRate
  {
    var c := ConfigLines(input);
    IntToStringRoundTrip(input.height);
    IntToStringRoundTrip(input.width);
    IntToStringRoundTrip(input.frameRate);
    assert c[0][|"config.pixel_height = "|..] == IntToString(input.height);
    assert c[1][|"config.pixel_width = "|..] == IntToString(input.width);
    assert c[2][|"config.frame_rate = "|..] == IntToString(input.frameRate);
  }

  /** The triple-quoted `output_config_injection`, indented by four spaces to
      sit in the template's `__main__` block. */
  function OutputConfigInjection(outputFile: string, mediaDir: string): string {
    "\n    config.output_file = \"" + outputFile + "\"\n    config.media_dir = r\"" + mediaDir + "\"\n"
  }

  const CONFIG_PLACEHOLDER := "#{CONFIG_INJECTION}"
  const ANIMATION_PLACEHOLDER := "#{ANIMATION_INJECTION}"
  const OUTPUT_CONFIG_PLACEHOLDER := "#{OUTPUT_CONFIG_INJECTION}"

  /** The three `replace` calls of `generate_manim_file`, in their order. */
  function InjectPlaceholders(template: string, config: string, animation: string, outputConfig: string): string {
    Replace(Replace(Replace(template, CONFIG_PLACEHOLDER, config), ANIMATION_PLACEHOLDER, animation),
            OUTPUT_CONFIG_PLACEHOLDER, outputConfig)
  }

  /** The template text built by `generate_manim_file` for `input`, given the
      template file's text, the animation code and the media directory. */
  function ManimFile(template: string, input: AnimationInput, animation: string, mediaDir: string): string {
    InjectPlaceholders(template, ConfigInjection(input), animation,
                       OutputConfigInjection(input.outputFile, mediaDir))
  }

  /** Every `#` is followed by a character other than `{`: the text holds
      no `#{` and does not end with `#` (the text after it could supply the
      `{`), so no placeholder starts inside it. */
  predicate PlaceholderFree(s: string)
    decreases |s|
  {
    |s| == 0 || ((s[0] == '#' ==> |s| >= 2 && s[1] != '{') && PlaceholderFree(s[1..]))
  }

  /** A placeholder: `#{`, then a name and `}`, with no further `#`. */
  predicate IsPlaceholder(pat: string) {
    |pat| >= 3 && pat[0] == '#' && pat[1] == '{' && pat[|pat| - 1] == '}'
    && forall k :: 1 <= k < |pat| ==> pat[k] != '#'
  }

  /** Text after the first `#` of a placeholder holds no `#` at all. */
  lemma {:induction false} NoHashIsFree(s: string)
    requires forall k :: 0 <= k < |s| ==> s[k] != '#'
    ensures PlaceholderFree(s)
    decreases |s|
  {
    if |s| != 0 {
      NoHashIsFree(s[1..]);
    }
  }

  /** No occurrence of a placeholder starts inside placeholder-free text, so
      `replace` keeps that text and goes on after it. */
  lemma {:induction false} ReplaceAfterFree(a: string, b: string, pat: string, sub: string)
    requires IsPlaceholder(pat) && PlaceholderFree(a)
    ensures Replace(a + b, pat, sub) == a + Replace(b, pat, sub)
    decreases |a|
  {
    var s := a + b;
    if |a| == 0 {
      assert s == b;
    } else if |s| < |pat| {
      assert Replace(b, pat, sub) == b;
    } else {
      assert s[0] == a[0];
      if a[0] == '#' {
        assert s[1] == a[1];
        assert s[..|pat|][1] != pat[1];
      } else {
        assert s[..|pat|][0] != pat[0];
      }
      ReplaceStepsOver(s, pat, sub);
      assert s[1..] == a[1..] + b;
      ReplaceAfterFree(a[1..], b, pat, sub);
      assert a == [a[0]] + a[1..];
    }
  }

  lemma ReplaceFree(a: string, pat: string, sub: string)
    requires IsPlaceholder(pat) && PlaceholderFree(a)
    ensures Replace(a, pat, sub) == a
  {
    ReplaceAfterFree(a, [], pat, sub);
    assert a + [] == a;
  }

  /** An occurrence of the placeholder itself is replaced. */
  lemma ReplaceAtPattern(b: string, pat: string, sub: string)
    requires |pat| != 0
    ensures Replace(pat + b, pat, sub) == sub + Replace(b, pat, sub)
  {
    assert (pat + b)[..|pat|] == pat;
    assert (pat + b)[|pat|..] == b;
  }

  /** What follows the `#` of a placeholder is placeholder-free. */
  lemma PlaceholderTailFree(q: string)
    requires IsPlaceholder(q)
    ensures PlaceholderFree(q[1..])
  {
    var tail := q[1..];
    forall k | 0 <= k < |tail|
      ensures tail[k] != '#'
    {
      assert tail[k] == q[k + 1];
    }
    NoHashIsFree(tail);
  }

  /** A different placeholder at the start of a text at least as long as the
      pattern is passed over, one character at a time. */
  lemma ReplacePassesOther(q: string, b: string, pat: string, sub: string)
    requires IsPlaceholder(pat) && IsPlaceholder(q) && q[2] != pat[2]
    requires |q + b| >= |pat|
    ensures Replace(q + b, pat, sub) == q + Replace(b, pat, sub)
  {
    var s := q + b;
    assert s[..|pat|][2] == q[2];
    ReplaceStepsOver(s, pat, sub);
    assert s[1..] == q[1..] + b;
    PlaceholderTailFree(q);
    ReplaceAfterFree(q[1..], b, pat, sub);
    assert q == [q[0]] + q[1..];
  }

  /** A different placeholder is kept: the two differ right after `#{`. */
  lemma ReplaceOtherPlaceholder(q: string, b: string, pat: string, sub: string)
    requires IsPlaceholder(pat) && IsPlaceholder(q) && q[2] != pat[2]
    ensures Replace(q + b, pat, sub) == q + Replace(b, pat, sub)
  {
    if |q + b| < |pat| {
      assert Replace(b, pat, sub) == b;
    } else {
      ReplacePassesOther(q, b, pat, sub);
    }
  }

  /** Three placeholders that differ right after `#{`. */
  predicate DistinctPlaceholders(c: string, a: string, o: string) {
    IsPlaceholder(c) && IsPlaceholder(a) && IsPlaceholder(o)
    && c[2] != a[2] && a[2] != o[2] && c[2] != o[2]
  }

  lemma Placeholders()
    ensures DistinctPlaceholders(CONFIG_PLACEHOLDER, ANIMATION_PLACEHOLDER, OUTPUT_CONFIG_PLACEHOLDER)
  {
  }

  /** The first `replace`, on a template laid out as the manim template is. */
  lemma InjectFirst(c: string, a: string, o: string, t0: string, t1: string, t2: string, t3: string, config: string)
    requires DistinctPlaceholders(c, a, o)
    requires PlaceholderFree(t0) && PlaceholderFree(t1) && PlaceholderFree(t2) && PlaceholderFree(t3)
    ensures Replace(t0 + (c + (t1 + (a + (t2 + (o + t3))))), c, config)
         == t0 + (config + (t1 + (a + (t2 + (o + t3)))))
  {
    ReplaceAfterFree(t0, c + (t1 + (a + (t2 + (o + t3)))), c, config);
    ReplaceAtPattern(t1 + (a + (t2 + (o + t3))), c, config);
    ReplaceAfterFree(t1, a + (t2 + (o + t3)), c, config);
    ReplaceOtherPlaceholder(a, t2 + (o + t3), c, config);
    ReplaceAfterFree(t2, o + t3, c, config);
    ReplaceOtherPlaceholder(o, t3, c, config);
    ReplaceFree(t3, c, config);
  }

  /** The second `replace`, after the first. */
  lemma InjectSecond(a: string, o: string, t0: string, config: string, t1: string, t2: string, t3: string,
                     animation: string)
    requires IsPlaceholder(a) && IsPlaceholder(o) && a[2] != o[2]
    requires PlaceholderFree(t0) && PlaceholderFree(config) && PlaceholderFree(t1)
    requires PlaceholderFree(t2) && PlaceholderFree(t3)
    ensures Replace(t0 + (config + (t1 + (a + (t2 + (o + t3))))), a, animation)
         == t0 + (config + (t1 + (animation + (t2 + (o + t3)))))
  {
    ReplaceAfterFree(t0, config + (t1 + (a + (t2 + (o + t3)))), a, animation);
    ReplaceAfterFree(config, t1 + (a + (t2 + (o + t3))), a, animation);
    ReplaceAfterFree(t1, a + (t2 + (o + t3)), a, animation);
    ReplaceAtPattern(t2 + (o + t3), a, animation);
    ReplaceAfterFree(t2, o + t3, a, animation);
    ReplaceOtherPlaceholder(o, t3, a, animation);
    ReplaceFree(t3, a, animation);
  }

  /** The third `replace`, after the other two. */
  lemma InjectThird(o: string, t0: string, config: string, t1: string, animation: string, t2: string, t3: string,
                    outputConfig: string)
    requires IsPlaceholder(o)
    requires PlaceholderFree(t0) && PlaceholderFree(config) && PlaceholderFree(t1)
    requires PlaceholderFree(animation) && PlaceholderFree(t2) && PlaceholderFree(t3)
    ensures Replace(t0 + (config + (t1 + (animation + (t2 + (o + t3))))), o, outputConfig)
         == t0 + (config + (t1 + (animation + (t2 + (outputConfig + t3)))))
  {
    ReplaceAfterFree(t0, config + (t1 + (animation + (t2 + (o + t3)))), o, outputConfig);
    ReplaceAfterFree(config, t1 + (animation + (t2 + (o + t3))), o, outputConfig);
    ReplaceAfterFree(t1, animation + (t2 + (o + t3)), o, outputConfig);
    ReplaceAfterFree(animation, t2 + (o + t3), o, outputConfig);
    ReplaceAfterFree(t2, o + t3, o, outputConfig);
    ReplaceAtPattern(t3, o, outputConfig);
    ReplaceFree(t3, o, outputConfig);
  }

  /** The layout lemma for any three distinct placeholders. */
  lemma InjectLayoutWith(c: string, a: string, o: string, t0: string, t1: string, t2: string, t3: string,
                         config: string, animation: string, outputConfig: string)
    requires DistinctPlaceholders(c, a, o)
    requires PlaceholderFree(t0) && PlaceholderFree(t1) && PlaceholderFree(t2) && PlaceholderFree(t3)
    requires PlaceholderFree(config) && PlaceholderFree(animation)
    ensures Replace(Replace(Replace(t0 + (c + (t1 + (a + (t2 + (o + t3))))), c, config), a, animation),
                    o, outputConfig)
         == t0 + (config + (t1 + (animation + (t2 + (outputConfig + t3)))))
  {
    InjectFirst(c, a, o, t0, t1, t2, t3, config);
    InjectSecond(a, o, t0, config, t1, t2, t3, animation);
    InjectThird(o, t0, config, t1, animation, t2, t3, outputConfig);
  }

  /** A template laid out as the manim template is (each placeholder once, in
      the order config, animation, output config, the text around them free
      of `#{`) gets each placeholder replaced by its text and nothing else
      changed, as long as the injected config and code hold no `#{` either. */
  lemma InjectLayout(t0: string, t1: string, t2: string, t3: string,
                     config: string, animation: string, outputConfig: string)
    requires PlaceholderFree(t0) && PlaceholderFree(t1) && PlaceholderFree(t2) && PlaceholderFree(t3)
    requires PlaceholderFree(config) && PlaceholderFree(animation)
    ensures var c, a, o := CONFIG_PLACEHOLDER, ANIMATION_PLACEHOLDER, OUTPUT_CONFIG_PLACEHOLDER;
      // the three `replace` calls of `InjectPlaceholders`, in their order
      Replace(Replace(Replace(t0 + (c + (t1 + (a + (t2 + (o + t3))))), c, config), a, animation), o, outputConfig)
      == t0 + (config + (t1 + (animation + (t2 + (outputConfig + t3)))))
  {
    Placeholders();
    InjectLayoutWith(CONFIG_PLACEHOLDER, ANIMATION_PLACEHOLDER, OUTPUT_CONFIG_PLACEHOLDER,
                     t0, t1, t2, t3, config, animation, outputConfig);
  }

  /** Concatenation of seven pieces, grouped from the right. */
  lemma Regroup<T>(x0: seq<T>, x1: seq<T>, x2: seq<T>, x3: seq<T>, x4: seq<T>, x5: seq<T>, x6: seq<T>)
    ensures x0 + x1 + x2 + x3 + x4 + x5 + x6 == x0 + (x1 + (x2 + (x3 + (x4 + (x5 + x6)))))
  {
  }

  /** The file `generate_manim_file` writes, for a template laid out as the
      manim template is: the configuration block, the animation code and the
      output configuration each stand where their placeholder stood, and the
      template text around them is kept. */
  lemma ManimFileLayout(t0: string, t1: string, t2: string, t3: string,
                        input: AnimationInput, animation: string, mediaDir: string)
    requires PlaceholderFree(t0) && PlaceholderFree(t1) && PlaceholderFree(t2) && PlaceholderFree(t3)
    requires PlaceholderFree(ConfigInjection(input)) && PlaceholderFree(animation)
    ensures ManimFile(t0 + CONFIG_PLACEHOLDER + t1 + ANIMATION_PLACEHOLDER + t2 + OUTPUT_CONFIG_PLACEHOLDER + t3,
                      input, animation, mediaDir)
         == t0 + ConfigInjection(input) + t1 + animation + t2 + OutputConfigInjection(input.outputFile, mediaDir) + t3
  {
    var c, a, o := CONFIG_PLACEHOLDER, ANIMATION_PLACEHOLDER, OUTPUT_CONFIG_PLACEHOLDER;
    var config, outputConfig := ConfigInjection(input), OutputConfigInjection(input.outputFile, mediaDir);
    Regroup(t0, c, t1, a, t2, o, t3);
    Regroup(t0, config, t1, animation, t2, outputConfig, t3);
    InjectLayout(t0, t1, t2, t3, config, animation, outputConfig);
  }

  /** The order of the calls matters: the output-config placeholder written
      by the model into the animation code is replaced too, while a config
      placeholder it writes stays in the file. */
  lemma InjectionOrder(config: string, outputConfig: string)
    ensures InjectPlaceholders(ANIMATION_PLACEHOLDER, config, OUTPUT_CONFIG_PLACEHOLDER, outputConfig)
         == outputConfig
    ensures InjectPlaceholders(ANIMATION_PLACEHOLDER, config, CONFIG_PLACEHOLDER, outputConfig)
         == CONFIG_PLACEHOLDER
  {
    Placeholders();
    var c, a, o := CONFIG_PLACEHOLDER, ANIMATION_PLACEHOLDER, OUTPUT_CONFIG_PLACEHOLDER;
    assert a + [] == a && o + [] == o && c + [] == c;
    ReplaceOtherPlaceholder(a, [], c, config);
    assert Replace(a, c, config) == a;
    ReplaceAtPattern([], a, o);
    ReplaceAtPattern([], o, outputConfig);
    ReplaceAtPattern([], a, c);
    ReplaceOtherPlaceholder(c, [], o, outputConfig);
  }
}
