/** The clean-up that `ChatService.generate_latex_from_prompt`
    (backend/app/services/chat_service.py) applies to the model's answer: a
    reply that opens with a code fence loses its first line and, when it is a
    fence too, its last line; every reply is then stripped of surrounding
    whitespace.  The model call itself is not modelled: its answer is the
    parameter `content`. */
module ChatService {
  import opened Strings

  const FENCE := "```"

  /** The lines left once the opening fence line, and a closing fence line if
      there is one, are dropped. */
  function FenceBody(lines: seq<string>): seq<string>
    requires |lines| > 0
  {
    var afterFirst := if StartsWith(lines[0], FENCE) then lines[1..] else lines;
    if |afterFirst| > 0 && StartsWith(afterFirst[|afterFirst| - 1], FENCE)
    then afterFirst[..|afterFirst| - 1]
    else afterFirst
  }

  /** The post-processing of the generated LaTeX.  The result never starts or
      ends with whitespace; a reply that does not literally start with the
      fence (leading whitespace included) is only stripped. */
  function StripCodeFences(content: string): (r: string)
    ensures NoEdgeSpace(r)
    ensures !StartsWith(content, FENCE) ==> r == Strip(content)
  {
    if StartsWith(content, FENCE) then
      Strip(Join(FenceBody(SplitLines(content)), "\n"))
    else
      Strip(content)
  }

  /** The first line of a reply that starts with the fence starts with the
      fence, so it is always dropped. */
  lemma FirstLineIsFence(content: string)
    requires StartsWith(content, FENCE)
    ensures StartsWith(SplitLines(content)[0], FENCE)
  {
    var i := FindLineBreak(content);
    assert forall k :: 0 <= k < 3 ==> content[k] == FENCE[k];
    assert i >= 3;
    assert SplitLines(content)[0] == content[..i];
  }

  /** The lines of a fenced reply: the opening fence line with its tag, the
      document's lines, and the closing fence line when there is one. */
  function Fenced(tag: string, body: seq<string>, closed: bool): seq<string> {
    [FENCE + tag] + body + (if closed then [FENCE] else [])
  }

  lemma FenceBodyOfFenced(tag: string, body: seq<string>, closed: bool)
    requires !closed ==> |body| > 0 && !StartsWith(body[|body| - 1], FENCE)
    ensures FenceBody(Fenced(tag, body, closed)) == body
  {
    var lines := Fenced(tag, body, closed);
    assert lines[0][..3] == FENCE;
    assert lines[1..] == body + (if closed then [FENCE] else []);
  }

  /** The lines of a fenced reply hold no line boundary and do not end with
      an empty line, so `splitlines` recovers them from their `"\n"` join. */
  lemma FencedLines(tag: string, body: seq<string>, closed: bool)
    requires NoLineBreak(tag)
    requires forall i :: 0 <= i < |body| ==> NoLineBreak(body[i])
    requires !closed ==> |body| > 0 && body[|body| - 1] != ""
    ensures var lines := Fenced(tag, body, closed);
      && SplitLines(Join(lines, "\n")) == lines
      && StartsWith(lines[0], FENCE)
  {
    var lines := Fenced(tag, body, closed);
    assert NoLineBreak(FENCE + tag);
    assert NoLineBreak(FENCE);
    assert forall i :: 0 <= i < |lines| ==> NoLineBreak(lines[i]) by {
      forall i | 0 <= i < |lines|
        ensures NoLineBreak(lines[i])
      {
        if i == 0 {
        } else if i <= |body| {
          assert lines[i] == body[i - 1];
        } else {
          assert lines[i] == FENCE;
        }
      }
    }
    assert lines[|lines| - 1] != "";
    SplitLinesJoin(lines);
    assert (FENCE + tag)[..3] == FENCE;
  }

  /** A document wrapped in an opening fence line (with any tag such as
      `latex`) and, optionally, a closing fence line comes back stripped. */
  lemma UnwrapFencedDocument(tag: string, body: seq<string>, closed: bool)
    requires NoLineBreak(tag)
    requires forall i :: 0 <= i < |body| ==> NoLineBreak(body[i])
    requires !closed ==> |body| > 0 && body[|body| - 1] != "" && !StartsWith(body[|body| - 1], FENCE)
    ensures StripCodeFences(Join(Fenced(tag, body, closed), "\n")) == Strip(Join(body, "\n"))
  {
    var lines := Fenced(tag, body, closed);
    var content := Join(lines, "\n");
    FencedLines(tag, body, closed);
    JoinStartsWithFirst(lines, "\n");
    StartsWithPrefix(content, lines[0], FENCE);
    FenceBodyOfFenced(tag, body, closed);
  }

  /** A lone opening fence yields the empty document. */
  lemma LoneFence()
    ensures StripCodeFences("```latex") == ""
  {
    var content := "```latex";
    assert NoLineBreak(content);
    assert SplitLines(content) == [content];
    assert content[..3] == FENCE;
    assert FenceBody([content]) == [];
  }
}
