# LeafPilot core in Dafny

LeafPilot is a LaTeX editor with an AI assistant. This project models its deterministic core and proves properties of it. The parts are:

- **Editor store** (`editor_store.dfy`, class `EditorStore.Store`). It holds three fields: the LaTeX buffer, the last compiled PDF and the `isCompiling` flag. Each setter is specified against a pure `Step` function on a `State` value.
- **Compile button** (`menu.dfy`). The click handler runs a fixed sequence of store actions. The compile service is a function parameter.
- **Chat panel** (`chat.dfy`, class `Chat.ChatPanel`). It covers submitting a prompt, the `isWaiting` derivation, the visibility and `disabled` predicates of the diff controls, and the two ways of accepting a proposed document.
- **LaTeX autocompletion** (`latex_commands.dfy`). It maps a table of raw commands to completion items. The table itself is a parameter, and three witness entries stand in for it.
- **Manim service** (`manim_service.dfy`). It covers the quality flags, the re-indentation of generated code and the injection of the three placeholders into the script template.
- **Chat service** (`chat_service.dfy`). It covers the stripping of a code fence around the model's answer.
- **Document composer** (`composer.dfy`). It extracts the animation plan from the model's answer, names and runs the animations, and builds the context lines, the augmented prompt and the final message.
- **Web scraper tool** (`web_scraper.dfy`). It covers the URL argument checks of `run` and the URL regular expression. The expression is given two forms, a left-to-right recogniser and a statement over split points, and they are proved equal.
- **Template tool** (`template_tool.dfy`, class `TemplateTool.TemplateTool`). The template directory is a map from file stem to text. The class covers writing the default templates, the sorted listing, and `run`.
- **Tool registry** (`registry.dfy`). It models the dict built by a comprehension, including Python's insertion-order and last-value-wins behaviour.

Shared helpers are in four files:

- `wrappers.dfy`: `Option` and `Result`.
- `strings.dfy`: Python and JavaScript string operations such as `strip`, `split`, `join`, `splitlines`, `find`, `replace`, `lower` and decimal formatting.
- `string_order.dfy`: Python's `str` ordering and `sorted`.
- `json_value.dfy`: the value `json.loads` returns.

Network calls, the language model, `uuid`, the clock and the file system are not modelled directly. Each one becomes a parameter: a value, or a function from request to outcome. A failing call is the `None` or `Err` outcome.

## Model

| member | source | states |
|---|---|---|
| EditorStore.InitEditorStore | frontend/src/stores/editor-store.ts:17-23 | the initial state has an empty buffer, no PDF and `isCompiling` false |
| EditorStore.StepFrame | frontend/src/stores/editor-store.ts:37-48 | each action changes only its own field; `setPdf(null)` changes nothing; `setContent` stores the text exactly |
| EditorStore.RunByField | frontend/src/stores/editor-store.ts:35-49 | after any sequence of actions, each field holds the last value written to it, and a null PDF writes nothing |
| EditorStore.PdfNeverCleared | frontend/src/stores/editor-store.ts:40-45 | once a PDF is stored, no sequence of actions removes it |
| EditorStore.Store.constructor | frontend/src/stores/editor-store.ts:32-36 | the store starts from the given state |
| EditorStore.Store.SetContent | frontend/src/stores/editor-store.ts:37-39 | the buffer becomes the argument; the PDF and the flag are unchanged |
| EditorStore.Store.SetPdf | frontend/src/stores/editor-store.ts:40-45 | a present file, even an empty one, replaces the PDF; null keeps the old one; other fields unchanged |
| EditorStore.Store.SetIsCompiling | frontend/src/stores/editor-store.ts:46-48 | the flag becomes the argument unconditionally; other fields unchanged |
| Menu.CompileClickEffect | frontend/src/components/Editor/Menu.tsx:39-45 | a click leaves the buffer alone, ends with `isCompiling` false, and keeps the old PDF when the compile fails |
| Menu.RequestSentWhileCompiling | frontend/src/components/Editor/Menu.tsx:38-44 | the button is disabled from the first action until the result is stored |
| Menu.OnCompileClick | frontend/src/components/Editor/Menu.tsx:38-45 | a disabled button changes nothing; otherwise the store runs the three click actions, compiling the buffer as it was at the click |
| Chat.SubmitAppends | frontend/src/components/Editor/Chat.tsx:58-73 | an empty submit appends nothing; otherwise exactly one user message is appended, then one bot message carrying the diff on success and none on failure |
| Chat.WaitingAfterSubmit | frontend/src/components/Editor/Chat.tsx:32 | after a failed send the panel stays waiting, with input and submit disabled; after a reply it is not waiting |
| Chat.SubmitKeepsAlternation | frontend/src/components/Editor/Chat.tsx:58-73 | submits from a non-waiting panel keep user and bot messages alternating |
| Chat.NoControlsWithoutDiff | frontend/src/components/Editor/Chat.tsx:139 | a message with no diff or an empty diff shows no preview or accept control |
| Chat.AcceptEffect | frontend/src/components/Editor/Chat.tsx:147-154 | accepting leaves the diff in the buffer and `isCompiling` false, keeps the old PDF on a failed compile, and disables both accept buttons afterwards |
| Chat.ChatPanel.constructor | frontend/src/components/Editor/Chat.tsx:29-31 | the panel starts with no messages, empty input, no attachment and not loading |
| Chat.ChatPanel.OnSubmit | frontend/src/components/Editor/Chat.tsx:58-74 | the message list grows as `SubmitMessages` says; the request carries the buffer and the attachment captured at the start; a non-empty submit clears input and attachment |
| Chat.ChatPanel.OnAcceptInline | frontend/src/components/Editor/Chat.tsx:147-155 | an enabled, visible accept runs set-content, set-compiling, set-PDF and unset-compiling on the store; otherwise nothing changes |
| Chat.ChatPanel.OnAcceptFromDialog | frontend/src/components/Editor/Chat.tsx:175-186 | the same as the inline accept, and also disabled while loading; the message list and input are untouched |
| LatexCommands.ToCompletionItem | frontend/src/constants/latexCommands.ts:3986-4002 | label and documentation are copied; kind, insert text and rules default only when absent; the range covers the word on the cursor's line |
| LatexCommands.AllCompletionItemsForPosition | frontend/src/constants/latexCommands.ts:4004-4007 | one item per table entry, in table order |
| LatexCommands.SuggestionsIndependentOfPosition | frontend/src/constants/latexCommands.ts:4004-4007 | the labels are the table's labels at every position; items differ only in their range |
| LatexCommands.DefaultsOnlyWhenAbsent | frontend/src/constants/latexCommands.ts:3994-4001 | an empty insert text stays empty, and an explicit kind or rule is kept, even when it is the zero value |
| LatexCommands.WitnessItems | frontend/src/constants/latexCommands.ts:3994-4001 | for three sample entries (`\begin`, `\\`, `\textbf`), the rule defaults to snippet insertion and the empty insert text is kept |
| ManimService.QualityFlags | backend/app/services/manim_service/manim_service.py:140-148 | a known quality gives its table flag; any other gives the default flag |
| ManimService.QualityFlagsTable | backend/app/services/manim_service/manim_service.py:142-148 | the four qualities map to `--quality=l/m/h/p`; unknown ones behave as medium; every answer is one of the four flags |
| ManimService.IndentLines | backend/app/services/manim_service/manim_service.py:113-119 | the loop produces one re-indented line per input line |
| ManimService.IndentGeneratedCode | backend/app/services/manim_service/manim_service.py:110-121 | the code is the stripped answer, split on newlines, each line re-indented, joined by newlines |
| ManimService.IndentedCodeLines | backend/app/services/manim_service/manim_service.py:110-121 | the result has as many lines as the stripped answer; each is eight spaces plus the stripped line, or empty for a blank line |
| ManimService.RelativeIndentationLost | backend/app/services/manim_service/manim_service.py:116-117 | leading whitespace of a line does not survive re-indentation |
| ManimService.BlankAnswer | backend/app/services/manim_service/manim_service.py:110-121 | a whitespace-only answer yields the empty string |
| ManimService.GenerateAnimationCode | backend/app/services/manim_service/manim_service.py:39-138 | a missing or empty key gives the fixed error line; each failure gives its error prefix plus the message; an answer gives its re-indented code |
| ManimService.CodeStartsIndented | backend/app/services/manim_service/manim_service.py:116-121 | a non-blank answer yields code starting with the eight-space indent |
| ManimService.ErrorsAreComments | backend/app/services/manim_service/manim_service.py:46-138 | every error result starts with `# Error`, so it is a Python comment unlike indented code |
| ManimService.ConfigInjectionLines | backend/app/services/manim_service/manim_service.py:158-163 | the config block is exactly the four assignment lines between two newlines |
| ManimService.ConfigValuesReadBack | backend/app/services/manim_service/manim_service.py:158-163 | the height, width and frame rate written into the config lines read back as the input integers, negative ones with their minus sign |
| ManimService.InjectLayout | backend/app/services/manim_service/manim_service.py:175-177 | in a template holding each placeholder once, in order, the three replacements put config, animation and output config in their places |
| ManimService.ManimFileLayout | backend/app/services/manim_service/manim_service.py:150-177 | the file written for an input holds the template text with the config block, the animation code and the output config each where its placeholder stood |
| ManimService.InjectionOrder | backend/app/services/manim_service/manim_service.py:175-177 | a later placeholder inside injected text is replaced too, and an earlier one is not |
| ChatService.StripCodeFences | backend/app/services/chat_service.py:59-67 | the result never has leading or trailing whitespace; text not starting with a fence is only stripped |
| ChatService.FirstLineIsFence | backend/app/services/chat_service.py:59-62 | text starting with a fence has a first line starting with a fence, so that line is always dropped |
| ChatService.FenceBodyOfFenced | backend/app/services/chat_service.py:60-64 | from fenced lines, the fence lines and only they are dropped; a last line is dropped only when it is a fence |
| ChatService.UnwrapFencedDocument | backend/app/services/chat_service.py:59-67 | a fenced document, closed or not, comes back as its stripped body |
| ChatService.LoneFence | backend/app/services/chat_service.py:59-67 | a lone opening fence such as "```latex" yields "" |
| Composer.ExtractCandidate | backend/app/agent/composer.py:106-112 | text already braced is kept; otherwise the candidate is the text or a braced slice of it, never longer |
| Composer.CandidateFirstToLast | backend/app/agent/composer.py:108-112 | the slice runs from the first `{` to the last `}` inclusive |
| Composer.CandidateUnchanged | backend/app/agent/composer.py:108-112 | without a `{` before a `}` the text is kept |
| Composer.CandidateIdempotent | backend/app/agent/composer.py:106-112 | extracting twice is extracting once |
| Composer.KeptAppend | backend/app/agent/composer.py:119-123 | filtering works entry by entry, so order is preserved |
| Composer.KeptBounds | backend/app/agent/composer.py:118-123 | no more descriptions than entries; each kept one is stripped and at most 500 characters long |
| Composer.KeptEntry | backend/app/agent/composer.py:120-122 | a dict entry with a description of 5 to 500 characters is kept, stripped |
| Composer.NonDictDropped | backend/app/agent/composer.py:120 | an entry that is not a dict is dropped |
| Composer.KeptMeasuresBeforeStrip | backend/app/agent/composer.py:121-122 | the length is measured before stripping: "  ab  " is kept as "ab", shorter than 5 |
| Composer.KeptWellFormedPlan | backend/app/agent/composer.py:118-123 | a plan of stripped descriptions of 5 to 500 characters comes back unchanged |
| Composer.SpecsFailuresAreEmpty | backend/app/agent/composer.py:101-117 | an unreadable answer, a parse failure or an empty plan object gives `[]` |
| Composer.SpecsOfList | backend/app/agent/composer.py:113-123 | a parsed plan with an `animations` list gives the filtered descriptions of that list |
| Composer.SpecsOfWellFormedPlan | backend/app/agent/composer.py:101-123 | an answer whose plan lists well-formed descriptions gives exactly those descriptions |
| Composer.FilterDescriptions | backend/app/agent/composer.py:118-123 | the loop's result is the filtered descriptions |
| Composer.ExtractAnimationSpecs | backend/app/agent/composer.py:101-123 | the method computes the plan outcome: the kept descriptions, or an error when the plan is not a dict or its `animations` cannot be iterated |
| Composer.OutputNameInjective | backend/app/agent/composer.py:36 | two output names are equal only for the same index and the same six hex digits |
| Composer.OutputFilesDistinct | backend/app/agent/composer.py:32-36 | the requested animations get distinct output names whatever the random hex strings |
| Composer.GenerateAnimations | backend/app/agent/composer.py:30-41 | one result per animation, in order, when the manim tool exists, and none otherwise |
| Composer.ContextShape | backend/app/agent/composer.py:44-58 | there are no context lines without a success; otherwise there are a header, one line per success, two per video and a footer |
| Composer.AnimationNumbering | backend/app/agent/composer.py:48-51 | the k-th success is announced as `Animation k`, counting successes only |
| Composer.BuildContextLines | backend/app/agent/composer.py:44-58 | the loop builds the context of the successful results |
| Composer.AugmentPrompt | backend/app/agent/composer.py:60-64 | the prompt is unchanged exactly when there are no context lines; otherwise it gets two newlines, the joined lines and the instruction |
| Composer.SummaryCases | backend/app/agent/composer.py:74-78 | the message gains "Generated N animation(s)." with N successes, the failure sentence when all requested ones failed, and nothing when none was requested |
| Composer.ComposeDocument | backend/app/agent/composer.py:25-80 | a plan error propagates; a missing LaTeX tool gives the fixed error response; otherwise the reply to the augmented prompt with the summarised message |
| Composer.DefaultRegistryHasComposerTools | backend/app/agent/composer.py:27-28 | the default registry holds both tools the composer looks up |
| Registry.BuildRegistry | backend/app/agent/registry.py:11-13 | the dict lists each key once, and every tool is filed under its name |
| Registry.List | backend/app/agent/registry.py:15-16 | one tool per key, in key order, each the one `get` finds |
| Registry.Specs | backend/app/agent/registry.py:18-26 | one name, description and schema entry per listed tool, in the same order |
| Registry.GetFindsLast | backend/app/agent/registry.py:28-29 | `get(name)` is the last tool registered under `name`, or None |
| Registry.DistinctNamesListAll | backend/app/agent/registry.py:12-16 | with distinct names, the keys are the names and `list()` is the tool list in registration order |
| Registry.LaterWins | backend/app/agent/registry.py:13 | a re-registered name keeps its first position but takes the later tool |
| Registry.DefaultRegistryHasAll | backend/app/agent/registry.py:11-13 | the five default tools are all listed, in order, and each is found under its name |
| WebScraper.RecogniserIsPattern | backend/app/agent/web_scraper_tool.py:85-91 | the left-to-right recogniser accepts exactly what the pattern matches |
| WebScraper.PatternIsRecognised | backend/app/agent/web_scraper_tool.py:85-91 | every split into scheme, host, port and rest that fits the pattern is accepted |
| WebScraper.RecognisedIsPattern | backend/app/agent/web_scraper_tool.py:85-91 | every accepted text splits into scheme, host, port and rest that fit the pattern |
| WebScraper.CheckUrlArgument | backend/app/agent/web_scraper_tool.py:38-50 | the URL is passed on exactly when it is present, non-empty and valid; a missing or empty one gives "URL is required" |
| WebScraper.InvalidUrlEchoed | backend/app/agent/web_scraper_tool.py:46-50 | a rejected URL is echoed after "Invalid URL format: ", so the two errors differ |
| WebScraper.ValidStartsWithScheme | backend/app/agent/web_scraper_tool.py:86 | an accepted URL starts with `http://` or `https://` in some letter case |
| WebScraper.IPv4OfGroups | backend/app/agent/web_scraper_tool.py:89 | any four groups of 1 to 3 digits joined by dots form a host |
| WebScraper.NoRangeCheck | backend/app/agent/web_scraper_tool.py:89 | `999.999.999.999` is accepted as a host |
| WebScraper.HyphenLabelRejected | backend/app/agent/web_scraper_tool.py:87 | a label starting with a hyphen is refused |
| StringOrder.SortStrings | backend/app/agent/template_tool.py:120 | `sorted` gives a permutation of its input in non-decreasing order |
| StringOrder.StrictlySortedUnique | backend/app/agent/template_tool.py:120 | two strictly sorted lists with the same elements are equal, so the sorted listing is determined by the set of stems |
| TemplateTool.WithDefaultsKeepsExisting | backend/app/agent/template_tool.py:59-62 | an existing template is never overwritten |
| TemplateTool.WithDefaultsKeys | backend/app/agent/template_tool.py:59-62 | afterwards the directory holds exactly the old stems and the default names |
| TemplateTool.WithDefaultsWritesFirst | backend/app/agent/template_tool.py:59-62 | a missing default is written with its own text |
| TemplateTool.WithDefaultsIdempotent | backend/app/agent/template_tool.py:48-63 | initialising twice is initialising once |
| TemplateTool.DefaultsWrittenInFull | backend/app/agent/template_tool.py:50-62 | each of the six defaults missing beforehand gets its own text |
| TemplateTool.SortedKeys | backend/app/agent/template_tool.py:112-120 | the listing is strictly increasing and holds exactly the stems |
| TemplateTool.TemplateTool.constructor | backend/app/agent/template_tool.py:40-46 | the directory exists afterwards and holds the old templates plus the missing defaults |
| TemplateTool.TemplateTool.InitializeDefaultTemplates | backend/app/agent/template_tool.py:48-63 | the loop writes each absent default and nothing else |
| TemplateTool.TemplateTool.GetAvailableTemplates | backend/app/agent/template_tool.py:112-120 | the result is `[]` when the directory is missing, and otherwise the sorted stems whatever order the directory yields them in |
| TemplateTool.TemplateTool.Run | backend/app/agent/template_tool.py:65-103 | missing or empty type is refused; `list` in any case lists, even when a `list.tex` exists; otherwise the lower-cased type is looked up, giving the text verbatim with the caller's casing or a not-found error listing the templates |
| TemplateTool.UpperCaseStemUnreachable | backend/app/agent/template_tool.py:85 | a stem containing an upper-case letter is never the one looked up |

## Left out

- Network, language-model, transcription, compile and file-system calls. They are parameters: the answers of the chat, compile and model services, the parsed JSON (`parse`), the `uuid` hex strings, the tools' `run` results, the template texts, the tool input schemas and the directory contents. A call that raises is a `None` or `Err` outcome.
- Concurrency. Each handler is one atomic sequence. Overlapping `await`s, such as two compiles racing or a send racing an accept, are not modelled.
- UI rendering: JSX, Monaco registration, toasts and scrolling. The buttons' `disabled` expressions are kept as predicates. The editor page calls a `setTerm` the store does not define, so typing does not reach the buffer through it. That page is not part of this model.
- The HTTP clients. `sendMessage` is called with three arguments but declares two. The model follows the call site: the request carries the prompt, the buffer and the attachment. The FormData conversion of `strToTex` is not modelled.
- Only `str.lower`, `\d` and `re.IGNORECASE` are ASCII here. Python's Unicode digits and case folding, such as the Kelvin sign matching `k`, are not modelled. Whitespace for `str.strip` and the regex `\S` follows Python's full Unicode `str.isspace` set. `splitlines` breaks at Python's full set of line boundaries, with `\r\n` counted as one break.
- Non-string arguments. `args.get("url")` and `args.get("type")` are modelled as an optional string. A non-string value would raise inside `run`, and the exception handler's "Error ..." result is not modelled.
- `WebScraper.CheckUrlArgument`: the summary request that follows a valid URL, and the result dict built from it, are not modelled.
- `TemplateTool.TemplateTool.Run`: a read error from `read_text` and the `except` branch are not modelled. Path effects of a type containing `/` or `..` are not modelled either, because the directory is a map of stems.
- JSON numbers are kept as their literal text, since no modelled code does arithmetic on them.
- The composer's plan parse raising on a non-iterable `animations` value is modelled as an `Err` outcome, which `ComposeDocument` propagates.
- `backend/app/models/schemas.py` is not part of this model. Its `ChatResponse` fields differ from what the composer builds; the model follows `composer.py` (`message`, `latex`, optional `error`). The `ManimAnimationInput` defaults are also parameters here.
- ManimService.ConfigInjectionLines: height, width and frame rate are integers, rendered as `str(int)` renders them. The schema that types them is not part of this model, so a float value, such as a frame rate of `29.97`, is not modelled.
- ManimService.ConfigValuesReadBack: reads back integer values only, for the same reason. A float value is not modelled.
- The LaTeX tool calls `generate_message_and_latex`, which the chat service does not define. Its reply is the `runLatex` parameter.
- The comment at `manim_service.py:117` says four spaces, but the code indents by eight. The model follows the code.
- The large command table of `latexCommands.ts` is not transcribed. Three entries of the same shapes serve as witnesses.
- pdflatex, tex2html, ffmpeg and manim execution, the audio service and the thin tool wrappers are not modelled.
