/** The LaTeX autocompletion source (frontend/src/constants/latexCommands.ts):
    a fixed table of raw commands, each turned into an editor completion item
    whose missing fields get defaults (`??`, so only an absent field is
    replaced, never a present falsy one such as `""` or the enum value 0).
    The table of about 650 entries is a parameter here, and three of its
    entries are written out as witnesses.  Monaco's word lookup at the cursor
    (`getWordUntilPosition`) is a parameter too. */
module LatexCommands {
  import opened Wrappers

  /** Monaco's numeric `CompletionItemKind` enumeration. */
  type CompletionItemKind = k: int | 0 <= k <= 27
  const METHOD: CompletionItemKind := 0
  const FUNCTION: CompletionItemKind := 1
  const REFERENCE: CompletionItemKind := 21
  const SNIPPET: CompletionItemKind := 27

  /** Monaco's `CompletionItemInsertTextRule` flags. */
  type InsertTextRule = r: int | 0 <= r <= 7
  const NO_RULES: InsertTextRule := 0
  const KEEP_WHITESPACE: InsertTextRule := 1
  const INSERT_AS_SNIPPET: InsertTextRule := 4

  /** `RawLatexCommand`: only the label is mandatory. */
  datatype RawLatexCommand = RawLatexCommand(
    labelText: string,
    insertText: Option<string>,
    kind: Option<CompletionItemKind>,
    documentation: Option<string>,
    insertTextRules: Option<InsertTextRule>)

  datatype Position = Position(lineNumber: int, column: int)

  /** What `model.getWordUntilPosition(position)` returns. */
  datatype WordAtPosition = WordAtPosition(word: string, startColumn: int, endColumn: int)

  datatype Range = Range(startLineNumber: int, endLineNumber: int, startColumn: int, endColumn: int)

  datatype CompletionItem = CompletionItem(
    labelText: string,
    kind: CompletionItemKind,
    insertText: string,
    insertTextRules: InsertTextRule,
    documentation: Option<string>,
    range: Range)

  /** `toCompletionItem(cmd, model, position)`, with the word at `position`
      already looked up. */
  function ToCompletionItem(cmd: RawLatexCommand, word: WordAtPosition, position: Position): (item: CompletionItem)
    ensures item.labelText == cmd.labelText && item.documentation == cmd.documentation
    ensures cmd.kind.Some? ==> item.kind == cmd.kind.value
    ensures cmd.kind.None? ==> item.kind == FUNCTION
    ensures cmd.insertText.Some? ==> item.insertText == cmd.insertText.value
    ensures cmd.insertText.None? ==> item.insertText == cmd.labelText
    ensures cmd.insertTextRules.Some? ==> item.insertTextRules == cmd.insertTextRules.value
    ensures cmd.insertTextRules.None? ==> item.insertTextRules == INSERT_AS_SNIPPET
    ensures item.range.startLineNumber == position.lineNumber == item.range.endLineNumber
    ensures item.range.startColumn == word.startColumn && item.range.endColumn == word.endColumn
  {
    var range := Range(position.lineNumber, position.lineNumber, word.startColumn, word.endColumn);
    CompletionItem(
      cmd.labelText,
      cmd.kind.GetOr(FUNCTION),
      cmd.insertText.GetOr(cmd.labelText),
      cmd.insertTextRules.GetOr(INSERT_AS_SNIPPET),
      cmd.documentation,
      range)
  }

  /** `allCompletionItemsForPosition`: one item per table entry, in table order. */
  function AllCompletionItemsForPosition(table: seq<RawLatexCommand>, word: WordAtPosition, position: Position)
    : (items: seq<CompletionItem>)
    ensures |items| == |table|
    ensures forall i :: 0 <= i < |table| ==> items[i] == ToCompletionItem(table[i], word, position)
  {
    seq(|table|, i requires 0 <= i < |table| => ToCompletionItem(table[i], word, position))
  }

  function Labels(items: seq<CompletionItem>): (r: seq<string>)
    ensures |r| == |items| && forall i :: 0 <= i < |items| ==> r[i] == items[i].labelText
  {
    seq(|items|, i requires 0 <= i < |items| => items[i].labelText)
  }

  /** The suggestions do not depend on the document or the cursor: two
      positions get the same labels, those of the table in table order
      (duplicates included), and items that differ only in their range. */
  lemma SuggestionsIndependentOfPosition(
    table: seq<RawLatexCommand>, w1: WordAtPosition, p1: Position, w2: WordAtPosition, p2: Position)
    ensures Labels(AllCompletionItemsForPosition(table, w1, p1))
         == seq(|table|, i requires 0 <= i < |table| => table[i].labelText)
    ensures Labels(AllCompletionItemsForPosition(table, w1, p1))
         == Labels(AllCompletionItemsForPosition(table, w2, p2))
    ensures forall i :: 0 <= i < |table| ==>
      AllCompletionItemsForPosition(table, w1, p1)[i].(range := Range(0, 0, 0, 0))
      == AllCompletionItemsForPosition(table, w2, p2)[i].(range := Range(0, 0, 0, 0))
  {
  }

  /** `??` keeps present falsy values: an empty `insertText` stays empty, and
      the kind `Method` (0) and the rule set `None` (0) are not replaced. */
  lemma DefaultsOnlyWhenAbsent(cmd: RawLatexCommand, word: WordAtPosition, position: Position)
    ensures cmd.insertText == Some("") ==> ToCompletionItem(cmd, word, position).insertText == ""
    ensures cmd.kind == Some(METHOD) ==> ToCompletionItem(cmd, word, position).kind == METHOD
    ensures cmd.insertTextRules == Some(NO_RULES) ==> ToCompletionItem(cmd, word, position).insertTextRules == NO_RULES
  {
  }

  /** Three entries of `RAW_LATEX_COMMANDS`: `\begin` (a snippet), the `\`
      entry whose insert text is empty, and `\textbf{}` without rules. */
  const BEGIN_COMMAND := RawLatexCommand(
    "\\begin", Some("begin{${1:environment}}$0"), Some(SNIPPET),
    Some("{eqnarray} starts adisplaymath"), Some(INSERT_AS_SNIPPET))
  const BACKSLASH_COMMAND := RawLatexCommand(
    "\\", Some(""), Some(FUNCTION), Some("or\\*;u s e\nonumber to suppress"), None)
  const TEXTBF_COMMAND := RawLatexCommand(
    "\\textbf{}", Some("textbf{${1}}$0"), Some(FUNCTION), Some("Bolded Text"), None)
  const WITNESS_COMMANDS := [BEGIN_COMMAND, BACKSLASH_COMMAND, TEXTBF_COMMAND]

  /** On the witnesses: `\begin` stays a snippet kind, the `\` entry inserts
      nothing, and `\textbf{}` is inserted as a snippet although its entry
      names no rule. */
  lemma WitnessItems(word: WordAtPosition, position: Position)
    ensures var items := AllCompletionItemsForPosition(WITNESS_COMMANDS, word, position);
      && |items| == 3
      && items[0].kind == SNIPPET && items[0].insertTextRules == INSERT_AS_SNIPPET
      && items[1].labelText == "\\" && items[1].insertText == ""
      && items[2].insertTextRules == INSERT_AS_SNIPPET && items[2].kind == FUNCTION
  {
  }
}
