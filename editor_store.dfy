/** The editor's document store (frontend/src/stores/editor-store.ts): the
    buffer text, the last compiled PDF and the "compiling" flag, changed only
    through three actions.  The store is a class whose setters overwrite one
    field each; `Step` and `Run` give the same behaviour on values so that
    handlers made of several actions can be reasoned about as a whole. */
module EditorStore {
  import opened Wrappers

  newtype byte = x: int | 0 <= x < 256

  /** The three fields of `EditorState`; `compiledPdf == None` is `undefined`. */
  datatype State = State(content: string, compiledPdf: Option<seq<byte>>, isCompiling: bool)

  /** One call of a store action.  `Pdf(None)` is `setPdf(null)`. */
  datatype Action =
    | Content(text: string)
    | Pdf(file: Option<seq<byte>>)
    | Compiling(flag: bool)

  /** `initEditorStore()`, equal to `defaultInitState`. */
  function InitEditorStore(): (s: State)
    ensures s.compiledPdf.None? && !s.isCompiling && |s.content| == 0
  {
    State("", None, false)
  }

  /** What one action does to the state.  `setPdf` only stores an argument
      that is present: any `Uint8Array`, even an empty one, is truthy, and
      `null` leaves the stored PDF as it was. */
  function Step(s: State, a: Action): State {
    match a
    case Content(t) => s.(content := t)
    case Pdf(f) => if f.Some? then s.(compiledPdf := f) else s
    case Compiling(b) => s.(isCompiling := b)
  }

  /** The actions applied one after another. */
  function Run(s: State, acts: seq<Action>): State
    decreases |acts|
  {
    if acts == [] then s else Run(Step(s, acts[0]), acts[1..])
  }

  /** Each action changes its own field only; `setContent` stores the text as
      given and `setIsCompiling` sets the flag whatever it was. */
  lemma StepFrame(s: State, a: Action)
    ensures a.Content? ==> Step(s, a) == State(a.text, s.compiledPdf, s.isCompiling)
    ensures a.Pdf? ==> Step(s, a).content == s.content && Step(s, a).isCompiling == s.isCompiling
    ensures a.Pdf? && a.file.Some? ==> Step(s, a).compiledPdf == a.file
    ensures a == Pdf(None) ==> Step(s, a) == s
    ensures a.Compiling? ==> Step(s, a) == State(s.content, s.compiledPdf, a.flag)
  {
  }

  /** Running a list is running its first action, then the rest. */
  lemma RunCons(s: State, act: Action, rest: seq<Action>)
    ensures Run(s, [act] + rest) == Run(Step(s, act), rest)
  {
    assert ([act] + rest)[1..] == rest;
  }

  lemma {:induction false} RunAppend(s: State, a: seq<Action>, b: seq<Action>)
    ensures Run(s, a + b) == Run(Run(s, a), b)
    decreases |a|
  {
    if a != [] {
      assert (a + b)[0] == a[0];
      assert (a + b)[1..] == a[1..] + b;
      RunAppend(Step(s, a[0]), a[1..], b);
    } else {
      assert a + b == b;
    }
  }

  /** The text of the last `setContent` in `acts`, or `init`. */
  function LastContent(acts: seq<Action>, init: string): string
    decreases |acts|
  {
    if acts == [] then init
    else if acts[|acts| - 1].Content? then acts[|acts| - 1].text
    else LastContent(acts[..|acts| - 1], init)
  }

  /** The argument of the last `setPdf` with a non-null argument, or `init`. */
  function LastPdf(acts: seq<Action>, init: Option<seq<byte>>): Option<seq<byte>>
    decreases |acts|
  {
    if acts == [] then init
    else if acts[|acts| - 1].Pdf? && acts[|acts| - 1].file.Some? then acts[|acts| - 1].file
    else LastPdf(acts[..|acts| - 1], init)
  }

  /** The argument of the last `setIsCompiling`, or `init`. */
  function LastFlag(acts: seq<Action>, init: bool): bool
    decreases |acts|
  {
    if acts == [] then init
    else if acts[|acts| - 1].Compiling? then acts[|acts| - 1].flag
    else LastFlag(acts[..|acts| - 1], init)
  }

  /** After any sequence of actions each field holds what the last action on
      that field wrote (for the PDF: the last non-null one), or its old value. */
  lemma {:induction false} RunByField(s: State, acts: seq<Action>)
    ensures Run(s, acts)
         == State(LastContent(acts, s.content), LastPdf(acts, s.compiledPdf), LastFlag(acts, s.isCompiling))
    decreases |acts|
  {
    if acts != [] {
      var n := |acts| - 1;
      assert acts == acts[..n] + [acts[n]];
      RunAppend(s, acts[..n], [acts[n]]);
      RunByField(s, acts[..n]);
    }
  }

  /** Once a PDF is stored no sequence of actions removes it. */
  lemma {:induction false} PdfNeverCleared(s: State, acts: seq<Action>)
    requires s.compiledPdf.Some?
    ensures Run(s, acts).compiledPdf.Some?
    decreases |acts|
  {
    if acts != [] {
      PdfNeverCleared(Step(s, acts[0]), acts[1..]);
    }
  }

  /** The store object created by `createEditorStore`. */
  class Store {
    var content: string
    var compiledPdf: Option<seq<byte>>
    var isCompiling: bool

    /** The state the store currently holds. */
    function Snapshot(): State
      reads this
    {
      State(content, compiledPdf, isCompiling)
    }

    /** `createEditorStore(initState)`; the default argument is `InitEditorStore()`. */
    constructor (init: State)
      ensures Snapshot() == init
    {
      content := init.content;
      compiledPdf := init.compiledPdf;
      isCompiling := init.isCompiling;
    }

    method SetContent(t: string)
      modifies this
      ensures content == t
      ensures compiledPdf == old(compiledPdf) && isCompiling == old(isCompiling)
      ensures Snapshot() == Step(old(Snapshot()), Content(t))
    {
      content := t;
    }

    method SetPdf(file: Option<seq<byte>>)
      modifies this
      ensures compiledPdf == if file.Some? then file else old(compiledPdf)
      ensures content == old(content) && isCompiling == old(isCompiling)
      ensures Snapshot() == Step(old(Snapshot()), Pdf(file))
    {
      if file.Some? {
        compiledPdf := file;
      }
    }

    method SetIsCompiling(flag: bool)
      modifies this
      ensures isCompiling == flag
      ensures content == old(content) && compiledPdf == old(compiledPdf)
      ensures Snapshot() == Step(old(Snapshot()), Compiling(flag))
    {
      isCompiling := flag;
    }
  }
}
