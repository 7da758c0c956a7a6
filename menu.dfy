/** The Compile button of the menu bar (frontend/src/components/Editor/Menu.tsx):
    disabled while a compile is in flight; a click raises the flag, sends the
    current buffer to the compile service, hands the result to `setPdf` and
    lowers the flag.  The compile service is a function from the document text
    to the PDF bytes or `None`; it reports every failure as `None` and never
    throws, so the flag is always lowered. */
module Menu {
  import opened Wrappers
  import opened EditorStore

  /** `disabled={isCompiling}`. */
  predicate CompileDisabled(s: State) {
    s.isCompiling
  }

  /** The store actions of one click, given what the compile request returned. */
  function CompileClickActions(result: Option<seq<byte>>): seq<Action> {
    [Compiling(true), Pdf(result), Compiling(false)]
  }

  /** The click actions are the three store calls, in the handler's order. */
  lemma CompileClickRun(s: State, result: Option<seq<byte>>)
    ensures Run(s, CompileClickActions(result))
         == Step(Step(Step(s, Compiling(true)), Pdf(result)), Compiling(false))
  {
    var s1 := Step(s, Compiling(true));
    var s2 := Step(s1, Pdf(result));
    var rest2: seq<Action> := [Compiling(false)];
    var rest1 := [Pdf(result)] + rest2;
    assert CompileClickActions(result) == [Compiling(true)] + rest1;
    RunCons(s, Compiling(true), rest1);
    RunCons(s1, Pdf(result), rest2);
    assert rest2 == [Compiling(false)] + [];
    RunCons(s2, Compiling(false), []);
  }

  /** A click leaves the buffer alone and the flag lowered, and keeps the
      previous PDF when the compile failed. */
  lemma CompileClickEffect(s: State, result: Option<seq<byte>>)
    ensures Run(s, CompileClickActions(result)).content == s.content
    ensures !Run(s, CompileClickActions(result)).isCompiling
    ensures Run(s, CompileClickActions(result)).compiledPdf
         == if result.Some? then result else s.compiledPdf
  {
    RunByField(s, CompileClickActions(result));
  }

  /** The request is sent while the flag is up, so the button stays disabled
      until the request has settled. */
  lemma RequestSentWhileCompiling(s: State, result: Option<seq<byte>>)
    ensures CompileDisabled(Run(s, CompileClickActions(result)[..1]))
    ensures CompileDisabled(Run(s, CompileClickActions(result)[..2]))
  {
    RunByField(s, CompileClickActions(result)[..1]);
    RunByField(s, CompileClickActions(result)[..2]);
  }

  /** A click on the Compile button.  A disabled button does nothing. */
  method OnCompileClick(store: Store, compileTex: string -> Option<seq<byte>>)
    modifies store
    ensures CompileDisabled(old(store.Snapshot())) ==> store.Snapshot() == old(store.Snapshot())
    ensures !CompileDisabled(old(store.Snapshot())) ==>
      store.Snapshot() == Run(old(store.Snapshot()), CompileClickActions(compileTex(old(store.content))))
  {
    if store.isCompiling {
      return;
    }
    ghost var before := store.Snapshot();
    store.SetIsCompiling(true);
    var file := compileTex(store.content);
    store.SetPdf(file);
    store.SetIsCompiling(false);
    CompileClickRun(before, file);
  }
}
