/** The chat panel (frontend/src/components/Editor/Chat.tsx) together with the
    message list its parent page owns and appends to (`addMessage`).  A submit
    appends the user's message, clears the input and the attachment, asks the
    chat service and appends the reply; a reply may carry a whole proposed
    document (`diff`) that the user can preview and accept, which writes it to
    the store and recompiles.  The chat and compile services are functions
    whose `None` result stands for every failure their clients report as
    `null`. */
module Chat {
  import opened Wrappers
  import opened EditorStore

  datatype Role = User | Bot

  /** `Message`; `diff == None` is an absent or `null` diff. */
  datatype Message = Message(content: string, role: Role, diff: Option<string>)

  /** A successful chat reply: the assistant's text and the proposed document. */
  datatype ChatDTO = ChatDTO(latex: string, message: string)

  /** A file the user attached: its name and bytes. */
  datatype Attachment = Attachment(name: string, data: seq<byte>)

  /** What a submit hands to the chat service: the prompt, the current buffer
      and the attachment as it was when the submit started. */
  datatype ChatRequest = ChatRequest(prompt: string, source: string, attached: Option<Attachment>)

  /** `isWaiting`: the last message is the user's, so no reply has arrived yet. */
  predicate IsWaiting(msgs: seq<Message>) {
    |msgs| > 0 && msgs[|msgs| - 1].role == User
  }

  /** `disabled={isWaiting}` on the text area. */
  predicate InputDisabled(msgs: seq<Message>) {
    IsWaiting(msgs)
  }

  /** `disabled={input.length==0 || isWaiting}` on the send button. */
  predicate SubmitDisabled(input: string, msgs: seq<Message>) {
    |input| == 0 || IsWaiting(msgs)
  }

  /** The preview and accept controls are rendered for bot messages whose
      `diff` is truthy (an empty string is not). */
  predicate ShowsDiffControls(m: Message) {
    m.role == Bot && m.diff.Some? && m.diff.value != ""
  }

  /** `disabled={content==message.diff}` on the inline accept button. */
  predicate AcceptDisabled(content: string, m: Message) {
    m.diff == Some(content)
  }

  /** `disabled={isLoading || (message.diff == content)}` on the dialog's Accept. */
  predicate DialogAcceptDisabled(isLoading: bool, content: string, m: Message) {
    isLoading || m.diff == Some(content)
  }

  /** The message list after `onSubmit(text)` given the chat service's answer. */
  function SubmitMessages(msgs: seq<Message>, text: string, reply: Option<ChatDTO>): seq<Message> {
    if |text| == 0 then msgs
    else if reply.Some? then
      msgs + [Message(text, User, None), Message(reply.value.message, Bot, Some(reply.value.latex))]
    else msgs + [Message(text, User, None)]
  }

  /** The store actions of an accept, given what recompiling the diff returned. */
  function AcceptActions(diff: string, result: Option<seq<byte>>): seq<Action> {
    [Content(diff), Compiling(true), Pdf(result), Compiling(false)]
  }

  /** An empty submit changes nothing; any other appends exactly the user's
      message and, when the service answered, exactly one bot message carrying
      the proposed document, leaving the earlier messages as they were. */
  lemma SubmitAppends(msgs: seq<Message>, text: string, reply: Option<ChatDTO>)
    ensures |text| == 0 ==> SubmitMessages(msgs, text, reply) == msgs
    ensures |text| > 0 ==>
      var r := SubmitMessages(msgs, text, reply);
      && |r| == |msgs| + (if reply.Some? then 2 else 1)
      && r[..|msgs|] == msgs
      && r[|msgs|] == Message(text, User, None)
      && (reply.Some? ==> r[|msgs| + 1] == Message(reply.value.message, Bot, Some(reply.value.latex)))
  {
  }

  /** After a failed send the panel waits for good: the text area and the send
      button stay disabled.  After a reply it no longer waits. */
  lemma WaitingAfterSubmit(msgs: seq<Message>, text: string, reply: Option<ChatDTO>, input: string)
    requires |text| > 0
    ensures reply.None? ==> IsWaiting(SubmitMessages(msgs, text, reply))
    ensures reply.None? ==> InputDisabled(SubmitMessages(msgs, text, reply))
    ensures reply.None? ==> SubmitDisabled(input, SubmitMessages(msgs, text, reply))
    ensures reply.Some? ==> !IsWaiting(SubmitMessages(msgs, text, reply))
  {
  }

  /** Messages alternate user, bot, user, ... from the first one on. */
  predicate Alternating(msgs: seq<Message>) {
    forall i :: 0 <= i < |msgs| ==> (msgs[i].role == User <==> i % 2 == 0)
  }

  /** Submits made only when the panel is not waiting (the only submits the
      controls allow) keep the messages alternating. */
  lemma SubmitKeepsAlternation(msgs: seq<Message>, text: string, reply: Option<ChatDTO>)
    requires Alternating(msgs) && !IsWaiting(msgs)
    ensures Alternating(SubmitMessages(msgs, text, reply))
  {
    if |msgs| > 0 {
      assert msgs[|msgs| - 1].role == Bot;
    }
    assert |msgs| % 2 == 0;
  }

  /** No controls for a reply without a proposal or with an empty one. */
  lemma NoControlsWithoutDiff(m: Message)
    requires m.diff.None? || m.diff == Some("")
    ensures !ShowsDiffControls(m)
  {
  }

  /** The accept actions are the four store calls, in the handler's order. */
  lemma AcceptActionsRun(s: State, diff: string, result: Option<seq<byte>>)
    ensures Run(s, AcceptActions(diff, result))
         == Step(Step(Step(Step(s, Content(diff)), Compiling(true)), Pdf(result)), Compiling(false))
  {
    var s1 := Step(s, Content(diff));
    var s2 := Step(s1, Compiling(true));
    var s3 := Step(s2, Pdf(result));
    var rest3: seq<Action> := [Compiling(false)];
    var rest2 := [Pdf(result)] + rest3;
    var rest1 := [Compiling(true)] + rest2;
    assert AcceptActions(diff, result) == [Content(diff)] + rest1;
    RunCons(s, Content(diff), rest1);
    RunCons(s1, Compiling(true), rest2);
    RunCons(s2, Pdf(result), rest3);
    assert rest3 == [Compiling(false)] + [];
    RunCons(s3, Compiling(false), []);
  }

  /** Accepting writes the proposal to the buffer, leaves the flag lowered and
      keeps the previous PDF if the recompile failed; afterwards both accept
      buttons of that message are disabled, so accepting is done once. */
  lemma AcceptEffect(s: State, m: Message, result: Option<seq<byte>>)
    requires ShowsDiffControls(m)
    ensures var t := Run(s, AcceptActions(m.diff.value, result));
      && t.content == m.diff.value
      && !t.isCompiling
      && t.compiledPdf == (if result.Some? then result else s.compiledPdf)
      && AcceptDisabled(t.content, m)
      && DialogAcceptDisabled(false, t.content, m)
  {
    AcceptActionsRun(s, m.diff.value, result);
  }

  /** The state of the chat panel and of the message list it shows. */
  class ChatPanel {
    var messages: seq<Message>
    var input: string
    var isLoading: bool
    var attachedFile: Option<Attachment>
    const store: Store

    constructor (store: Store)
      ensures this.store == store
      ensures messages == [] && input == "" && !isLoading && attachedFile.None?
    {
      this.store := store;
      messages := [];
      input := "";
      isLoading := false;
      attachedFile := None;
    }

    /** `onSubmit(text)`.  The request carries the buffer and the attachment as
        they were when the submit started, not the cleared attachment. */
    method OnSubmit(text: string, sendMessage: ChatRequest -> Option<ChatDTO>)
      modifies this
      ensures messages
           == SubmitMessages(old(messages), text, sendMessage(ChatRequest(text, store.content, old(attachedFile))))
      ensures |text| == 0 ==> input == old(input) && attachedFile == old(attachedFile)
      ensures |text| > 0 ==> input == "" && attachedFile.None?
      ensures isLoading == old(isLoading)
    {
      if |text| == 0 {
        return;
      }
      var attached := attachedFile;
      messages := messages + [Message(text, User, None)];
      input := "";
      attachedFile := None;
      var data := sendMessage(ChatRequest(text, store.content, attached));
      if data.Some? {
        messages := messages + [Message(data.value.message, Bot, Some(data.value.latex))];
      }
    }

    /** The inline accept button of message `i`: absent unless the message
        shows diff controls, inert while disabled. */
    method OnAcceptInline(i: nat, compileTex: string -> Option<seq<byte>>)
      requires i < |messages|
      modifies store
      ensures var m := messages[i];
        if ShowsDiffControls(m) && !AcceptDisabled(old(store.content), m)
        then store.Snapshot() == Run(old(store.Snapshot()), AcceptActions(m.diff.value, compileTex(m.diff.value)))
        else store.Snapshot() == old(store.Snapshot())
    {
      var m := messages[i];
      if !ShowsDiffControls(m) || AcceptDisabled(store.content, m) {
        return;
      }
      ghost var before := store.Snapshot();
      var diff := m.diff.value;
      store.SetContent(diff);
      store.SetIsCompiling(true);
      var file := compileTex(diff);
      store.SetPdf(file);
      store.SetIsCompiling(false);
      AcceptActionsRun(before, diff, file);
    }

    /** The Accept button of the diff dialog of message `i`: the same store
        actions, with the loading flag raised around the recompile. */
    method OnAcceptFromDialog(i: nat, compileTex: string -> Option<seq<byte>>)
      requires i < |messages|
      modifies this, store
      ensures messages == old(messages) && input == old(input) && attachedFile == old(attachedFile)
      ensures isLoading == old(isLoading)
      ensures var m := messages[i];
        if ShowsDiffControls(m) && !DialogAcceptDisabled(old(isLoading), old(store.content), m)
        then store.Snapshot() == Run(old(store.Snapshot()), AcceptActions(m.diff.value, compileTex(m.diff.value)))
        else store.Snapshot() == old(store.Snapshot())
    {
      var m := messages[i];
      if !ShowsDiffControls(m) || DialogAcceptDisabled(isLoading, store.content, m) {
        return;
      }
      ghost var before := store.Snapshot();
      var diff := m.diff.value;
      isLoading := true;
      store.SetContent(diff);
      store.SetIsCompiling(true);
      var file := compileTex(diff);
      store.SetPdf(file);
      isLoading := false;
      store.SetIsCompiling(false);
      AcceptActionsRun(before, diff, file);
    }
  }
}
