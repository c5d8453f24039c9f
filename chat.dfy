/** The chat side of app.py: the session's mode switch (`set_mode`) and the prompt `chat` passes to
    `ask_gemini`, with or without retrieved context. */
module Chat {
  import opened Wrappers
  import opened Strings
  import opened Records
  import opened Ranker
  import opened VectorStore

  /** `mode in ["chat", "rag"]` (app.py:352). */
  predicate ValidMode(mode: string) {
    mode == "chat" || mode == "rag"
  }

  /** The session's mode after `set_mode` receives form field `requested` (app.py:351-353): the field,
      "chat" when absent, is stored only when it is a valid mode; anything else leaves the session as it was. */
  function NextMode(current: Option<string>, requested: Option<string>): (next: Option<string>)
    ensures requested.None? ==> next == Some("chat")
    ensures requested.Some? && ValidMode(requested.value) ==> next == requested
    ensures requested.Some? && !ValidMode(requested.value) ==> next == current
  {
    var mode := requested.GetOr("chat");
    if ValidMode(mode) then Some(mode) else current
  }

  /** A session whose mode is absent or valid stays so, and applying the same request twice is applying it once. */
  lemma NextModeKeepsValid(current: Option<string>, requested: Option<string>)
    requires current.None? || ValidMode(current.value)
    ensures var next := NextMode(current, requested); next.None? || ValidMode(next.value)
    ensures NextMode(NextMode(current, requested), requested) == NextMode(current, requested)
  {
  }

  const ContextHeader: string :=
    "Based on the following context, answer the question. If the context doesn't contain relevant information, say so.\n\nContext:\n"
  const QuestionLabel: string := "\n\nQuestion: "
  const NoDocumentsLead: string := "I don't have any relevant documents uploaded to answer this question: "
  const NoDocumentsTail: string := "\n\nPlease upload some documents first to use Document Q&A mode."

  /** The prompt `chat` builds for `message` (app.py:325-333); `context` is what the search returned. */
  function BuildPrompt(mode: string, message: string, context: seq<string>): string {
    if mode == "rag" then
      if context != [] then ContextHeader + Join("\n\n", context) + QuestionLabel + message
      else NoDocumentsLead + message + NoDocumentsTail
    else message
  }

  /** Outside document mode the message itself is passed to `ask_gemini`. */
  lemma PlainChatSendsMessage(mode: string, message: string, context: seq<string>)
    requires mode != "rag"
    ensures BuildPrompt(mode, message, context) == message
  {
  }

  /** Text occurring in the middle piece of a concatenation occurs in the whole. */
  lemma InfixInConcat(needle: string, before: string, middle: string, after: string)
    requires IsInfix(needle, middle)
    ensures IsInfix(needle, before + middle + after)
  {
    var i :| OccursAt(needle, middle, i);
    var whole := before + middle + after;
    assert whole[|before| + i..|before| + i + |needle|] == middle[i..i + |needle|];
    assert OccursAt(needle, whole, |before| + i);
  }

  /** Whatever the mode and the context, the user's question is part of the prompt. */
  lemma PromptAsksQuestion(mode: string, message: string, context: seq<string>)
    ensures IsInfix(message, BuildPrompt(mode, message, context))
  {
    assert OccursAt(message, message, 0);
    if mode == "rag" {
      if context != [] {
        InfixInConcat(message, ContextHeader + Join("\n\n", context) + QuestionLabel, message, []);
        assert ContextHeader + Join("\n\n", context) + QuestionLabel + message + [] == BuildPrompt(mode, message, context);
      } else {
        InfixInConcat(message, NoDocumentsLead, message, NoDocumentsTail);
      }
    }
  }

  /** In document mode every retrieved chunk is part of the prompt, and the prompt ends with the question. */
  lemma PromptCarriesContext(message: string, context: seq<string>, k: nat)
    requires k < |context|
    ensures IsInfix(context[k], BuildPrompt("rag", message, context))
    ensures var p := BuildPrompt("rag", message, context);
      |QuestionLabel + message| <= |p| && p[|p| - |QuestionLabel + message|..] == QuestionLabel + message
  {
    var joined := Join("\n\n", context);
    JoinContainsParts("\n\n", context, k);
    InfixInConcat(context[k], ContextHeader, joined, QuestionLabel + message);
    var p := BuildPrompt("rag", message, context);
    assert p == ContextHeader + joined + (QuestionLabel + message);
  }

  /** The per-browser Flask session: only the mode is modelled. */
  class Session {
    var mode: Option<string>

    /** A fresh session has no mode stored. */
    constructor ()
      ensures mode == None
    {
      mode := None;
    }

    /** `session.get("mode", "chat")` (app.py:315). */
    function Mode(): string
      reads this
    {
      mode.GetOr("chat")
    }

    ghost predicate Valid()
      reads this
    {
      mode.None? || ValidMode(mode.value)
    }

    /** `set_mode()` (app.py:349-354): `requested` is the form field `mode`. */
    method SetMode(requested: Option<string>)
      modifies this
      ensures mode == NextMode(old(mode), requested)
      ensures old(Valid()) ==> Valid() && ValidMode(Mode())
    {
      var m := requested.GetOr("chat");
      if m == "chat" || m == "rag" {
        mode := Some(m);
      }
    }
  }

  /** The POST branch of `chat()` up to the call of `ask_gemini` (app.py:317-333): None for a blank message
      (the "Empty message" error), otherwise the prompt passed to `ask_gemini`. */
  method ChatPrompt(session: Session, db: Database, user: string, message: Option<string>,
                    embed: string -> Option<Vector>, norm: Vector -> real, score: (Vector, Vector) -> real)
    returns (prompt: Option<string>)
    ensures prompt.None? <==> AllSpace(message.GetOr(""))
    ensures prompt.Some? ==>
      var text := Strip(message.GetOr(""));
      prompt.value == BuildPrompt(session.Mode(), text,
        if session.Mode() == "rag" then SearchResult(embed(text), db.Fetch(user), norm, score) else [])
  {
    var userMessage := Strip(message.GetOr(""));
    if userMessage == [] {
      return None;
    }
    var mode := session.Mode();
    var contextChunks: seq<string> := [];
    if mode == "rag" {
      contextChunks := db.SearchSimilar(userMessage, user, embed, norm, score);
    }
    return Some(BuildPrompt(mode, userMessage, contextChunks));
  }
}
