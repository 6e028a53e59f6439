/** backend/routes/groq-fallback.js: `/groq-fallback`, an answer from the LLM's general
    knowledge when the document had none; only a real answer is stored. */
module GroqFallback {
  import opened Wrappers
  import opened Seqs
  import opened Text
  import opened ChatModel
  import opened Store
  import opened ChatRoutes

  /** The JSON body `{ answer, saved }` with its HTTP status. */
  datatype FallbackReply = FallbackReply(status: nat, answer: string, saved: bool)

  const MissingFields := "Question and fileId are required"
  const NoResponse := "No response from AI."
  const GroqError := "Groq AI error occurred."

  const FallbackHead := "\nYou are a helpful AI assistant.\n\nAnswer the question using your general knowledge.\nDo NOT mention any document or file.\nKeep the answer clear and concise.\n\nQUESTION:\n"

  /** The open-domain prompt: no context, only the question. */
  function FallbackPrompt(question: string): (r: string)
    ensures |FallbackHead| <= |r| && r[..|FallbackHead|] == FallbackHead
  {
    FallbackHead + question + "\n\nANSWER:\n"
  }

  /** The prompt quotes the question verbatim and nothing retrieved. */
  lemma FallbackPromptQuotesQuestion(question: string)
    ensures OccursAt(FallbackPrompt(question), question, |FallbackHead|)
    ensures |FallbackPrompt(question)| == |FallbackHead| + |question| + 10
  {
    var p := FallbackPrompt(question);
    assert p[|FallbackHead|..|FallbackHead| + |question|] == question;
  }

  /** What one `/groq-fallback` request does: the reply, the prompt sent (`None` when
      the LLM is not called) and the Chat records appended at time `now`. */
  datatype FallbackTurn = FallbackTurn(reply: FallbackReply, prompt: Option<string>, saved: seq<Chat>)

  function Fallback(question: string, fileId: Option<ObjectId>, now: nat, llm: string -> LlmReply): (t: FallbackTurn)
    ensures t.reply.status == 400 <==> question == "" || fileId.None?
    ensures t.reply.status == 400 ==>
      t.reply == FallbackReply(400, MissingFields, false) && t.prompt.None? && t.saved == []
    ensures t.reply.status != 400 ==> t.prompt == Some(FallbackPrompt(question))
    ensures t.reply.status == 500 <==> t.prompt.Some? && llm(t.prompt.value).Threw?
    ensures t.reply.status == 500 ==> t.reply == FallbackReply(500, GroqError, false)
    ensures t.reply.saved <==> t.saved != []
    ensures t.reply.saved ==>
      t.reply.status == 200 && t.reply.answer != "" && llm(t.prompt.value) == Content(t.reply.answer)
      && t.saved == [AiMessage(t.reply.answer, fileId.value, true, now)]
    ensures t.prompt.Some? && llm(t.prompt.value) == Content("") ==>
      t.reply == FallbackReply(200, NoResponse, false)
    ensures forall i :: 0 <= i < |t.saved| ==> t.saved[i].role == Ai
  {
    if question == "" || fileId.None? then
      FallbackTurn(FallbackReply(400, MissingFields, false), None, [])
    else
      var prompt := FallbackPrompt(question);
      match llm(prompt)
      case Threw => FallbackTurn(FallbackReply(500, GroqError, false), Some(prompt), [])
      case Content(answer) =>
        if answer == "" then FallbackTurn(FallbackReply(200, NoResponse, false), Some(prompt), [])
        else FallbackTurn(FallbackReply(200, answer, true), Some(prompt), [AiMessage(answer, fileId.value, true, now)])
  }

  /** The fallback adds at most the answer to the file's history, marked as found, and
      never the question. */
  lemma HistoryAfterFallback(chats: seq<Chat>, question: string, fileId: ObjectId, now: nat, llm: string -> LlmReply)
    requires StrictlyIncreasing(chats, CreatedAt)
    requires forall i :: 0 <= i < |chats| ==> chats[i].createdAt < now
    ensures var t := Fallback(question, Some(fileId), now, llm);
            HistoryRecords(chats + t.saved, fileId)
            == HistoryRecords(chats, fileId) + (if t.reply.saved then [AiMessage(t.reply.answer, fileId, true, now)] else [])
  {
    var t := Fallback(question, Some(fileId), now, llm);
    IncreasingAppend(chats, t.saved, CreatedAt);
    HistoryInCreationOrder(chats + t.saved, fileId);
    HistoryInCreationOrder(chats, fileId);
    FilterAppend(chats, t.saved, Scope(DemoUser, fileId));
    FilterAll(t.saved, Scope(DemoUser, fileId));
  }

  /** `POST /groq-fallback`. */
  method GroqFallback(db: Database, question: string, fileId: Option<ObjectId>, llm: string -> LlmReply)
    returns (reply: FallbackReply, sent: Option<string>)
    requires db.Valid()
    modifies db
    ensures db.Valid()
    ensures var t := Fallback(question, fileId, old(db.clock), llm);
            reply == t.reply && sent == t.prompt
            && db.chats == old(db.chats) + t.saved && db.clock == old(db.clock) + |t.saved|
    ensures db.files == old(db.files) && db.docs == old(db.docs) && db.users == old(db.users)
    ensures db.blobs == old(db.blobs) && db.nextId == old(db.nextId)
  {
    if question == "" || fileId.None? {
      return FallbackReply(400, MissingFields, false), None;
    }
    var prompt := FallbackPrompt(question);
    sent := Some(prompt);
    var response := llm(prompt);
    if response.Threw? {
      return FallbackReply(500, GroqError, false), sent;
    }
    var answer := response.text;
    if answer == "" {
      return FallbackReply(200, NoResponse, false), sent;
    }
    var created := db.CreateChat(ChatFields(Some(DemoUser), Some(fileId.value), Some("ai"), Some(true), Some(answer)));
    reply := FallbackReply(200, answer, true);
  }
}
