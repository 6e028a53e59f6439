/** frontend/src/pages/Home.jsx: the page's state and the handlers that change it. Each
    handler runs as one step with the reply of its `fetch` given as an argument; each
    firing of the typewriter interval is a step of its own. */
module HomePage {
  import opened Wrappers
  import opened Seqs
  import opened ChatModel
  import opened ChatRoutes

  /** One chat bubble; a field the source leaves out of the object literal is `None`. */
  datatype Message = Message(role: Role, text: string, isFound: Option<bool>,
                             originalQuestion: Option<string>, askedAI: Option<bool>)

  /** An entry of the file list, as `GET /files` returns it. */
  datatype FileEntry = FileEntry(id: ObjectId, originalName: string)

  /** A running typewriter interval: the file it types into, the full text, and `i`. */
  datatype Job = Job(fileId: ObjectId, text: string, i: nat)

  /** A request the page sent. */
  datatype Request =
    | QueryRequest(question: string, fileId: ObjectId)
    | FallbackRequest(question: string, fileId: ObjectId)
    | DeleteRequest(fileId: ObjectId)
    | HistoryRequest(fileId: ObjectId)

  /** The parts of the `/query` reply the page reads; an absent `found` is false and an
      absent `answer` is "". */
  datatype QueryData = QueryData(found: bool, answer: string)

  const NotFoundText := "\U{274C} Answer not found in document."

  function UserBubble(q: string): Message {
    Message(User, q, None, None, None)
  }

  function NotFoundBubble(q: string): Message {
    Message(Ai, NotFoundText, Some(false), Some(q), Some(false))
  }

  const Placeholder := Message(Ai, "", Some(true), None, None)

  /** `{ role, text: content, isFound }` for one record of `GET /chat/:fileId`. */
  function FromHistory(item: HistoryItem): Message {
    Message(item.role, item.content, Some(item.isFound), None, None)
  }

  function Formatted(items: seq<HistoryItem>): (r: seq<Message>)
    ensures |r| == |items|
    ensures forall i :: 0 <= i < |r| ==>
      r[i].role == items[i].role && r[i].text == items[i].content && r[i].isFound == Some(items[i].isFound)
  {
    seq(|items|, i requires 0 <= i < |items| => FromHistory(items[i]))
  }

  /** `prev[fileId] || []`. */
  function Entry(m: map<ObjectId, seq<Message>>, id: ObjectId): seq<Message> {
    if id in m then m[id] else []
  }

  /** `msgs[msgs.length - 1].text = t`. */
  function SetLastText(msgs: seq<Message>, t: string): (r: seq<Message>)
    requires msgs != []
    ensures |r| == |msgs| && r[..|r| - 1] == msgs[..|msgs| - 1]
    ensures r[|r| - 1] == msgs[|msgs| - 1].(text := t)
  {
    msgs[|msgs| - 1 := msgs[|msgs| - 1].(text := t)]
  }

  lemma SetLastTextTwice(msgs: seq<Message>, a: string, b: string)
    requires msgs != []
    ensures SetLastText(SetLastText(msgs, a), b) == SetLastText(msgs, b)
  {
  }

  function OtherThan(id: ObjectId): FileEntry -> bool {
    (f: FileEntry) => f.id != id
  }

  /** `prev.filter((f) => f._id !== id)`. */
  function FilesWithoutEntry(files: seq<FileEntry>, id: ObjectId): (r: seq<FileEntry>)
    ensures forall i :: 0 <= i < |r| ==> r[i] in files && r[i].id != id
    ensures forall i :: 0 <= i < |files| && files[i].id != id ==> files[i] in r
  {
    Filter(files, OtherThan(id))
  }

  /** Removing an id that is not listed changes nothing. */
  lemma RemoveAbsentEntry(files: seq<FileEntry>, id: ObjectId)
    requires forall i :: 0 <= i < |files| ==> files[i].id != id
    ensures FilesWithoutEntry(files, id) == files
  {
    FilterAll(files, OtherThan(id));
  }

  class Home {
    var files: seq<FileEntry>
    var chatMap: map<ObjectId, seq<Message>>
    var selectedFile: Option<FileEntry>
    var fileToDelete: Option<FileEntry>
    var question: string
    var loading: bool
    var showAskAI: bool
    var noChatMsg: bool
    /** The message of the notification shown last. */
    var notification: Option<string>
    /** The typewriter intervals still running, in the order they were started. */
    var jobs: seq<Job>
    /** The requests sent so far. */
    var sent: seq<Request>

    /** Every running interval still has a character to type. */
    ghost predicate Valid()
      reads this
    {
      forall k :: 0 <= k < |jobs| ==> jobs[k].i < |jobs[k].text|
    }

    /** At most one interval runs, and only while `loading` holds, so no handler adds a
        message while an answer is being typed. */
    ghost predicate Serial()
      reads this
    {
      |jobs| <= 1 && (jobs != [] ==> loading)
    }

    constructor ()
      ensures Valid() && Serial()
      ensures files == [] && chatMap == map[] && selectedFile.None? && fileToDelete.None?
      ensures question == "" && !loading && !showAskAI && !noChatMsg && notification.None?
      ensures jobs == [] && sent == []
    {
      files, chatMap, selectedFile, fileToDelete := [], map[], None, None;
      question, loading, showAskAI, noChatMsg := "", false, false, false;
      notification, jobs, sent := None, [], [];
    }

    /** The input box's `onChange`. */
    method SetQuestion(q: string)
      modifies this
      ensures question == q
      ensures files == old(files) && chatMap == old(chatMap) && selectedFile == old(selectedFile)
      ensures fileToDelete == old(fileToDelete) && loading == old(loading) && showAskAI == old(showAskAI)
      ensures noChatMsg == old(noChatMsg) && notification == old(notification)
      ensures jobs == old(jobs) && sent == old(sent)
    {
      question := q;
    }

    /** The delete icon's `onClick`. */
    method SetFileToDelete(f: FileEntry)
      modifies this
      ensures fileToDelete == Some(f)
      ensures files == old(files) && chatMap == old(chatMap) && selectedFile == old(selectedFile)
      ensures question == old(question) && loading == old(loading) && showAskAI == old(showAskAI)
      ensures noChatMsg == old(noChatMsg) && notification == old(notification)
      ensures jobs == old(jobs) && sent == old(sent)
    {
      fileToDelete := Some(f);
    }

    /** `handleDeleteFile`; `body` is the `message` of the parsed reply ("" when absent),
        `None` when the request or the parse threw. */
    method HandleDeleteFile(body: Option<string>)
      modifies this
      ensures old(fileToDelete).None? ==>
        files == old(files) && selectedFile == old(selectedFile) && fileToDelete.None?
        && notification == old(notification) && sent == old(sent)
      ensures old(fileToDelete).Some? ==> sent == old(sent) + [DeleteRequest(old(fileToDelete).value.id)]
      ensures old(fileToDelete).Some? && body.Some? ==>
        var id := old(fileToDelete).value.id;
        && files == FilesWithoutEntry(old(files), id)
        && selectedFile == (if old(selectedFile).Some? && old(selectedFile).value.id == id then None else old(selectedFile))
        && fileToDelete.None?
        && notification == Some(if body.value != "" then body.value else "File deleted")
      ensures old(fileToDelete).Some? && body.None? ==>
        files == old(files) && selectedFile == old(selectedFile) && fileToDelete == old(fileToDelete)
        && notification == Some("Failed to delete file")
      ensures chatMap == old(chatMap) && question == old(question) && loading == old(loading)
      ensures showAskAI == old(showAskAI) && noChatMsg == old(noChatMsg) && jobs == old(jobs)
    {
      if fileToDelete.None? {
        return;
      }
      var target := fileToDelete.value;
      sent := sent + [DeleteRequest(target.id)];
      if body.None? {
        notification := Some("Failed to delete file");
        return;
      }
      files := FilesWithoutEntry(files, target.id);
      if selectedFile.Some? && selectedFile.value.id == target.id {
        selectedFile := None;
      }
      fileToDelete := None;
      notification := Some(if body.value != "" then body.value else "File deleted");
    }

    /** `fetchChatsForFile(file, force)`; `fetched` is the body of `GET /chat/:fileId`,
        `None` when the request, the parse or `data.map` threw, which leaves the handler
        after the file was selected. */
    method FetchChatsForFile(file: FileEntry, force: bool, fetched: Option<seq<HistoryItem>>)
      modifies this
      ensures selectedFile == Some(file)
      ensures !force && file.id in old(chatMap) ==>
        chatMap == old(chatMap) && sent == old(sent) && noChatMsg == (|old(chatMap)[file.id]| == 0)
      ensures force || file.id !in old(chatMap) ==> sent == old(sent) + [HistoryRequest(file.id)]
      ensures (force || file.id !in old(chatMap)) && fetched.Some? ==>
        chatMap == old(chatMap)[file.id := Formatted(fetched.value)] && noChatMsg == (|fetched.value| == 0)
      ensures (force || file.id !in old(chatMap)) && fetched.None? ==>
        chatMap == old(chatMap) && noChatMsg == old(noChatMsg)
      ensures files == old(files) && fileToDelete == old(fileToDelete) && question == old(question)
      ensures loading == old(loading) && showAskAI == old(showAskAI) && notification == old(notification)
      ensures jobs == old(jobs)
    {
      selectedFile := Some(file);
      if !force && file.id in chatMap {
        noChatMsg := |chatMap[file.id]| == 0;
        return;
      }
      sent := sent + [HistoryRequest(file.id)];
      if fetched.None? {
        return;
      }
      var formatted := Formatted(fetched.value);
      chatMap := chatMap[file.id := formatted];
      noChatMsg := |formatted| == 0;
    }

    /** `typeWriterEffect(fileId, text)` up to `setInterval`. */
    method StartTyping(fileId: ObjectId, text: string)
      requires Valid()
      modifies this
      ensures Valid()
      ensures text == "" ==> !loading && chatMap == old(chatMap) && jobs == old(jobs) && noChatMsg == old(noChatMsg)
      ensures text != "" ==>
        && chatMap == old(chatMap)[fileId := Entry(old(chatMap), fileId) + [Placeholder]]
        && jobs == old(jobs) + [Job(fileId, text, 0)]
        && loading == old(loading) && !noChatMsg
      ensures files == old(files) && selectedFile == old(selectedFile) && fileToDelete == old(fileToDelete)
      ensures question == old(question) && showAskAI == old(showAskAI) && notification == old(notification)
      ensures sent == old(sent)
    {
      if text == "" {
        loading := false;
        return;
      }
      noChatMsg := false;
      chatMap := chatMap[fileId := Entry(chatMap, fileId) + [Placeholder]];
      jobs := jobs + [Job(fileId, text, 0)];
    }

    /** One firing of a typewriter interval: it writes the first `i + 1` characters into
        the last message of its file, and stops (clearing `loading`) after the last one. */
    method Tick(k: nat)
      requires Valid() && k < |jobs|
      modifies this
      ensures Valid()
      ensures Serial() <== old(Serial())
      ensures var j := old(jobs[k]);
        && chatMap == (if j.fileId in old(chatMap) && old(chatMap)[j.fileId] != []
                       then old(chatMap)[j.fileId := SetLastText(old(chatMap)[j.fileId], j.text[..j.i + 1])]
                       else old(chatMap))
        && (j.i + 1 == |j.text| ==> jobs == old(jobs[..k] + jobs[k + 1..]) && !loading)
        && (j.i + 1 < |j.text| ==> jobs == old(jobs[k := j.(i := j.i + 1)]) && loading == old(loading))
      ensures files == old(files) && selectedFile == old(selectedFile) && fileToDelete == old(fileToDelete)
      ensures question == old(question) && showAskAI == old(showAskAI) && notification == old(notification)
      ensures noChatMsg == old(noChatMsg) && sent == old(sent)
    {
      var j := jobs[k];
      if j.fileId in chatMap && chatMap[j.fileId] != [] {
        chatMap := chatMap[j.fileId := SetLastText(chatMap[j.fileId], j.text[..j.i + 1])];
      }
      if j.i + 1 >= |j.text| {
        jobs := jobs[..k] + jobs[k + 1..];
        loading := false;
      } else {
        jobs := jobs[k := j.(i := j.i + 1)];
      }
    }

    /** `askQuestion` with the reply of `/query` (`None` when the request or the parse
        threw, which leaves the handler with the question sent and `loading` set). The
        answer is typed while `loading` stays set; `typeWriterEffect` clears it after the
        last character. */
    method AskQuestion(reply: Option<QueryData>)
      requires Valid() && Serial()
      modifies this
      ensures Valid() && Serial()
      ensures old(question) == "" || old(selectedFile).None? || old(loading) ==>
        chatMap == old(chatMap) && question == old(question) && loading == old(loading)
        && jobs == old(jobs) && sent == old(sent) && showAskAI == old(showAskAI) && noChatMsg == old(noChatMsg)
      ensures old(question) != "" && old(selectedFile).Some? && !old(loading) ==>
        var q, id := old(question), old(selectedFile).value.id;
        var before := Entry(old(chatMap), id) + [UserBubble(q)];
        && question == "" && !showAskAI && sent == old(sent) + [QueryRequest(q, id)]
        && (reply.None? ==>
              chatMap == old(chatMap)[id := before] && loading && jobs == old(jobs) && noChatMsg == old(noChatMsg))
        && (reply.Some? && !reply.value.found ==>
              chatMap == old(chatMap)[id := before + [NotFoundBubble(q)]] && !loading && jobs == old(jobs)
              && noChatMsg == old(noChatMsg))
        && (reply.Some? && reply.value.found && reply.value.answer == "" ==>
              chatMap == old(chatMap)[id := before] && !loading && jobs == old(jobs) && noChatMsg == old(noChatMsg))
        && (reply.Some? && reply.value.found && reply.value.answer != "" ==>
              chatMap == old(chatMap)[id := before + [Placeholder]] && loading
              && jobs == old(jobs) + [Job(id, reply.value.answer, 0)] && !noChatMsg)
      ensures files == old(files) && selectedFile == old(selectedFile) && fileToDelete == old(fileToDelete)
      ensures notification == old(notification)
    {
      if question == "" || selectedFile.None? || loading {
        return;
      }
      var fileId := selectedFile.value.id;
      var q := question;
      question := "";
      loading := true;
      showAskAI := false;
      chatMap := chatMap[fileId := Entry(chatMap, fileId) + [UserBubble(q)]];
      sent := sent + [QueryRequest(q, fileId)];
      if reply.None? {
        return;
      }
      if !reply.value.found {
        chatMap := chatMap[fileId := Entry(chatMap, fileId) + [NotFoundBubble(q)]];
        loading := false;
        return;
      }
      StartTyping(fileId, reply.value.answer);
    }

    /** `askQuestion` as written: `loading` is cleared before the answer is typed. */
    method AskQuestionAsWritten(reply: Option<QueryData>)
      requires Valid()
      modifies this
      ensures Valid()
      ensures old(question) == "" || old(selectedFile).None? || old(loading) ==>
        chatMap == old(chatMap) && question == old(question) && loading == old(loading)
        && jobs == old(jobs) && sent == old(sent) && showAskAI == old(showAskAI) && noChatMsg == old(noChatMsg)
      ensures old(question) != "" && old(selectedFile).Some? && !old(loading) ==>
        var q, id := old(question), old(selectedFile).value.id;
        var before := Entry(old(chatMap), id) + [UserBubble(q)];
        && question == "" && !showAskAI && sent == old(sent) + [QueryRequest(q, id)]
        && (reply.None? ==>
              chatMap == old(chatMap)[id := before] && loading && jobs == old(jobs) && noChatMsg == old(noChatMsg))
        && (reply.Some? && !reply.value.found ==>
              chatMap == old(chatMap)[id := before + [NotFoundBubble(q)]] && !loading && jobs == old(jobs)
              && noChatMsg == old(noChatMsg))
        && (reply.Some? && reply.value.found && reply.value.answer == "" ==>
              chatMap == old(chatMap)[id := before] && !loading && jobs == old(jobs) && noChatMsg == old(noChatMsg))
        && (reply.Some? && reply.value.found && reply.value.answer != "" ==>
              chatMap == old(chatMap)[id := before + [Placeholder]] && !loading
              && jobs == old(jobs) + [Job(id, reply.value.answer, 0)] && !noChatMsg)
      ensures files == old(files) && selectedFile == old(selectedFile) && fileToDelete == old(fileToDelete)
      ensures notification == old(notification)
    {
      if question == "" || selectedFile.None? || loading {
        return;
      }
      var fileId := selectedFile.value.id;
      var q := question;
      question := "";
      loading := true;
      showAskAI := false;
      chatMap := chatMap[fileId := Entry(chatMap, fileId) + [UserBubble(q)]];
      sent := sent + [QueryRequest(q, fileId)];
      if reply.None? {
        return;
      }
      if !reply.value.found {
        chatMap := chatMap[fileId := Entry(chatMap, fileId) + [NotFoundBubble(q)]];
        loading := false;
        return;
      }
      loading := false;
      StartTyping(fileId, reply.value.answer);
    }

    /** `askGroqFallback(question)` with the `answer` of `/groq-fallback` ("" when absent,
        `None` when the request or the parse threw). With no file selected, reading
        `selectedFile._id` throws after `loading` was set; either throw leaves it set. */
    method AskGroqFallback(q: string, answer: Option<string>)
      requires Valid() && Serial()
      modifies this
      ensures Valid() && Serial()
      ensures q == "" || old(loading) ==>
        chatMap == old(chatMap) && loading == old(loading) && jobs == old(jobs) && sent == old(sent)
        && noChatMsg == old(noChatMsg)
      ensures q != "" && !old(loading) && old(selectedFile).None? ==>
        loading && chatMap == old(chatMap) && jobs == old(jobs) && sent == old(sent) && noChatMsg == old(noChatMsg)
      ensures q != "" && !old(loading) && old(selectedFile).Some? ==>
        var id := old(selectedFile).value.id;
        && sent == old(sent) + [FallbackRequest(q, id)]
        && (answer.None? ==> loading && chatMap == old(chatMap) && jobs == old(jobs) && noChatMsg == old(noChatMsg))
        && (answer == Some("") ==> !loading && chatMap == old(chatMap) && jobs == old(jobs) && noChatMsg == old(noChatMsg))
        && (answer.Some? && answer.value != "" ==>
              loading && chatMap == old(chatMap)[id := Entry(old(chatMap), id) + [Placeholder]]
              && jobs == old(jobs) + [Job(id, answer.value, 0)] && !noChatMsg)
      ensures files == old(files) && selectedFile == old(selectedFile) && fileToDelete == old(fileToDelete)
      ensures question == old(question) && showAskAI == old(showAskAI) && notification == old(notification)
    {
      if q == "" || loading {
        return;
      }
      loading := true;
      if selectedFile.None? {
        return;
      }
      var fileId := selectedFile.value.id;
      sent := sent + [FallbackRequest(q, fileId)];
      if answer.None? {
        return;
      }
      StartTyping(fileId, answer.value);
    }

    /** The interval firing until it clears itself: the placeholder ends up holding the
        whole answer, one character per tick, and `loading` is cleared. */
    method TypeToEnd() returns (ticks: nat)
      requires Valid() && |jobs| == 1
      requires jobs[0].i == 0 && jobs[0].fileId in chatMap && chatMap[jobs[0].fileId] != []
      modifies this
      ensures jobs == [] && !loading && ticks == |old(jobs[0].text)|
      ensures var id, msgs := old(jobs[0].fileId), old(chatMap[jobs[0].fileId]);
        chatMap == old(chatMap)[id := SetLastText(msgs, old(jobs[0].text))]
      ensures files == old(files) && selectedFile == old(selectedFile) && fileToDelete == old(fileToDelete)
      ensures question == old(question) && sent == old(sent)
    {
      ghost var id, text, msgs := jobs[0].fileId, jobs[0].text, chatMap[jobs[0].fileId];
      ghost var start := chatMap;
      ticks := 0;
      while jobs != []
        invariant Valid()
        invariant jobs != [] ==> |jobs| == 1 && jobs[0] == Job(id, text, ticks)
        invariant ticks <= |text|
        invariant jobs == [] ==> ticks == |text| && !loading
        invariant chatMap == (if ticks == 0 then start else start[id := SetLastText(msgs, text[..ticks])])
        invariant files == old(files) && selectedFile == old(selectedFile) && fileToDelete == old(fileToDelete)
        invariant question == old(question) && sent == old(sent)
        decreases |text| - ticks
      {
        if ticks > 0 {
          SetLastTextTwice(msgs, text[..ticks], text[..ticks + 1]);
        }
        Tick(0);
        ticks := ticks + 1;
      }
      assert text[..ticks] == text;
    }
  }

  /** Two questions about one file, the second asked while the first answer is still
      being typed (possible because `loading` is already clear): the next tick writes the
      first answer into the second question's reply, and the placeholder stays empty. */
  method AsWrittenOverwritesReply() returns (placeholder: Message, last: Message)
    ensures placeholder == Placeholder
    ensures last == Message(Ai, "O", Some(false), Some("Why?"), Some(false))
  {
    var h := new Home();
    var f := FileEntry(1, "notes.txt");
    h.FetchChatsForFile(f, false, Some([]));
    h.SetQuestion("What?");
    h.AskQuestionAsWritten(Some(QueryData(true, "OK")));
    h.SetQuestion("Why?");
    h.AskQuestionAsWritten(Some(QueryData(false, "")));
    h.Tick(0);
    var msgs := h.chatMap[1];
    assert |msgs| == 4;
    placeholder, last := msgs[1], msgs[3];
  }

  /** The same sequence with the corrected handler: the second question is refused while
      the first answer is typed, and the answer lands in its own bubble. */
  method CorrectedKeepsReply() returns (msgs: seq<Message>)
    ensures msgs == [UserBubble("What?"), Message(Ai, "OK", Some(true), None, None)]
  {
    var h := new Home();
    var f := FileEntry(1, "notes.txt");
    h.FetchChatsForFile(f, false, Some([]));
    h.SetQuestion("What?");
    h.AskQuestion(Some(QueryData(true, "OK")));
    h.SetQuestion("Why?");
    h.AskQuestion(Some(QueryData(false, "")));
    var ticks := h.TypeToEnd();
    msgs := h.chatMap[1];
  }
}
