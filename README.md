# DocQuery-AI in Dafny

DocQuery-AI lets a user upload documents and ask questions about them. The backend
(Express and MongoDB) turns each upload into text fragments with embeddings. It answers a
question from the fragments of the chosen file through retrieval-augmented generation. When
the document has nothing to say, it replies with a fixed sentinel. The user can then ask an
open-domain LLM instead. A React page keeps a per-file chat map and types answers out
character by character.

This project models the decision logic and the state changes of that core:

- the sliding-window chunker of `backend/rag.js`;
- the upload, query and history routes of `backend/routes/chat.js`;
- the open-domain fallback route;
- the cascading file delete and the signup/login rules of `backend/server.js`;
- the Chat schema;
- the bearer-token middleware;
- the signup form's password check;
- the state machine of the Home page.

The collections File, Chat, Document and User are sequences held by one `Store.Database`
object. The uploads folder is a set of paths. `createdAt` is a clock that advances with every
record, and ObjectIds come from a counter. Every external capability is a function parameter:

- the embedder, the retriever and the LLM;
- the file parsers and the text splitter;
- bcrypt and the JWT signer and verifier.

Modules:

- `Wrappers`: `Option` and `Result`.
- `Seqs`: the filter, limit and stable sort behind `find`, `deleteMany`, `limit` and `sort`.
- `Text`: `includes`, ASCII `toLowerCase`, `join` and one-character `split`.
- `Rag`: `backend/rag.js`.
- `ChatModel`: `backend/models/Chat.js`.
- `Store`: the collections and the Mongoose and filesystem primitives the routes call.
- `ChatRoutes`: `backend/routes/chat.js`.
- `GroqFallback`: `backend/routes/groq-fallback.js`.
- `Server`: `backend/server.js`.
- `Auth`: `backend/auth.js`.
- `SignupPage`: `frontend/src/pages/Signup.jsx`.
- `HomePage`: `frontend/src/pages/Home.jsx`.

Each route that changes the store is a method with `modifies db`. Its `ensures` ties the
new store, and the reply, to a pure function of the old store, such as `QueryTurn`,
`IngestFiles`, `Fallback` or `Register`. The lemmas about those functions state what the
source promises across calls.

## Model

| member | source | states |
|---|---|---|
| Rag.ChunkText | backend/rag.js:13-22 | the `while` loop yields exactly the windows of `size` characters that start at every multiple of `size - overlap` below `|text|` |
| Rag.Chunks | backend/rag.js:13-22 | `chunkText(text, size, overlap)` returns no chunk exactly when the text is empty |
| Rag.ChunkTextDefault | backend/rag.js:13 | with the default window of 500 and overlap of 100 the loop always ends; it returns no chunk exactly for empty text, and every chunk has between 1 and 500 characters |
| Rag.ChunkAt | backend/rag.js:18-19 | chunk `i` is `text[i*step .. min(i*step+size, |text|))` and its length is between 1 and `size` |
| Rag.ChunkCount | backend/rag.js:17-19 | the number of chunks is `ceil(|text| / (size - overlap))`; there are none exactly when the text is empty |
| Rag.EmptyTextNoChunks | backend/rag.js:17 | empty text yields no chunk, whatever `size` and `overlap` are |
| Rag.ChunkOverlap | backend/rag.js:18-19 | when chunk `i` has full length and chunk `i+1` exists, chunk `i+1` begins with the last `overlap` characters of chunk `i` |
| Rag.Reconstruct | backend/rag.js:17-21 | chunk 0, then each later chunk minus its first `min(overlap, |chunk|)` characters, concatenates back to the text |
| Rag.ExtractText | backend/rag.js:3-11 | a MIME type that does not contain "pdf" gives the empty text; one that does gives the parser's result |
| Rag.PdfMimeIsParsed | backend/rag.js:4 | "application/pdf" goes to the PDF parser |
| ChatModel.ParseRole | backend/models/Chat.js:11-15 | a role is accepted exactly when it is "user" or "ai", and it names the role it parses to |
| ChatModel.RoleNameRoundTrip | backend/models/Chat.js:11-15 | every role's name parses back to that role |
| ChatModel.Create | backend/models/Chat.js:3-20 | creation succeeds exactly when userId and content are non-empty, fileId is present and role is in the enum; an error names exactly the failing paths; `isFound` defaults to true; `createdAt` is the creation time; the other fields are the ones given |
| Store.ChatsWithout | backend/server.js:103 | `Chat.deleteMany({ fileId })` keeps exactly the chats of other files |
| Store.DocsWithout | backend/server.js:104 | `Document.deleteMany({ fileId })` keeps exactly the fragments of other files |
| Store.FilesWithout | backend/server.js:102 | `File.findByIdAndDelete(id)` keeps exactly the records with other ids, and distinct ids stay distinct |
| Store.FilterKeepsUniqueIds | backend/server.js:102 | dropping File records from a collection whose ids are distinct leaves them distinct |
| Store.FindFile | backend/server.js:88 | `File.findById` finds a record with that id, or there is none |
| Store.FindUser | backend/server.js:37 | `User.findOne({ email })` finds an account with that email, or there is none |
| Store.FindUserAppended | backend/server.js:37-46 | after an account is created for an unregistered email, looking that email up finds the new account |
| Store.Database.constructor | backend/server.js:16-22 | the store starts with no records and an empty uploads folder |
| Store.Database.CreateChat | backend/models/Chat.js:3-20 | `Chat.create` appends the record `Create` makes, or changes nothing on a validation error; the history stays in creation order |
| Store.Database.CreateFile | backend/routes/chat.js:51-56 | `File.create` appends a record with a fresh id, distinct from every stored id, when every required path is non-empty, and otherwise changes nothing |
| Store.Database.CreateDocument | backend/routes/chat.js:104-109 | `Document.create` appends the fragment exactly when userId and chunkText are non-empty |
| Store.Database.CreateUser | backend/server.js:43-46 | `User.create` appends one account with a fresh id and keeps emails unique |
| Store.Database.StoreBlobs | backend/routes/chat.js:40 | the files multer stored are added to the uploads folder and nothing else changes |
| Store.Database.Unlink | backend/server.js:97-98 | `unlinkSync` removes one path from the uploads folder and nothing else |
| Store.Database.DeleteFileById | backend/server.js:102 | the File collection becomes `FilesWithout(id)` and nothing else changes |
| Store.Database.DeleteChatsOf | backend/server.js:103 | the Chat collection becomes `ChatsWithout(id)` and keeps its creation order |
| Store.Database.DeleteDocsOf | backend/server.js:104 | the Document collection becomes `DocsWithout(id)` and nothing else changes |
| ChatRoutes.FormatOf | backend/routes/chat.js:65-90 | an extension is dispatched to a parser exactly when it is one of .pdf .txt .json .csv .xlsx .docx |
| ChatRoutes.FormatRoundTrip | backend/routes/chat.js:65-85 | each accepted format's extension dispatches back to that format |
| ChatRoutes.ExtName | backend/routes/chat.js:61 | `path.extname` of the name is empty or a dot followed by characters that are neither dots nor slashes |
| ChatRoutes.Extension | backend/routes/chat.js:61 | the lowercased extension has the length of `path.extname`, is empty or starts with a dot, and holds no upper-case ASCII letter |
| ChatRoutes.ExtNameOfStem | backend/routes/chat.js:61 | `path.extname` of `stem.ext`, for a non-empty stem without dots or slashes and an extension without them, is `.ext` |
| ChatRoutes.DotFileHasNoExtension | backend/routes/chat.js:61 | a name that is a dot followed by a dotless word, such as ".txt", has an empty extension |
| ChatRoutes.UpperCasePdfAccepted | backend/routes/chat.js:61-65 | "REPORT.PDF" is accepted as a PDF because the extension is lowercased |
| ChatRoutes.IngestChunks | backend/routes/chat.js:101-110 | the embedding loop appends at most one fragment per chunk; it runs to completion, storing one per chunk, exactly when every chunk embeds and is non-empty |
| ChatRoutes.IngestFile | backend/routes/chat.js:51-110 | one upload never ends the request with "no files" or a 200; it lets the loop continue only when its extension dispatches to a parser |
| ChatRoutes.IngestFiles | backend/routes/chat.js:49-116 | the file loop never answers "no files" |
| ChatRoutes.IngestChunksShape | backend/routes/chat.js:101-110 | every Document created for a file carries that file's new id, the demo user and the chunk's text, in chunk order, after the existing fragments; a complete pass stores every chunk |
| ChatRoutes.IngestFileShape | backend/routes/chat.js:51-110 | one upload appends at most its own File record, only appends fragments, reports 400 exactly for present fields with an unsupported extension, and continues only when the extension is accepted; when it stores fragments, its File record is the one appended and every new fragment carries that record's id and the demo user |
| ChatRoutes.IngestFilesGrow | backend/routes/chat.js:49-111 | the File collection only grows, by one record per processed upload in upload order, and earlier records and fragments are never removed |
| ChatRoutes.IngestFileDocsOwned | backend/routes/chat.js:51-110 | every fragment one upload stores belongs to the demo user and to the File record that upload appended |
| ChatRoutes.IngestFilesDocsOwned | backend/routes/chat.js:49-111 | every fragment an upload request stores belongs to the demo user and to a File record created by the same request |
| ChatRoutes.IngestFilesReply | backend/routes/chat.js:49-116 | with at least one file the reply is never "no files"; a 200 reply counts every upload, each got its File record, and every one of them had an accepted extension |
| ChatRoutes.UnsupportedStopsUpload | backend/routes/chat.js:51-90 | an upload with an unsupported extension gets its File record and then ends the request with 400; the files after it are never processed |
| ChatRoutes.Candidates | backend/routes/chat.js:168-181 | the candidates are exactly the stored fragments at the positions the ranking names, positions past the collection ignored |
| ChatRoutes.StoreChunks | backend/routes/chat.js:101-110 | the embedding loop leaves the Document collection as `IngestChunks` computes it |
| ChatRoutes.StoreFile | backend/routes/chat.js:50-110 | one iteration of the file loop leaves the store as `IngestFile` computes it |
| ChatRoutes.Upload | backend/routes/chat.js:40-124 | no files gives 400 and no File or Document record; otherwise the store and reply are `IngestFiles` of the old store, and the stored files are in the uploads folder |
| ChatRoutes.Search | backend/routes/chat.js:168-181 | at most 5 results, every one a fragment of the requested file |
| ChatRoutes.SearchEmptyIff | backend/routes/chat.js:168-184 | for a ranking the retriever returned, the search finds nothing exactly when no fragment the ranking names belongs to the requested file |
| ChatRoutes.SearchAfterDelete | backend/routes/chat.js:168-181 | once a file's fragments are deleted, a search on that file finds nothing |
| Text.Join | backend/routes/chat.js:202 | joining no parts gives the empty string, and a join starts with its first part |
| Text.JoinHoldsParts | backend/routes/chat.js:200-202 | part `k` occurs in the join at the summed lengths of the earlier parts and separators |
| Text.JoinOffsetOrder | backend/routes/chat.js:200-202 | a later part starts after an earlier part and the separator that follows it |
| ChatRoutes.BuildContext | backend/routes/chat.js:200-202 | the context is empty exactly when there are no results |
| ChatRoutes.ContextHoldsEveryChunk | backend/routes/chat.js:200-202 | the context contains "Chunk k:\n" followed by the k-th result's text, for every result |
| ChatRoutes.ContextInResultOrder | backend/routes/chat.js:200-202 | the context lists the numbered results in their ranked order, each entry wholly before the next one |
| ChatRoutes.ContextOfOneHit | backend/routes/chat.js:200-202 | with one result, the context is "Chunk 1:\n" followed by its text |
| ChatRoutes.RagPrompt | backend/routes/chat.js:205-222 | the prompt starts with the fixed instructions and is exactly as long as they, the context, the question and the fixed separators together |
| ChatRoutes.PromptGrounded | backend/routes/chat.js:205-222 | the prompt quotes the context and the question at fixed offsets after the fixed instructions |
| ChatRoutes.IsFallback | backend/routes/chat.js:227-230 | an answer is classified as a fallback only if it is at least as long as the phrase searched for in its lowercased form |
| ChatRoutes.FallbackAnywhere | backend/routes/chat.js:227-230 | an answer that contains the fallback phrase, in any letter case, is not found |
| ChatRoutes.SentinelIsFallback | backend/routes/chat.js:185-230 | the sentinel stored when nothing is retrieved would itself be classified as not found |
| ChatRoutes.QueryTurn | backend/routes/chat.js:140-254 | 400 and nothing stored exactly when the question or fileId is missing; otherwise the user record, with `isFound` defaulted, comes first; a reply is given exactly when an AI record is stored as well, and that record holds the answer with `isFound = found`, where found means the lowercased answer lacks the fallback phrase; a found reply echoes the question; a prompt is sent only with results, and it is built from them |
| ChatRoutes.AnswerTurn | backend/routes/chat.js:184-246 | after the search, the LLM is sent the prompt built from the results exactly when there are results; a non-empty LLM answer is the reply, with the question echoed and `found` meaning the answer lacks the fallback phrase, and it is the one AI record stored, with `isFound = found`; no reply without exactly one stored record |
| ChatRoutes.QueryFails | backend/routes/chat.js:165-253 | a valid query fails with 500 exactly when retrieval throws, or when there are results and the LLM throws or answers with the empty string; then only the user record is stored |
| ChatRoutes.QueryAnswersFromLlm | backend/routes/chat.js:199-246 | when the search finds fragments, the LLM is sent the grounded prompt, and a non-empty answer from it is the reply, with the question echoed whether found or not, and is stored after the user record |
| ChatRoutes.QueryRecordsStamped | backend/routes/chat.js:157-239 | every record a query stores belongs to the demo user and the file, and they are stamped one after another |
| ChatRoutes.NoHitsNoLlm | backend/routes/chat.js:184-197 | with no results the LLM is not consulted, and the turn stores the sentinel with `isFound=false` and replies not found |
| ChatRoutes.QueryAfterDelete | backend/routes/chat.js:168-197 | after a file's fragments are deleted, every question about it whose retrieval succeeds gets the sentinel |
| ChatRoutes.PromptQuotesOnlyTheFile | backend/routes/chat.js:168-222 | every fragment quoted in the prompt belongs to the requested file |
| ChatRoutes.Query | backend/routes/chat.js:140-254 | the handler appends exactly the records of `QueryTurn` of the old store, replies as it does, sends at most its prompt, and changes nothing else |
| ChatRoutes.AnswerQuery | backend/routes/chat.js:184-246 | the handler from the empty-results test on stores exactly the records of `AnswerTurn` and changes nothing else |
| ChatRoutes.HistoryRecords | backend/routes/chat.js:264-265 | the history holds exactly the demo user's chats of that file, each once, in ascending `createdAt` |
| ChatRoutes.History | backend/routes/chat.js:264-266 | one item per selected record, in the same order, carrying exactly that record's role, content and isFound |
| ChatRoutes.HistoryInCreationOrder | backend/routes/chat.js:264-265 | on a store whose chats are in creation order, the history is that file's chats in store order |
| ChatRoutes.HistoryAfterAppend | backend/routes/chat.js:264-265 | records of the demo user for one file, created after every stored chat, extend that file's history at its end |
| ChatRoutes.HistoryAfterQuery | backend/routes/chat.js:157-239 | after a query, the file's history is the old history followed by the records the query stored |
| ChatRoutes.HistoryAfterDelete | backend/server.js:103 | after a file's chats are deleted, its history is empty |
| ChatRoutes.HistoryOfOtherFile | backend/server.js:103 | deleting one file's chats leaves every other file's history as it was |
| GroqFallback.FallbackPromptQuotesQuestion | backend/routes/groq-fallback.js:28-39 | the prompt contains the question |
| GroqFallback.FallbackPrompt | backend/routes/groq-fallback.js:28-39 | the open-domain prompt starts with the fixed instructions |
| GroqFallback.Fallback | backend/routes/groq-fallback.js:15-71 | 400 with `saved=false`, the LLM not consulted and nothing stored, exactly when a field is missing; an LLM failure gives 500 and the error answer; an empty answer gives "No response from AI." and stores nothing; otherwise exactly one AI record with `isFound=true` and that answer, and never the question |
| GroqFallback.HistoryAfterFallback | backend/routes/groq-fallback.js:52-58 | after the fallback, the file's history is the old one plus at most the one AI record |
| GroqFallback.GroqFallback | backend/routes/groq-fallback.js:15-71 | the handler appends exactly the records of `Fallback`, replies as it does, and changes nothing else |
| Server.BlobsAfterUnlink | backend/server.js:95-99 | the file's path is removed when it is set and present, and otherwise the folder is unchanged |
| Server.DeleteFile | backend/server.js:83-111 | 404 exactly when no File has the id, and then nothing changes; otherwise the File record, the blob and every Chat and Document of that file are gone and nothing else changes |
| Server.DeleteIdempotent | backend/server.js:88-104 | after a delete no File has the id, so a second delete is a 404, and removing that file's chats and fragments again changes nothing |
| Server.DeleteKeepsOtherFiles | backend/server.js:102-104 | every record of another file survives a delete |
| Server.UnlinkMissingIsNoOp | backend/server.js:97-99 | removing a path that is not in the folder changes nothing |
| Server.Register | backend/server.js:30-53 | a missing field gives 400 before the lookup; an existing email gives "User already exists"; both leave the accounts as they were; otherwise exactly one account with the email and the password's hash is appended, with 201, and emails stay unique |
| Server.Signup | backend/server.js:30-53 | the handler leaves the accounts and the reply as `Register` computes them |
| Server.Login | backend/server.js:56-81 | missing fields give 400; an unknown email and a wrong password both give 401 "Invalid credentials"; only a match yields the token signed over the account's id and email |
| Server.SignupThenLogin | backend/server.js:41-76 | after a successful signup, logging in with the same password yields a token for the new account |
| Server.SignupTwice | backend/server.js:37-39 | a second signup with the same email is refused and changes nothing |
| Auth.BearerToken | backend/auth.js:12-15 | `header.split(" ")[1]`: the token, when there is one, is non-empty and contains no space |
| Auth.BearerTokenOf | backend/auth.js:12 | "scheme token rest" yields `token` for any scheme without a space, "Bearer" included |
| Auth.MalformedHeaders | backend/auth.js:12-15 | "Bearer" and "Bearer  x" (two spaces) carry no token |
| Text.Split | backend/auth.js:12 | `split(" ")` yields at least one piece and at most one more than the header has characters |
| Text.SplitJoin | backend/auth.js:12 | joining the pieces with the separator gives the input back, and no piece contains the separator |
| Auth.Authenticate | backend/auth.js:3-27 | no header gives "No token provided", no token gives "Invalid token format", a failed verification gives "Unauthorized"; only a verified token authorizes, with the token's id |
| Auth.SignedTokenAuthenticates | backend/auth.js:12-22 | a "Bearer <token>" header whose token verifies authorizes that token's id |
| Auth.Exchange.Run | backend/auth.js:3-27 | the middleware sets `req.user` to `{ id }` and calls `next` once exactly when `Authenticate` authorizes; otherwise it sends 401 with the message and does not call `next` |
| SignupPage.RegexIsStrongPassword | frontend/src/pages/Signup.jsx:16 | the regex accepts a password exactly when it has at least 8 UTF-16 code units, an A-Z letter and a digit, and no line terminator |
| SignupPage.RegexAccepts | frontend/src/pages/Signup.jsx:16 | the regex accepts only passwords of at least four characters |
| SignupPage.IsStrongPassword | frontend/src/pages/Signup.jsx:16 | a strong password has at least four characters, since each counts as at most two code units |
| SignupPage.Utf16Length | frontend/src/pages/Signup.jsx:16 | the length in UTF-16 code units lies between the number of characters and twice that number |
| SignupPage.AstralCharactersCountTwice | frontend/src/pages/Signup.jsx:16 | six characters, three of them outside the Basic Multilingual Plane, already make a strong password |
| SignupPage.StrongExample | frontend/src/pages/Signup.jsx:16 | "Password1" is strong |
| SignupPage.LowerCaseIsWeak | frontend/src/pages/Signup.jsx:16 | a password without an upper-case letter is weak |
| SignupPage.ShortIsWeak | frontend/src/pages/Signup.jsx:16 | a password of fewer than 8 units is weak |
| SignupPage.NewlineIsWeak | frontend/src/pages/Signup.jsx:16 | a password containing a newline is weak |
| SignupPage.FormError | frontend/src/pages/Signup.jsx:21-31 | a mismatch reports "Passwords do not match" whatever the strength; a matching weak password reports the strength message; only a strong, matching password passes |
| SignupPage.SignupForm.constructor | frontend/src/pages/Signup.jsx:6-12 | the form starts empty, with no message and nothing sent |
| SignupPage.SignupForm.Submit | frontend/src/pages/Signup.jsx:18-41 | a failing check sets the danger message and sends nothing; otherwise it sets `loading`, clears the message and sends one signup request |
| SignupPage.SignupForm.Settle | frontend/src/pages/Signup.jsx:43-58 | 2xx gives the success message and the redirect; an error body's message or "Signup failed" otherwise; a network failure gives "Server error. Try again."; `loading` is cleared |
| HomePage.Formatted | frontend/src/pages/Home.jsx:137-141 | one bubble per history item, carrying its role, content and isFound |
| HomePage.SetLastText | frontend/src/pages/Home.jsx:210-211 | only the last message's text changes |
| HomePage.FilesWithoutEntry | frontend/src/pages/Home.jsx:86 | the file list keeps exactly the entries with other ids |
| HomePage.RemoveAbsentEntry | frontend/src/pages/Home.jsx:86 | removing an id that is not listed leaves the list as it was |
| HomePage.Home.constructor | frontend/src/pages/Home.jsx:15-31 | the page starts with no files, no chats, no selection and not loading |
| HomePage.Home.SetQuestion | frontend/src/pages/Home.jsx:479 | only the question changes |
| HomePage.Home.SetFileToDelete | frontend/src/pages/Home.jsx:366-369 | only the file to delete changes |
| HomePage.Home.HandleDeleteFile | frontend/src/pages/Home.jsx:73-98 | nothing happens without a file to delete; once the reply parses, exactly that id leaves the list, the selection is cleared when it was that file, the file to delete is cleared, and the reply's message is shown; a reply that does not parse only gives the failure notification |
| HomePage.Home.FetchChatsForFile | frontend/src/pages/Home.jsx:123-149 | the file is selected; a cached entry without `force` sends nothing and changes no chat; otherwise the history request is sent and only that file's entry is replaced by the formatted history; when the request or parse throws, no chat entry and no `noChatMsg` changes |
| HomePage.Home.StartTyping | frontend/src/pages/Home.jsx:191-206 | empty text only clears `loading`; otherwise one empty AI bubble with `isFound=true` is appended and an interval starts |
| HomePage.Home.Tick | frontend/src/pages/Home.jsx:208-220 | tick `i` sets the last message of the job's file to `text[0..i+1]`; after the last character the interval stops and `loading` is cleared |
| HomePage.Home.AskQuestion | frontend/src/pages/Home.jsx:247-294 | corrected handler: no-op with an empty question, no selection or `loading`; otherwise the question is cleared and its bubble appended to that file only; not found appends the not-found bubble and clears `loading`; an answer starts the typewriter with `loading` kept set, so at most one answer is typed at a time; a failed request leaves the question's bubble, the cleared input and `loading` set |
| HomePage.Home.AskQuestionAsWritten | frontend/src/pages/Home.jsx:247-294 | the handler as written: the same steps, including the failed request that leaves `loading` set, but `loading` is cleared before the typewriter starts |
| HomePage.Home.AskGroqFallback | frontend/src/pages/Home.jsx:223-244 | no-op with an empty question or `loading`; otherwise sets `loading`, sends the fallback request for the selected file and types the answer; an empty answer clears `loading`; a failed request leaves `loading` set and the chats unchanged |
| HomePage.Home.TypeToEnd | frontend/src/pages/Home.jsx:208-220 | `|text|` ticks type the whole text into the last message and clear `loading` |
| HomePage.AsWrittenOverwritesReply | frontend/src/pages/Home.jsx:208-291 | with the handler as written, a second question asked while the first answer is typed has its not-found bubble overwritten by the answer's first character, and the answer's bubble stays empty |
| HomePage.CorrectedKeepsReply | frontend/src/pages/Home.jsx:208-293 | with the corrected handler, the same sequence of events leaves the question's bubble and the full answer |

## Left out

- HTTP framing, JSON bodies and status codes are reply datatypes; Express middleware order, CORS and the rate limiter are not modelled.
- `new mongoose.Types.ObjectId(fileId)` (backend/routes/chat.js:144) is a foreign constructor that can throw before validation; ids are already numbers here.
- MongoDB queries, `fs.unlinkSync`, bcrypt and `jwt.sign` never throw here, apart from the schema validation errors of the modelled `create` calls, and a URL id that is not an ObjectId cannot be written, since ids are numbers. So the 500 replies of the `catch` branches "Delete failed" (backend/server.js:107-110), "Signup failed" (backend/server.js:49-52), "Login failed" (backend/server.js:77-80) and "Failed to load chat" (backend/routes/chat.js:269-274) are not modelled. Besides those validation errors, only the retriever, the embedder, the parsers and the LLM can fail.
- The retriever is an oracle that returns candidate fragment positions. `$vectorSearch` similarity ranking and `numCandidates` are not modelled, only the file filter and the limit of 5.
- The embedder, the Groq LLM, the file parsers, `RecursiveCharacterTextSplitter`, bcrypt (with its random salt) and `jsonwebtoken` are function parameters. Their internals and `expiresIn` are not modelled.
- Whether an embedding is a valid array of numbers is not checked; the Document schema is modelled only by its required strings.
- Multer runs before the handler, so the uploaded files are put into the uploads folder first. Its limit of 10 files, its naming of stored files and disk errors are not modelled.
- `GET /files` (backend/routes/chat.js:127-137), the page's `fetchFiles`, the XHR upload with its progress bar and the notification timers are not modelled.
- `toLowerCase` is modelled on ASCII letters only; Unicode case mapping is not.
- `Date.now` and Mongoose timestamps are a clock that advances by one per record.
- Concurrency is not modelled. Each request handler, each page handler after its `fetch` reply and each interval tick is one atomic step. Requests cannot interleave inside a handler.
- backend/models/User.js is not part of this model; an account is its email and hashed password.
- Rag.ChunkText: requires `size > overlap` whenever the text is non-empty. The source has no such guard and loops forever otherwise, which a terminating method cannot express.
- Rag.ChunkText: lengths and slices count characters (Unicode scalar values), while JavaScript's `length` and `slice` count UTF-16 code units; text outside the Basic Multilingual Plane is chunked differently, and a window can split a surrogate pair in the source but not here. Rag.Chunks and Rag.ChunkTextDefault share this.
- HomePage.Home.Tick: `text.slice(0, i + 1)` and `text.length` count UTF-16 code units in the source and characters here, so an answer holding characters outside the Basic Multilingual Plane takes more ticks in the source, with half characters shown in between.
- HomePage.Home.TypeToEnd: the number of ticks is the number of characters, not of UTF-16 code units, for the same reason.
- HomePage.Home.Tick: a tick whose file has no chat entry, or an empty one, writes nothing. The source would throw inside the state updater there.
- The `askedAI` flag of a not-found bubble is set to false by the page and never changed by any handler modelled here.
- HomePage.Home.AskGroqFallback: with no file selected, it sets `loading` and stops. The source throws while reading the id and leaves `loading` set.
- SignupPage.SignupForm.Settle: the 1.2 s redirect timer is recorded as a flag; navigation itself is not modelled.
- Rendering, the JSX layout and the other pages and components are not modelled.

## Findings

| source | as written | input that shows it | evidently intended | confidence | as-written member | corrected member |
|---|---|---|---|---|---|---|
| frontend/src/pages/Home.jsx:211,291 | `askQuestion` clears `loading` before `typeWriterEffect` starts, so another question can be asked while an answer is still being typed; each tick writes into whatever message is currently last | select file 1 with an empty history; ask "What?", whose reply is found with answer "OK"; before any tick, ask "Why?", whose reply is not found; the next tick writes "O" into the not-found bubble of "Why?", and the answer's own bubble stays empty | one answer typed at a time, with `loading` held until the typewriter finishes, so that every tick writes into the answer's own bubble | not executed | HomePage.Home.AskQuestionAsWritten, HomePage.AsWrittenOverwritesReply | HomePage.Home.AskQuestion, HomePage.Home.TypeToEnd, HomePage.CorrectedKeepsReply |
