/** backend/server.js: `DELETE /files/:id` (the cascade over the uploads folder and the
    File, Chat and Document collections), `/signup` and `/login`. */
module Server {
  import opened Wrappers
  import opened Seqs
  import opened ChatModel
  import opened Store

  /* ---------------- cascade delete ---------------- */

  datatype DeleteReply =
    | FileNotFound  // 404 "File not found"
    | FileDeleted   // 200 "File, chats, and uploads deleted successfully"

  /** What the uploads folder holds after removing `path`, when it is set and exists. */
  function BlobsAfterUnlink(blobs: set<string>, path: string): (r: set<string>)
    ensures path !in r || path == ""
    ensures forall p :: p in r <==> p in blobs && (p != path || path == "")
  {
    if path != "" && path in blobs then blobs - {path} else blobs
  }

  /** `DELETE /files/:id`: the physical file, then the File record, then its chat
      history, then its indexed fragments. */
  method DeleteFile(db: Database, id: ObjectId) returns (reply: DeleteReply)
    requires db.Valid()
    modifies db
    ensures db.Valid()
    ensures reply == FileNotFound <==> FindFile(old(db.files), id).None?
    ensures reply == FileNotFound ==>
      db.files == old(db.files) && db.chats == old(db.chats) && db.docs == old(db.docs)
      && db.blobs == old(db.blobs)
    ensures reply == FileDeleted ==>
      && db.files == FilesWithout(old(db.files), id)
      && db.chats == ChatsWithout(old(db.chats), id)
      && db.docs == DocsWithout(old(db.docs), id)
      && db.blobs == BlobsAfterUnlink(old(db.blobs), FindFile(old(db.files), id).value.filePath)
    ensures db.users == old(db.users) && db.clock == old(db.clock) && db.nextId == old(db.nextId)
  {
    var file := FindFile(db.files, id);
    if file.None? {
      return FileNotFound;
    }
    var path := file.value.filePath;
    if path != "" && path in db.blobs {
      db.Unlink(path);
    }
    db.DeleteFileById(id);
    db.DeleteChatsOf(id);
    db.DeleteDocsOf(id);
    reply := FileDeleted;
  }

  /** After a delete nothing carries the id any more, so a second delete of the same id
      is a 404 and the cascade removes nothing further. */
  lemma DeleteIdempotent(files: seq<FileRecord>, chats: seq<Chat>, docs: seq<DocRecord>, id: ObjectId)
    ensures FindFile(FilesWithout(files, id), id).None?
    ensures ChatsWithout(ChatsWithout(chats, id), id) == ChatsWithout(chats, id)
    ensures DocsWithout(DocsWithout(docs, id), id) == DocsWithout(docs, id)
  {
    FilterNarrow(chats, ChatNotOf(id), ChatNotOf(id));
    FilterNarrow(docs, DocNotOf(id), DocNotOf(id));
  }

  function DocOf(fileId: ObjectId): DocRecord -> bool {
    (d: DocRecord) => d.fileId == fileId
  }

  function ChatOf(fileId: ObjectId): Chat -> bool {
    (c: Chat) => c.fileId == fileId
  }

  /** Deleting one file keeps every other file's fragments and chats, in their order. */
  lemma DeleteKeepsOtherFiles(chats: seq<Chat>, docs: seq<DocRecord>, deleted: ObjectId, other: ObjectId)
    requires deleted != other
    ensures Filter(DocsWithout(docs, deleted), DocOf(other)) == Filter(docs, DocOf(other))
    ensures Filter(ChatsWithout(chats, deleted), ChatOf(other)) == Filter(chats, ChatOf(other))
  {
    FilterNarrow(docs, DocNotOf(deleted), DocOf(other));
    FilterNarrow(chats, ChatNotOf(deleted), ChatOf(other));
  }

  /** An unset path, or one already gone from the folder, makes unlinking a no-op. */
  lemma UnlinkMissingIsNoOp(blobs: set<string>, path: string)
    requires path == "" || path !in blobs
    ensures BlobsAfterUnlink(blobs, path) == blobs
  {
  }

  /* ---------------- signup and login ---------------- */

  datatype SignupReply = SignupReply(status: nat, message: string)

  const FieldsRequired := "All fields required"
  const UserExists := "User already exists"
  const InvalidCredentials := "Invalid credentials"

  /** `/signup` on the User collection: the reply and the new collection, with `id` the
      ObjectId the new account would get and `hash` standing for `bcrypt.hash(_, 10)`. */
  function Register(users: seq<UserRecord>, id: ObjectId, email: string, password: string,
                    hash: string -> string): (r: (SignupReply, seq<UserRecord>))
    ensures email == "" || password == "" ==> r == (SignupReply(400, FieldsRequired), users)
    ensures email != "" && password != "" && FindUser(users, email).Some? ==>
      r == (SignupReply(400, UserExists), users)
    ensures r.0.status == 201 <==> email != "" && password != "" && FindUser(users, email).None?
    ensures r.0.status == 201 ==>
      r.0.message == "Signup successful" && r.1 == users + [UserRecord(id, email, hash(password))]
    ensures UniqueEmails(users) ==> UniqueEmails(r.1)
  {
    if email == "" || password == "" then (SignupReply(400, FieldsRequired), users)
    else if FindUser(users, email).Some? then (SignupReply(400, UserExists), users)
    else (SignupReply(201, "Signup successful"), users + [UserRecord(id, email, hash(password))])
  }

  /** `POST /signup`. */
  method Signup(db: Database, email: string, password: string, hash: string -> string)
    returns (reply: SignupReply)
    requires db.Valid()
    modifies db
    ensures db.Valid()
    ensures (reply, db.users) == Register(old(db.users), old(db.nextId), email, password, hash)
    ensures db.nextId == old(db.nextId) + (if reply.status == 201 then 1 else 0)
    ensures db.files == old(db.files) && db.chats == old(db.chats) && db.docs == old(db.docs)
    ensures db.blobs == old(db.blobs) && db.clock == old(db.clock)
  {
    if email == "" || password == "" {
      return SignupReply(400, FieldsRequired);
    }
    var existing := FindUser(db.users, email);
    if existing.Some? {
      return SignupReply(400, UserExists);
    }
    var hashed := hash(password);
    var u := db.CreateUser(email, hashed);
    reply := SignupReply(201, "Signup successful");
  }

  datatype LoginReply =
    | LoginRejected(status: nat, message: string)
    | LoginToken(token: string)   // 200 { token }

  /** `POST /login`; it changes nothing. `compare` stands for `bcrypt.compare` and `sign`
      for `jwt.sign({ id, email }, secret, { expiresIn: "1d" })`. */
  function Login(users: seq<UserRecord>, email: string, password: string,
                 compare: (string, string) -> bool, sign: (ObjectId, string) -> string): (r: LoginReply)
    ensures r.LoginToken? <==>
      email != "" && password != "" && FindUser(users, email).Some?
      && compare(password, FindUser(users, email).value.password)
    ensures r.LoginToken? ==> r.token == sign(FindUser(users, email).value.id, email)
    ensures r.LoginRejected? ==> (r.status == 400 <==> email == "" || password == "")
    ensures r.LoginRejected? && r.status == 400 ==> r.message == FieldsRequired
    ensures r.LoginRejected? && r.status != 400 ==> r == LoginRejected(401, InvalidCredentials)
  {
    if email == "" || password == "" then LoginRejected(400, FieldsRequired)
    else match FindUser(users, email)
      case None => LoginRejected(401, InvalidCredentials)
      case Some(user) =>
        if !compare(password, user.password) then LoginRejected(401, InvalidCredentials)
        else LoginToken(sign(user.id, user.email))
  }

  /** An account just created can log in with the password it was created with, given
      that `compare` accepts a password against its own hash. */
  lemma SignupThenLogin(users: seq<UserRecord>, id: ObjectId, email: string, password: string,
                        hash: string -> string, compare: (string, string) -> bool,
                        sign: (ObjectId, string) -> string)
    requires email != "" && password != "" && FindUser(users, email).None?
    requires compare(password, hash(password))
    ensures var (reply, users') := Register(users, id, email, password, hash);
            reply.status == 201 && Login(users', email, password, compare, sign) == LoginToken(sign(id, email))
  {
    FindUserAppended(users, UserRecord(id, email, hash(password)));
  }

  /** Signing up twice with one email: the second attempt is refused and changes nothing. */
  lemma SignupTwice(users: seq<UserRecord>, id: ObjectId, id2: ObjectId, email: string,
                    password: string, password2: string, hash: string -> string)
    requires email != "" && password != "" && password2 != "" && FindUser(users, email).None?
    ensures var users' := Register(users, id, email, password, hash).1;
            Register(users', id2, email, password2, hash) == (SignupReply(400, UserExists), users')
  {
    FindUserAppended(users, UserRecord(id, email, hash(password)));
  }
}
