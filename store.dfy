/** The MongoDB collections (File, Chat, Document, User) and the uploads folder, held in
    memory, with the Mongoose operations the routes use: create with schema validation,
    find, findByIdAndDelete, deleteMany and the filesystem's existsSync/unlinkSync. */
module Store {
  import opened Wrappers
  import opened Seqs
  import opened ChatModel

  /** An embedding vector as returned by the embedding service. */
  type Vector = seq<real>

  /** backend/models/File.js; `uploadedAt` is the `Date.now` default. */
  datatype FileRecord = FileRecord(id: ObjectId, userId: string, originalName: string,
                                   storedName: string, filePath: string, uploadedAt: nat)

  /** backend/models/Documents.js: one indexed fragment. */
  datatype DocRecord = DocRecord(userId: string, fileId: ObjectId, chunkText: string, embedding: Vector)

  /** A registered account; `password` holds the bcrypt hash. */
  datatype UserRecord = UserRecord(id: ObjectId, email: string, password: string)

  function CreatedAt(c: Chat): int { c.createdAt }

  /** The filter `{ fileId: { $ne: id } }` on chats, i.e. what `deleteMany({ fileId: id })` keeps. */
  function ChatNotOf(id: ObjectId): Chat -> bool {
    (c: Chat) => c.fileId != id
  }

  function DocNotOf(id: ObjectId): DocRecord -> bool {
    (d: DocRecord) => d.fileId != id
  }

  /** `Chat.deleteMany({ fileId: id })` applied to the collection. */
  function ChatsWithout(chats: seq<Chat>, id: ObjectId): (r: seq<Chat>)
    ensures forall i :: 0 <= i < |r| ==> r[i] in chats && r[i].fileId != id
    ensures forall i :: 0 <= i < |chats| && chats[i].fileId != id ==> chats[i] in r
  {
    Filter(chats, ChatNotOf(id))
  }

  /** `Document.deleteMany({ fileId: id })` applied to the collection. */
  function DocsWithout(docs: seq<DocRecord>, id: ObjectId): (r: seq<DocRecord>)
    ensures forall i :: 0 <= i < |r| ==> r[i] in docs && r[i].fileId != id
    ensures forall i :: 0 <= i < |docs| && docs[i].fileId != id ==> docs[i] in r
  {
    Filter(docs, DocNotOf(id))
  }

  /** No two File records share an `_id`. */
  predicate UniqueIds(files: seq<FileRecord>) {
    forall i, j :: 0 <= i < j < |files| ==> files[i].id != files[j].id
  }

  /** Dropping records keeps the ids distinct. */
  lemma {:induction false} FilterKeepsUniqueIds(files: seq<FileRecord>, keep: FileRecord -> bool)
    requires UniqueIds(files)
    ensures UniqueIds(Filter(files, keep))
    decreases |files|
  {
    if files != [] {
      var tail := files[1..];
      assert UniqueIds(tail) by {
        forall i, j | 0 <= i < j < |tail| ensures tail[i].id != tail[j].id {
          assert tail[i] == files[i + 1] && tail[j] == files[j + 1];
        }
      }
      FilterKeepsUniqueIds(tail, keep);
      var rest := Filter(tail, keep);
      forall k | 0 <= k < |rest| ensures rest[k].id != files[0].id {
        var m :| 0 <= m < |tail| && tail[m] == rest[k];
        assert tail[m] == files[m + 1];
      }
      assert Filter(files, keep) == (if keep(files[0]) then [files[0]] else []) + rest;
    }
  }

  /** `File.findByIdAndDelete(id)` applied to the collection. */
  function FilesWithout(files: seq<FileRecord>, id: ObjectId): (r: seq<FileRecord>)
    ensures forall i :: 0 <= i < |r| ==> r[i] in files && r[i].id != id
    ensures forall i :: 0 <= i < |files| && files[i].id != id ==> files[i] in r
    ensures UniqueIds(files) ==> UniqueIds(r)
  {
    var keep := (f: FileRecord) => f.id != id;
    if UniqueIds(files) then
      FilterKeepsUniqueIds(files, keep);
      Filter(files, keep)
    else Filter(files, keep)
  }

  /** `File.findById(id)`. */
  function FindFile(files: seq<FileRecord>, id: ObjectId): (r: Option<FileRecord>)
    ensures r.Some? ==> r.value in files && r.value.id == id
    ensures r.None? ==> forall i :: 0 <= i < |files| ==> files[i].id != id
  {
    if files == [] then None
    else if files[0].id == id then Some(files[0])
    else FindFile(files[1..], id)
  }

  /** `User.findOne({ email })`: the first account with that email. */
  function FindUser(users: seq<UserRecord>, email: string): (r: Option<UserRecord>)
    ensures r.Some? ==> r.value in users && r.value.email == email
    ensures r.None? ==> forall i :: 0 <= i < |users| ==> users[i].email != email
  {
    if users == [] then None
    else if users[0].email == email then Some(users[0])
    else FindUser(users[1..], email)
  }

  /** Looking up an email that was not registered before an account was appended finds that account. */
  lemma {:induction false} FindUserAppended(users: seq<UserRecord>, u: UserRecord)
    requires FindUser(users, u.email).None?
    ensures FindUser(users + [u], u.email) == Some(u)
  {
    if users != [] {
      assert (users + [u])[1..] == users[1..] + [u];
      FindUserAppended(users[1..], u);
    }
  }

  predicate UniqueEmails(users: seq<UserRecord>) {
    forall i, j :: 0 <= i < j < |users| ==> users[i].email != users[j].email
  }

  /** Required String paths of the File schema. */
  predicate FileFieldsPresent(userId: string, originalName: string, storedName: string, filePath: string) {
    userId != "" && originalName != "" && storedName != "" && filePath != ""
  }

  class Database {
    var files: seq<FileRecord>
    var chats: seq<Chat>
    var docs: seq<DocRecord>
    var users: seq<UserRecord>
    /** Paths that exist in the uploads folder. */
    var blobs: set<string>
    /** The clock behind `createdAt` and `uploadedAt`; it advances with every record. */
    var clock: nat
    /** The next fresh ObjectId. */
    var nextId: nat

    /** Every id handed out is below `nextId`, chat history is in creation order and
        schema-valid, and no two accounts share an email. */
    ghost predicate Valid()
      reads this
    {
      && (forall f | f in files :: f.id < nextId)
      && UniqueIds(files)
      && (forall u | u in users :: u.id < nextId)
      && StrictlyIncreasing(chats, CreatedAt)
      && (forall c | c in chats :: c.createdAt < clock && ValidChat(c))
      && UniqueEmails(users)
    }

    constructor ()
      ensures Valid()
      ensures files == [] && chats == [] && docs == [] && users == [] && blobs == {}
    {
      files, chats, docs, users, blobs := [], [], [], [], {};
      clock, nextId := 0, 0;
    }

    /** `Chat.create(fields)`: appends the record when it validates. */
    method CreateChat(f: ChatFields) returns (r: Result<Chat, set<SchemaPath>>)
      requires Valid()
      modifies this
      ensures Valid()
      ensures r == Create(f, old(clock))
      ensures r.Ok? ==> chats == old(chats) + [r.value] && clock == old(clock) + 1
      ensures r.Err? ==> chats == old(chats) && clock == old(clock)
      ensures files == old(files) && docs == old(docs) && users == old(users)
      ensures blobs == old(blobs) && nextId == old(nextId)
    {
      r := Create(f, clock);
      if r.Ok? {
        chats := chats + [r.value];
        clock := clock + 1;
      }
    }

    /** `File.create(...)`: appends a record with a fresh id when every required path is present. */
    method CreateFile(userId: string, originalName: string, storedName: string, filePath: string)
      returns (r: Option<FileRecord>)
      requires Valid()
      modifies this
      ensures Valid()
      ensures r.Some? <==> FileFieldsPresent(userId, originalName, storedName, filePath)
      ensures r.Some? ==>
        && r.value == FileRecord(old(nextId), userId, originalName, storedName, filePath, old(clock))
        && files == old(files) + [r.value] && nextId == old(nextId) + 1 && clock == old(clock) + 1
      ensures r.None? ==> files == old(files) && nextId == old(nextId) && clock == old(clock)
      ensures chats == old(chats) && docs == old(docs) && users == old(users) && blobs == old(blobs)
    {
      if FileFieldsPresent(userId, originalName, storedName, filePath) {
        var rec := FileRecord(nextId, userId, originalName, storedName, filePath, clock);
        files := files + [rec];
        nextId := nextId + 1;
        clock := clock + 1;
        r := Some(rec);
      } else {
        r := None;
      }
    }

    /** `Document.create(...)`: appends the fragment unless a required String path is empty. */
    method CreateDocument(d: DocRecord) returns (ok: bool)
      requires Valid()
      modifies this
      ensures Valid()
      ensures ok <==> d.userId != "" && d.chunkText != ""
      ensures docs == if ok then old(docs) + [d] else old(docs)
      ensures files == old(files) && chats == old(chats) && users == old(users)
      ensures blobs == old(blobs) && clock == old(clock) && nextId == old(nextId)
    {
      ok := d.userId != "" && d.chunkText != "";
      if ok {
        docs := docs + [d];
      }
    }

    /** `User.create({ email, password })`. */
    method CreateUser(email: string, password: string) returns (u: UserRecord)
      requires Valid()
      requires FindUser(users, email).None?
      modifies this
      ensures Valid()
      ensures u == UserRecord(old(nextId), email, password)
      ensures users == old(users) + [u] && nextId == old(nextId) + 1
      ensures files == old(files) && chats == old(chats) && docs == old(docs)
      ensures blobs == old(blobs) && clock == old(clock)
    {
      u := UserRecord(nextId, email, password);
      users := users + [u];
      nextId := nextId + 1;
    }

    /** Multer has written the uploaded files to the uploads folder. */
    method StoreBlobs(paths: set<string>)
      requires Valid()
      modifies this
      ensures Valid()
      ensures blobs == old(blobs) + paths
      ensures files == old(files) && chats == old(chats) && docs == old(docs) && users == old(users)
      ensures clock == old(clock) && nextId == old(nextId)
    {
      blobs := blobs + paths;
    }

    /** `fs.unlinkSync(path)`. */
    method Unlink(path: string)
      requires Valid()
      requires path in blobs
      modifies this
      ensures Valid()
      ensures blobs == old(blobs) - {path}
      ensures files == old(files) && chats == old(chats) && docs == old(docs) && users == old(users)
      ensures clock == old(clock) && nextId == old(nextId)
    {
      blobs := blobs - {path};
    }

    /** `File.findByIdAndDelete(id)`. */
    method DeleteFileById(id: ObjectId)
      requires Valid()
      modifies this
      ensures Valid()
      ensures files == FilesWithout(old(files), id)
      ensures chats == old(chats) && docs == old(docs) && users == old(users) && blobs == old(blobs)
      ensures clock == old(clock) && nextId == old(nextId)
    {
      files := FilesWithout(files, id);
    }

    /** `Chat.deleteMany({ fileId: id })`. */
    method DeleteChatsOf(id: ObjectId)
      requires Valid()
      modifies this
      ensures Valid()
      ensures chats == ChatsWithout(old(chats), id)
      ensures files == old(files) && docs == old(docs) && users == old(users) && blobs == old(blobs)
      ensures clock == old(clock) && nextId == old(nextId)
    {
      FilterKeepsOrder(chats, ChatNotOf(id), CreatedAt);
      chats := ChatsWithout(chats, id);
    }

    /** `Document.deleteMany({ fileId: id })`. */
    method DeleteDocsOf(id: ObjectId)
      requires Valid()
      modifies this
      ensures Valid()
      ensures docs == DocsWithout(old(docs), id)
      ensures files == old(files) && chats == old(chats) && users == old(users) && blobs == old(blobs)
      ensures clock == old(clock) && nextId == old(nextId)
    {
      docs := DocsWithout(docs, id);
    }
  }
}
