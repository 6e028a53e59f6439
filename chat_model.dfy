/** backend/models/Chat.js: the Chat record, its schema rules and what `Chat.create`
    makes of the fields it is given. */
module ChatModel {
  import opened Wrappers

  /** A MongoDB ObjectId; fresh ones come from a counter. */
  type ObjectId = nat

  datatype Role = User | Ai

  function RoleName(r: Role): string {
    match r
    case User => "user"
    case Ai => "ai"
  }

  /** The `enum: ["user", "ai"]` rule on `role`. */
  function ParseRole(s: string): (r: Option<Role>)
    ensures r.Some? <==> s == "user" || s == "ai"
    ensures r.Some? ==> RoleName(r.value) == s
  {
    if s == "user" then Some(User) else if s == "ai" then Some(Ai) else None
  }

  lemma RoleNameRoundTrip(r: Role)
    ensures ParseRole(RoleName(r)) == Some(r)
  {
  }

  /** A stored chat message; `createdAt` is the creation timestamp added by `timestamps: true`. */
  datatype Chat = Chat(userId: string, fileId: ObjectId, role: Role, isFound: bool, content: string, createdAt: nat)

  /** The fields a route passes to `Chat.create`; a field it leaves out is `None`. */
  datatype ChatFields = ChatFields(
    userId: Option<string>,
    fileId: Option<ObjectId>,
    role: Option<string>,
    isFound: Option<bool>,
    content: Option<string>)

  /** Mongoose's `required` on a String path: present and not the empty string. */
  predicate RequiredString(s: Option<string>) {
    s.Some? && s.value != ""
  }

  /** The schema paths whose validation can fail. */
  datatype SchemaPath = UserIdPath | FileIdPath | RolePath | ContentPath

  /** A stored record satisfies the schema. */
  predicate ValidChat(c: Chat) {
    c.userId != "" && c.content != ""
  }

  /** The paths that fail validation. */
  function Failing(f: ChatFields): set<SchemaPath> {
    (if RequiredString(f.userId) then {} else {UserIdPath})
    + (if f.fileId.Some? then {} else {FileIdPath})
    + (if f.role.Some? && ParseRole(f.role.value).Some? then {} else {RolePath})
    + (if RequiredString(f.content) then {} else {ContentPath})
  }

  /** `Chat.create(fields)` at time `now`: a validation error naming every failing path,
      or the new record with `isFound` defaulting to true. */
  function Create(f: ChatFields, now: nat): (r: Result<Chat, set<SchemaPath>>)
    ensures r.Ok? <==> RequiredString(f.userId) && f.fileId.Some? && f.role.Some?
                       && ParseRole(f.role.value).Some? && RequiredString(f.content)
    ensures r.Err? ==> r.error != {}
    ensures r.Err? ==>
      (UserIdPath in r.error <==> !RequiredString(f.userId))
      && (FileIdPath in r.error <==> f.fileId.None?)
      && (RolePath in r.error <==> f.role.None? || ParseRole(f.role.value).None?)
      && (ContentPath in r.error <==> !RequiredString(f.content))
    ensures r.Ok? ==> ValidChat(r.value) && r.value.createdAt == now
    ensures r.Ok? ==> r.value.isFound == (if f.isFound.Some? then f.isFound.value else true)
    ensures r.Ok? ==> Some(r.value.userId) == f.userId && Some(r.value.fileId) == f.fileId
                      && Some(RoleName(r.value.role)) == f.role && Some(r.value.content) == f.content
  {
    var bad := Failing(f);
    if bad == {} then
      assert UserIdPath !in bad && FileIdPath !in bad && RolePath !in bad && ContentPath !in bad;
      Ok(Chat(f.userId.value, f.fileId.value, ParseRole(f.role.value).value,
              if f.isFound.Some? then f.isFound.value else true,
              f.content.value, now))
    else
      Err(bad)
  }
}
