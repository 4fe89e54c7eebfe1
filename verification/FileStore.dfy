/** The client's file store (`useFileStore`): the cached file list, the
    selection, and the actions that go through the files endpoint, the
    upload signer and the media host.

    Each outside call is replaced by its outcome, passed in as a
    parameter; each action returns the calls it sent, in order, and the
    message of the exception it let escape, if any. The effect of each
    action on the store is also a function on `CacheState`, so that
    properties spanning several actions can be stated as lemmas. */
module FileStore {
  import opened Base
  import opened Seqs
  import opened Endpoint
  import FilesServer
  import UploadAuthorizer

  const UploadFailed := "Cloudinary upload failed"

  datatype FileType = Image | Video | Document | Folder

  /** `getFileType(mimeType)` */
  function GetFileType(mimeType: string): (t: FileType)
    ensures t != Folder
    ensures t == Image <==> StartsWith(mimeType, "image/")
    ensures t == Video <==> StartsWith(mimeType, "video/")
  {
    PrefixesExclusive(mimeType, "image/", "video/");
    if StartsWith(mimeType, "image/") then Image
    else if StartsWith(mimeType, "video/") then Video
    else Document
  }

  /** The media host's resource type in the upload URL; it tests the
      prefixes the other way round. */
  function ResourceType(mimeType: string): (r: string)
    ensures r == "video" <==> StartsWith(mimeType, "video/")
    ensures r == "image" <==> StartsWith(mimeType, "image/")
    ensures r == "raw" <==> !StartsWith(mimeType, "image/") && !StartsWith(mimeType, "video/")
  {
    PrefixesExclusive(mimeType, "image/", "video/");
    if StartsWith(mimeType, "video/") then "video"
    else if StartsWith(mimeType, "image/") then "image"
    else "raw"
  }

  /** The upload goes to the host's endpoint for the type the grid will
      show the file as. */
  lemma ResourceTypeMatchesFileType(mimeType: string)
    ensures ResourceType(mimeType) == match GetFileType(mimeType)
      case Image => "image"
      case Video => "video"
      case _ => "raw"
  {
    PrefixesExclusive(mimeType, "image/", "video/");
  }

  /** A cached file. `size` is the byte count and `uploadDate` the creation
      time; their display formatting is not modelled. */
  datatype FileItem = FileItem(
    id: string, name: string, originalName: string, fileType: FileType,
    size: nat, uploadDate: int, thumbnail: Option<string>,
    isStarred: Option<bool>, isDeleted: Option<bool>,
    publicId: string, url: string, userId: string)

  /** The mapping `fetchFiles` applies to each listed document. */
  function FromDoc(d: FilesServer.FileDoc): (f: FileItem)
    ensures f.id == d.id && f.userId == d.userId && f.name == d.name
    ensures f.fileType == GetFileType(d.mimeType) && f.fileType != Folder
    ensures IsSet(f.isStarred) == d.isStarred && IsSet(f.isDeleted) == d.isDeleted
    ensures f.originalName == d.originalName && f.size == d.size && f.uploadDate == d.createdAt
    ensures f.thumbnail == Some(d.thumbnailUrl) && f.publicId == d.publicId && f.url == d.url
  {
    FileItem(d.id, d.name, d.originalName, GetFileType(d.mimeType), d.size, d.createdAt,
      Some(d.thumbnailUrl), Some(d.isStarred), Some(d.isDeleted), d.publicId, d.url, d.userId)
  }

  /** The file the browser hands to `uploadFile`. */
  datatype LocalFile = LocalFile(name: string, size: nat, mimeType: string)

  /** What the media host answers to a successful upload. */
  datatype HostUpload = HostUpload(publicId: string, secureUrl: string, thumbnailUrl: Option<string>)

  /** The form posted to the media host with the file. */
  datatype UploadForm = UploadForm(fileName: string, apiKey: string, timestamp: string, signature: string, folder: string)

  /** A request the store sends. */
  datatype Call =
    | FilesCall(req: FilesServer.FilesRequest)
    | SignerCall(signerReq: UploadAuthorizer.UploadRequest)
    | HostCall(url: string, form: UploadForm)

  /** Every request the store builds names an action the files endpoint
      handles and the user it is made for, and a `create` always carries
      its `file_data`. */
  lemma RequestsAreHandled(userId: string, data: FilesServer.FileData, fileId: string,
    newName: Option<string>, isStarred: Option<bool>, isDeleted: Option<bool>)
    ensures forall req :: req in [ListRequest(userId), CreateRequest(userId, data),
        UpdateRequest(fileId, userId, newName, isStarred, isDeleted), DeleteRequest(fileId, userId)] ==>
      req.action in {"list", "create", "update", "delete"} && req.userId == userId
    ensures CreateRequest(userId, data).fileData == Some(data)
    ensures UpdateRequest(fileId, userId, newName, isStarred, isDeleted).fileId == fileId
    ensures var u := UpdateRequest(fileId, userId, newName, isStarred, isDeleted);
      u.newName == newName && u.isStarred == isStarred && u.isDeleted == isDeleted
    ensures DeleteRequest(fileId, userId).fileId == fileId
  {
  }

  function ListRequest(userId: string): FilesServer.FilesRequest {
    FilesServer.FilesRequest("list", userId, "", None, None, None, None)
  }

  function CreateRequest(userId: string, data: FilesServer.FileData): FilesServer.FilesRequest {
    FilesServer.FilesRequest("create", userId, "", Some(data), None, None, None)
  }

  function UpdateRequest(fileId: string, userId: string,
    newName: Option<string>, isStarred: Option<bool>, isDeleted: Option<bool>): FilesServer.FilesRequest
  {
    FilesServer.FilesRequest("update", userId, fileId, None, newName, isStarred, isDeleted)
  }

  function DeleteRequest(fileId: string, userId: string): FilesServer.FilesRequest {
    FilesServer.FilesRequest("delete", userId, fileId, None, None, None, None)
  }

  datatype CacheState = CacheState(files: seq<FileItem>, selected: seq<string>, isLoading: bool)

  /** What an action leaves behind: the new state, the calls sent in
      order, and the message of the exception it threw, if any. */
  datatype Step = Step(state: CacheState, calls: seq<Call>, thrown: Option<string>)

  /** `files.find((f) => f.id === id)`, as a position. */
  function FindItem(files: seq<FileItem>, id: string): (r: Option<nat>)
    ensures r.Some? ==> r.value < |files| && files[r.value].id == id
    ensures r.Some? ==> forall j :: 0 <= j < r.value ==> files[j].id != id
    ensures r.None? <==> forall j :: 0 <= j < |files| ==> files[j].id != id
  {
    FirstIndex(files, (f: FileItem) => f.id == id)
  }

  /** `files.map((f) => (f.id === id ? change(f) : f))` */
  function UpdateWhere(files: seq<FileItem>, id: string, change: FileItem -> FileItem): (r: seq<FileItem>)
    ensures |r| == |files|
    ensures forall i :: 0 <= i < |files| && files[i].id == id ==> r[i] == change(files[i])
    ensures forall i :: 0 <= i < |files| && files[i].id != id ==> r[i] == files[i]
  {
    seq(|files|, i requires 0 <= i < |files| => if files[i].id == id then change(files[i]) else files[i])
  }

  function SetDeleted(b: bool): FileItem -> FileItem {
    (f: FileItem) => f.(isDeleted := Some(b))
  }

  function SetStarred(b: bool): FileItem -> FileItem {
    (f: FileItem) => f.(isStarred := Some(b))
  }

  function SetName(name: string): FileItem -> FileItem {
    (f: FileItem) => f.(name := name)
  }

  /** `fetchFiles(userId)`: the list call, then the listed documents
      replace the cache; a failure only ends the loading state. */
  function Fetched(s: CacheState, userId: string, answer: Reply<seq<FilesServer.FileDoc>>): (r: Step)
    ensures r.calls == [FilesCall(ListRequest(userId))] && r.thrown.None?
    ensures !r.state.isLoading && r.state.selected == s.selected
    ensures answer.Rejected? ==> r.state.files == s.files
    ensures answer.Answered? ==>
      |r.state.files| == |answer.body| &&
      forall i :: 0 <= i < |answer.body| ==> r.state.files[i] == FromDoc(answer.body[i])
  {
    var calls := [FilesCall(ListRequest(userId))];
    match answer
    case Answered(docs) =>
      Step(s.(files := seq(|docs|, i requires 0 <= i < |docs| => FromDoc(docs[i])), isLoading := false), calls, None)
    case Rejected(_) => Step(s.(isLoading := false), calls, None)
  }

  /** The upload URL for a cloud and resource type. */
  function HostUploadUrl(cloudName: string, resourceType: string): (url: string)
    ensures StartsWith(url, UploadAuthorizer.HostApi + cloudName + "/" + resourceType)
    ensures url[|url| - |"/upload"|..] == "/upload"
    ensures |url| == |UploadAuthorizer.HostApi + cloudName + "/" + resourceType| + |"/upload"|
  {
    UploadAuthorizer.HostApi + cloudName + "/" + resourceType + "/upload"
  }

  /** The metadata `uploadFile` records for an uploaded file. */
  function Metadata(file: LocalFile, host: HostUpload): (data: FilesServer.FileData)
    ensures data.name == data.originalName == file.name
    ensures data.size == file.size && data.mimeType == file.mimeType
    ensures data.publicId == host.publicId && data.url == host.secureUrl
    ensures Truthy(host.thumbnailUrl) ==> data.thumbnailUrl == host.thumbnailUrl.value
    ensures !Truthy(host.thumbnailUrl) ==> data.thumbnailUrl == host.secureUrl
  {
    FilesServer.FileData(file.name, file.name, file.size, file.mimeType, host.publicId, host.secureUrl,
      if Truthy(host.thumbnailUrl) then host.thumbnailUrl.value else host.secureUrl)
  }

  /** An uploaded file, once recorded and listed again, shows up in the
      cache under its own name and kind, live and unstarred, pointing at
      what the host stored. */
  lemma UploadedFileListed(file: LocalFile, host: HostUpload, id: string, userId: string, now: int)
    ensures var f := FromDoc(FilesServer.NewDoc(id, userId, Metadata(file, host), now));
      && f.id == id && f.userId == userId && f.name == f.originalName == file.name
      && f.size == file.size && f.fileType == GetFileType(file.mimeType) && f.uploadDate == now
      && !IsSet(f.isStarred) && !IsSet(f.isDeleted)
      && f.publicId == host.publicId && f.url == host.secureUrl
      && f.thumbnail == Some(if Truthy(host.thumbnailUrl) then host.thumbnailUrl.value else host.secureUrl)
  {
  }

  /** `uploadFile(file, userId)`: a grant from the signer, the upload to
      the host, the metadata record, then a refresh of the list. The first
      failure ends it with an exception; nothing already done is undone. */
  function Uploaded(s: CacheState, file: LocalFile, userId: string,
    grant: Reply<UploadAuthorizer.Grant>, host: Option<HostUpload>,
    created: Reply<FilesServer.FileDoc>, listed: Reply<seq<FilesServer.FileDoc>>): (r: Step)
    ensures 1 <= |r.calls| && r.calls[0] == SignerCall(UploadAuthorizer.UploadRequest("get_signature", userId, ""))
    ensures grant.Answered? ==> 2 <= |r.calls| && r.calls[1] == HostCall(
      HostUploadUrl(grant.body.cloudName, ResourceType(file.mimeType)),
      UploadForm(file.name, grant.body.apiKey, grant.body.timestamp, grant.body.signature, grant.body.folder))
    ensures r.thrown.None? <==> grant.Answered? && host.Some? && created.Answered?
    ensures r.thrown.Some? ==> r.state == s && |r.calls| <= 3
    ensures grant.Rejected? ==> |r.calls| == 1 && r.thrown == Some(Thrown(grant.error))
    ensures grant.Answered? && host.None? ==> |r.calls| == 2 && r.thrown == Some(UploadFailed)
    ensures grant.Answered? && host.Some? ==>
      3 <= |r.calls| && r.calls[2] == FilesCall(CreateRequest(userId, Metadata(file, host.value)))
    ensures grant.Answered? && host.Some? && created.Rejected? ==>
      |r.calls| == 3 && r.thrown == Some(Thrown(created.error))
    ensures r.thrown.None? ==>
      |r.calls| == 4 && r.calls[3] == FilesCall(ListRequest(userId))
      && r.state == Fetched(s, userId, listed).state
  {
    var calls := [SignerCall(UploadAuthorizer.UploadRequest("get_signature", userId, ""))];
    match grant
    case Rejected(e) => Step(s, calls, Some(Thrown(e)))
    case Answered(g) =>
      var form := UploadForm(file.name, g.apiKey, g.timestamp, g.signature, g.folder);
      var calls := calls + [HostCall(HostUploadUrl(g.cloudName, ResourceType(file.mimeType)), form)];
      match host
      case None => Step(s, calls, Some(UploadFailed))
      case Some(h) =>
        var calls := calls + [FilesCall(CreateRequest(userId, Metadata(file, h)))];
        match created
        case Rejected(e) => Step(s, calls, Some(Thrown(e)))
        case Answered(_) =>
          var refresh := Fetched(s, userId, listed);
          Step(refresh.state, calls + refresh.calls, None)
  }

  /** The actions that send one `update` for a cached file and then apply
      the same change locally to every cached item with that id. A missing
      id sends nothing; a failed call changes nothing and escapes. */
  function AfterUpdate(s: CacheState, id: string,
    newName: Option<string>, isStarred: Option<bool>, isDeleted: Option<bool>,
    change: FileItem -> FileItem, answer: Reply<()>): (r: Step)
    ensures FindItem(s.files, id).None? ==> r == Step(s, [], None)
    ensures FindItem(s.files, id).Some? ==>
      r.calls == [FilesCall(UpdateRequest(id, s.files[FindItem(s.files, id).value].userId, newName, isStarred, isDeleted))]
    ensures answer.Rejected? ==> r.state == s
    ensures FindItem(s.files, id).Some? && answer.Rejected? ==> r.thrown == Some(Thrown(answer.error))
    ensures FindItem(s.files, id).Some? && answer.Answered? ==>
      r.thrown.None? && r.state == s.(files := UpdateWhere(s.files, id, change))
  {
    match FindItem(s.files, id)
    case None => Step(s, [], None)
    case Some(i) =>
      var calls := [FilesCall(UpdateRequest(id, s.files[i].userId, newName, isStarred, isDeleted))];
      match answer
      case Rejected(e) => Step(s, calls, Some(Thrown(e)))
      case Answered(_) => Step(s.(files := UpdateWhere(s.files, id, change)), calls, None)
  }

  /** `deleteFile(id)`: to the trash. */
  function Trashed(s: CacheState, id: string, answer: Reply<()>): (r: Step)
    ensures FindItem(s.files, id).Some? ==>
      r.calls == [FilesCall(UpdateRequest(id, s.files[FindItem(s.files, id).value].userId, None, None, Some(true)))]
    ensures FindItem(s.files, id).Some? && answer.Answered? ==>
      && r.state.selected == s.selected && |r.state.files| == |s.files|
      && forall i :: 0 <= i < |s.files| ==>
        r.state.files[i] == if s.files[i].id == id then s.files[i].(isDeleted := Some(true)) else s.files[i]
  {
    AfterUpdate(s, id, None, None, Some(true), SetDeleted(true), answer)
  }

  /** `restoreFile(id)`: out of the trash. */
  function Restored(s: CacheState, id: string, answer: Reply<()>): (r: Step)
    ensures FindItem(s.files, id).Some? ==>
      r.calls == [FilesCall(UpdateRequest(id, s.files[FindItem(s.files, id).value].userId, None, None, Some(false)))]
    ensures FindItem(s.files, id).Some? && answer.Answered? ==>
      && r.state.selected == s.selected && |r.state.files| == |s.files|
      && forall i :: 0 <= i < |s.files| ==>
        r.state.files[i] == if s.files[i].id == id then s.files[i].(isDeleted := Some(false)) else s.files[i]
  {
    AfterUpdate(s, id, None, None, Some(false), SetDeleted(false), answer)
  }

  /** `renameFile(id, newName)`: the name is sent and cached as given. */
  function Renamed(s: CacheState, id: string, newName: string, answer: Reply<()>): (r: Step)
    ensures FindItem(s.files, id).Some? ==>
      r.calls == [FilesCall(UpdateRequest(id, s.files[FindItem(s.files, id).value].userId, Some(newName), None, None))]
    ensures FindItem(s.files, id).Some? && answer.Answered? ==>
      && r.state.selected == s.selected && |r.state.files| == |s.files|
      && forall i :: 0 <= i < |s.files| ==>
        r.state.files[i] == if s.files[i].id == id then s.files[i].(name := newName) else s.files[i]
  {
    AfterUpdate(s, id, Some(newName), None, None, SetName(newName), answer)
  }

  /** `toggleStar(id, isStarred)`: the caller passes the current flag and
      the store sends and caches its negation. */
  function Starred(s: CacheState, id: string, isStarred: bool, answer: Reply<()>): (r: Step)
    ensures FindItem(s.files, id).Some? ==>
      r.calls == [FilesCall(UpdateRequest(id, s.files[FindItem(s.files, id).value].userId, None, Some(!isStarred), None))]
    ensures FindItem(s.files, id).Some? && answer.Answered? ==>
      && r.state.selected == s.selected && |r.state.files| == |s.files|
      && forall i :: 0 <= i < |s.files| ==>
        r.state.files[i] == if s.files[i].id == id then s.files[i].(isStarred := Some(!isStarred)) else s.files[i]
  {
    AfterUpdate(s, id, None, Some(!isStarred), None, SetStarred(!isStarred), answer)
  }

  /** `permanentlyDeleteFile(id, publicId)`: a destroy request to the
      signer, whose failure is only logged, then the metadata delete; on
      success every cached item with that id is dropped. */
  function Purged(s: CacheState, id: string, publicId: string, answer: Reply<()>): (r: Step)
    ensures FindItem(s.files, id).None? ==> r == Step(s, [], None)
    ensures FindItem(s.files, id).Some? ==>
      r.calls == [SignerCall(UploadAuthorizer.UploadRequest("delete", "", publicId)),
                  FilesCall(DeleteRequest(id, s.files[FindItem(s.files, id).value].userId))]
    ensures answer.Rejected? ==> r.state == s
    ensures FindItem(s.files, id).Some? && answer.Rejected? ==> r.thrown == Some(Thrown(answer.error))
    ensures answer.Answered? ==> r.thrown.None?
    ensures r.state == s.(files := r.state.files)
    ensures forall i :: 0 <= i < |r.state.files| ==> r.state.files[i] in s.files
    ensures FindItem(s.files, id).Some? && answer.Answered? ==>
      (forall i :: 0 <= i < |r.state.files| ==> r.state.files[i].id != id) &&
      (forall i :: 0 <= i < |s.files| && s.files[i].id != id ==> s.files[i] in r.state.files) &&
      (forall f: FileItem :: f.id != id ==> multiset(r.state.files)[f] == multiset(s.files)[f]) &&
      IsSubsequence(r.state.files, s.files)
  {
    match FindItem(s.files, id)
    case None => Step(s, [], None)
    case Some(i) =>
      var calls := [SignerCall(UploadAuthorizer.UploadRequest("delete", "", publicId)),
                    FilesCall(DeleteRequest(id, s.files[i].userId))];
      match answer
      case Rejected(e) => Step(s, calls, Some(Thrown(e)))
      case Answered(_) =>
        var keep := (f: FileItem) => f.id != id;
        FilterMultiset(s.files, keep);
        Step(s.(files := Filter(s.files, keep)), calls, None)
  }

  /** `selectFile(id)`: deselect if selected, otherwise select at the end. */
  function Toggle(selected: seq<string>, id: string): (r: seq<string>)
    ensures id in r <==> id !in selected
    ensures forall x :: x != id ==> (x in r <==> x in selected)
    ensures NoRepeats(selected) ==> NoRepeats(r)
    ensures id !in selected ==> r == selected + [id]
    ensures id in selected ==> IsSubsequence(r, selected)
    ensures id in selected ==> forall x :: x != id ==> multiset(r)[x] == multiset(selected)[x]
  {
    if id in selected then
      var keep := (x: string) => x != id;
      FilterNoRepeats(selected, keep);
      FilterMultiset(selected, keep);
      Filter(selected, keep)
    else
      var r := selected + [id];
      assert forall i :: 0 <= i < |selected| ==> r[i] == selected[i];
      r
  }

  /** Selecting a file and selecting it again gives the selection back. */
  lemma ToggleTwice(selected: seq<string>, id: string)
    requires id !in selected
    ensures Toggle(Toggle(selected, id), id) == selected
  {
    var keep := (x: string) => x != id;
    FilterAppend(selected, [id], keep);
    FilterKeepsAll(selected, keep);
    assert Filter([id], keep) == [];
  }

  /** Trashing a file and restoring it gives the cache back when the file
      was not in the trash. */
  lemma TrashThenRestore(s: CacheState, id: string)
    requires forall i :: 0 <= i < |s.files| && s.files[i].id == id ==> s.files[i].isDeleted == Some(false)
    ensures Restored(Trashed(s, id, Answered(())).state, id, Answered(())).state == s
  {
    var t := Trashed(s, id, Answered(())).state;
    if FindItem(s.files, id).Some? {
      assert FindItem(t.files, id).Some?;
      var back := UpdateWhere(t.files, id, SetDeleted(false));
      assert forall i :: 0 <= i < |s.files| ==> back[i] == s.files[i];
    }
  }

  /** Starring a file from the preview and starring it again gives the
      cache back: the second call passes the flag the first one cached. */
  lemma StarTwice(s: CacheState, id: string, flag: bool)
    requires forall i :: 0 <= i < |s.files| && s.files[i].id == id ==> s.files[i].isStarred == Some(flag)
    ensures Starred(Starred(s, id, flag, Answered(())).state, id, !flag, Answered(())).state == s
  {
    var t := Starred(s, id, flag, Answered(())).state;
    if FindItem(s.files, id).Some? {
      assert FindItem(t.files, id).Some?;
      var back := UpdateWhere(t.files, id, SetStarred(flag));
      assert forall i :: 0 <= i < |s.files| ==> back[i] == s.files[i];
    }
  }

  /** The cached change after a trash, restore or star agrees with what
      the files endpoint stored: re-listing shows the same item. */
  lemma FlagsAgreeWithServer(d: FilesServer.FileDoc, b: bool, now: int)
    ensures FromDoc(FilesServer.ApplyPatch(d, None, None, Some(b), now)) == SetDeleted(b)(FromDoc(d))
    ensures FromDoc(FilesServer.ApplyPatch(d, None, Some(b), None, now)) == SetStarred(b)(FromDoc(d))
  {
  }

  /** A rename to a non-empty name agrees with what the endpoint stored. */
  lemma RenameAgreesWithServer(d: FilesServer.FileDoc, name: string, now: int)
    requires name != ""
    ensures FromDoc(FilesServer.ApplyPatch(d, Some(name), None, None, now)) == SetName(name)(FromDoc(d))
  {
  }

  /** A rename to the empty name does not: the endpoint keeps the old name
      while the cache shows the empty one until the next refresh. */
  lemma EmptyRenameDiverges(d: FilesServer.FileDoc, now: int)
    requires d.name != ""
    ensures FromDoc(FilesServer.ApplyPatch(d, Some(""), None, None, now)) != SetName("")(FromDoc(d))
  {
    assert FromDoc(FilesServer.ApplyPatch(d, Some(""), None, None, now)).name == d.name;
  }

  /** A refresh that the endpoint answers with a listing shows only the
      requesting user's files, newest first. */
  lemma RefreshShowsOwnFiles(s: CacheState, docs: seq<FilesServer.FileDoc>, userId: string)
    ensures var files := Fetched(s, userId, Answered(FilesServer.Listing(docs, userId))).state.files;
      forall i :: 0 <= i < |files| ==> files[i].userId == userId
    ensures var files := Fetched(s, userId, Answered(FilesServer.Listing(docs, userId))).state.files;
      forall i, j :: 0 <= i < j < |files| ==> files[i].uploadDate >= files[j].uploadDate
  {
    var listing := FilesServer.Listing(docs, userId);
    assert forall i :: 0 <= i < |listing| ==> listing[i] in listing;
  }

  /** The form sent to the host with a grant the signer issued carries the
      user's folder, and the host's signature check over that form, with
      its fields in either order, succeeds. */
  lemma UploadFormVerifies(
    s: CacheState, file: LocalFile, userId: string,
    creds: UploadAuthorizer.Credentials, nowMs: nat, sha1Hex: string -> string, destroyAnswer: Result<string>,
    host: Option<HostUpload>, created: Reply<FilesServer.FileDoc>, listed: Reply<seq<FilesServer.FileDoc>>)
    requires UploadAuthorizer.Configured(creds)
    ensures
      var reply := UploadAuthorizer.Handle(
        creds, UploadAuthorizer.UploadRequest("get_signature", userId, ""), nowMs, sha1Hex, destroyAnswer);
      reply.Granted? &&
      var step := Uploaded(s, file, userId, Answered(reply.grant), host, created, listed);
      var form := step.calls[1].form;
      step.calls[1].HostCall? && form.folder == UploadAuthorizer.Namespace + userId &&
      UploadAuthorizer.Sign([("folder", form.folder), ("timestamp", form.timestamp)], creds.apiSecret.value, sha1Hex) == form.signature &&
      UploadAuthorizer.Sign([("timestamp", form.timestamp), ("folder", form.folder)], creds.apiSecret.value, sha1Hex) == form.signature
  {
    var req := UploadAuthorizer.UploadRequest("get_signature", userId, "");
    var g := UploadAuthorizer.Handle(creds, req, nowMs, sha1Hex, destroyAnswer).grant;
    UploadAuthorizer.GrantVerifies(creds, req, nowMs, sha1Hex, destroyAnswer, [("folder", g.folder), ("timestamp", g.timestamp)]);
    UploadAuthorizer.GrantVerifies(creds, req, nowMs, sha1Hex, destroyAnswer, [("timestamp", g.timestamp), ("folder", g.folder)]);
  }

  class FileCache {
    var files: seq<FileItem>
    var selectedFiles: seq<string>
    var isLoading: bool

    ghost function State(): CacheState
      reads this
    {
      CacheState(files, selectedFiles, isLoading)
    }

    /** The store as created. */
    constructor ()
      ensures State() == CacheState([], [], false)
    {
      files := [];
      selectedFiles := [];
      isLoading := false;
    }

    method FetchFiles(userId: string, answer: Reply<seq<FilesServer.FileDoc>>) returns (calls: seq<Call>)
      modifies this
      ensures Step(State(), calls, None) == Fetched(old(State()), userId, answer)
    {
      isLoading := true;
      calls := [FilesCall(ListRequest(userId))];
      match answer
      case Answered(docs) =>
        files := seq(|docs|, i requires 0 <= i < |docs| => FromDoc(docs[i]));
        isLoading := false;
      case Rejected(_) =>
        isLoading := false;
    }

    method UploadFile(file: LocalFile, userId: string,
      grant: Reply<UploadAuthorizer.Grant>, host: Option<HostUpload>,
      created: Reply<FilesServer.FileDoc>, listed: Reply<seq<FilesServer.FileDoc>>)
      returns (calls: seq<Call>, thrown: Option<string>)
      modifies this
      ensures Step(State(), calls, thrown) == Uploaded(old(State()), file, userId, grant, host, created, listed)
    {
      calls := [SignerCall(UploadAuthorizer.UploadRequest("get_signature", userId, ""))];
      if grant.Rejected? {
        return calls, Some(Thrown(grant.error));
      }
      var g := grant.body;
      var form := UploadForm(file.name, g.apiKey, g.timestamp, g.signature, g.folder);
      calls := calls + [HostCall(HostUploadUrl(g.cloudName, ResourceType(file.mimeType)), form)];
      if host.None? {
        return calls, Some(UploadFailed);
      }
      calls := calls + [FilesCall(CreateRequest(userId, Metadata(file, host.value)))];
      if created.Rejected? {
        return calls, Some(Thrown(created.error));
      }
      var refresh := FetchFiles(userId, listed);
      calls := calls + refresh;
      thrown := None;
    }

    method Update(id: string, newName: Option<string>, isStarred: Option<bool>, isDeleted: Option<bool>,
      change: FileItem -> FileItem, answer: Reply<()>)
      returns (calls: seq<Call>, thrown: Option<string>)
      modifies this
      ensures Step(State(), calls, thrown) == AfterUpdate(old(State()), id, newName, isStarred, isDeleted, change, answer)
    {
      var found := FindItem(files, id);
      if found.None? {
        return [], None;
      }
      calls := [FilesCall(UpdateRequest(id, files[found.value].userId, newName, isStarred, isDeleted))];
      if answer.Rejected? {
        return calls, Some(Thrown(answer.error));
      }
      files := UpdateWhere(files, id, change);
      thrown := None;
    }

    method DeleteFile(id: string, answer: Reply<()>) returns (calls: seq<Call>, thrown: Option<string>)
      modifies this
      ensures Step(State(), calls, thrown) == Trashed(old(State()), id, answer)
    {
      calls, thrown := Update(id, None, None, Some(true), SetDeleted(true), answer);
    }

    method RestoreFile(id: string, answer: Reply<()>) returns (calls: seq<Call>, thrown: Option<string>)
      modifies this
      ensures Step(State(), calls, thrown) == Restored(old(State()), id, answer)
    {
      calls, thrown := Update(id, None, None, Some(false), SetDeleted(false), answer);
    }

    method RenameFile(id: string, newName: string, answer: Reply<()>) returns (calls: seq<Call>, thrown: Option<string>)
      modifies this
      ensures Step(State(), calls, thrown) == Renamed(old(State()), id, newName, answer)
    {
      calls, thrown := Update(id, Some(newName), None, None, SetName(newName), answer);
    }

    method ToggleStar(id: string, isStarred: bool, answer: Reply<()>) returns (calls: seq<Call>, thrown: Option<string>)
      modifies this
      ensures Step(State(), calls, thrown) == Starred(old(State()), id, isStarred, answer)
    {
      calls, thrown := Update(id, None, Some(!isStarred), None, SetStarred(!isStarred), answer);
    }

    method PermanentlyDeleteFile(id: string, publicId: string, answer: Reply<()>)
      returns (calls: seq<Call>, thrown: Option<string>)
      modifies this
      ensures Step(State(), calls, thrown) == Purged(old(State()), id, publicId, answer)
    {
      var found := FindItem(files, id);
      if found.None? {
        return [], None;
      }
      calls := [SignerCall(UploadAuthorizer.UploadRequest("delete", "", publicId)),
                FilesCall(DeleteRequest(id, files[found.value].userId))];
      if answer.Rejected? {
        return calls, Some(Thrown(answer.error));
      }
      files := Filter(files, (f: FileItem) => f.id != id);
      thrown := None;
    }

    method SelectFile(id: string)
      modifies this
      ensures files == old(files) && isLoading == old(isLoading)
      ensures selectedFiles == Toggle(old(selectedFiles), id)
    {
      selectedFiles := Toggle(selectedFiles, id);
    }

    method ClearSelection()
      modifies this
      ensures files == old(files) && isLoading == old(isLoading)
      ensures selectedFiles == []
    {
      selectedFiles := [];
    }
  }
}
