/** The `mongodb-files` edge function: the metadata table of uploaded
    files, with listing, creation, partial update (rename, star, soft
    delete and restore) and hard deletion, each scoped to the owner named
    in the request.

    The `files` collection is a sequence in insertion order. `updateOne`
    and `deleteOne` reach the first document matching both the file id and
    the owner. The clock (`new Date()`) is the parameter `now`, and
    `crypto.randomUUID()` is the parameter `newId`. */
module FilesServer {
  import opened Base
  import opened Seqs
  import MongoConfig

  const NotConfigured := "MONGODB_URI is not configured"
  const InvalidAction := "Invalid action"
  const DuplicateKey := "E11000 duplicate key error"
  const MissingFileData := "file_data is undefined"

  /** The `file_data` a `create` request carries. */
  datatype FileData = FileData(
    name: string, originalName: string, size: nat, mimeType: string,
    publicId: string, url: string, thumbnailUrl: string)

  /** A document of the `files` collection. */
  datatype FileDoc = FileDoc(
    id: string, userId: string, name: string, originalName: string, size: nat,
    mimeType: string, publicId: string, url: string, thumbnailUrl: string,
    isStarred: bool, isDeleted: bool, deletedAt: Option<int>,
    createdAt: int, updatedAt: int)

  /** The request body. `isStarred` and `isDeleted` stand for
      `file_data?.is_starred` and `file_data?.is_deleted` of an `update`. */
  datatype FilesRequest = FilesRequest(
    action: string, userId: string, fileId: string, fileData: Option<FileData>,
    newName: Option<string>, isStarred: Option<bool>, isDeleted: Option<bool>)

  datatype FilesReply =
    | Listed(files: seq<FileDoc>)
    | Created(file: FileDoc)
    | Succeeded
    | Failure(status: nat, message: string)

  /** A document is in the trash exactly when it carries a deletion time. */
  predicate TrashConsistent(d: FileDoc) {
    d.isDeleted <==> d.deletedAt.Some?
  }

  ghost predicate UniqueIds(files: seq<FileDoc>) {
    forall i, j :: 0 <= i < j < |files| ==> files[i].id != files[j].id
  }

  /** The document `create` inserts. */
  function NewDoc(id: string, userId: string, data: FileData, now: int): (d: FileDoc)
    ensures TrashConsistent(d) && !d.isStarred && !d.isDeleted
    ensures d.id == id && d.userId == userId && d.createdAt == now && d.updatedAt == now
    ensures d.name == data.name && d.originalName == data.originalName && d.size == data.size
    ensures d.mimeType == data.mimeType && d.publicId == data.publicId
    ensures d.url == data.url && d.thumbnailUrl == data.thumbnailUrl
  {
    FileDoc(id, userId, data.name, data.originalName, data.size, data.mimeType,
      data.publicId, data.url, data.thumbnailUrl, false, false, None, now, now)
  }

  /** The `$set` of an `update`: `updated_at` always, the name when the new
      name is truthy, the star when given, and the trash flag with its
      time when given. */
  function ApplyPatch(d: FileDoc, newName: Option<string>, isStarred: Option<bool>, isDeleted: Option<bool>, now: int): (r: FileDoc)
    ensures TrashConsistent(d) ==> TrashConsistent(r)
    ensures isDeleted.Some? ==> TrashConsistent(r)
    ensures r.id == d.id && r.userId == d.userId && r.createdAt == d.createdAt && r.updatedAt == now
    ensures r.originalName == d.originalName && r.size == d.size && r.mimeType == d.mimeType
    ensures r.publicId == d.publicId && r.url == d.url && r.thumbnailUrl == d.thumbnailUrl
    ensures r.name == (if Truthy(newName) then newName.value else d.name)
    ensures r.isStarred == (if isStarred.Some? then isStarred.value else d.isStarred)
    ensures isDeleted.Some? ==>
      r.isDeleted == isDeleted.value && r.deletedAt == (if isDeleted.value then Some(now) else None)
    ensures isDeleted.None? ==> r.isDeleted == d.isDeleted && r.deletedAt == d.deletedAt
  {
    var renamed := if Truthy(newName) then d.(name := newName.value) else d;
    var starred := if isStarred.Some? then renamed.(isStarred := isStarred.value) else renamed;
    var trashed := match isDeleted
      case None => starred
      case Some(del) => starred.(isDeleted := del, deletedAt := if del then Some(now) else None);
    trashed.(updatedAt := now)
  }

  /** Moving a file to the trash and restoring it gives the file back,
      apart from its modification time. */
  lemma TrashThenRestore(d: FileDoc, t1: int, t2: int)
    requires !d.isDeleted && TrashConsistent(d)
    ensures ApplyPatch(ApplyPatch(d, None, None, Some(true), t1), None, None, Some(false), t2) == d.(updatedAt := t2)
  {
  }

  /** Starring with the negation of the current flag twice gives the flag
      back. */
  lemma StarTwice(d: FileDoc, t1: int, t2: int)
    ensures var once := ApplyPatch(d, None, Some(!d.isStarred), None, t1);
      ApplyPatch(once, None, Some(!once.isStarred), None, t2) == d.(updatedAt := t2)
  {
  }

  /** A patch with an empty or absent new name keeps the name. */
  lemma FalsyNameKept(d: FileDoc, newName: Option<string>, isStarred: Option<bool>, isDeleted: Option<bool>, now: int)
    requires !Truthy(newName)
    ensures ApplyPatch(d, newName, isStarred, isDeleted, now).name == d.name
  {
  }

  /** The document `{ _id: fileId, user_id: userId }` reaches first. */
  function FindOwned(files: seq<FileDoc>, fileId: string, userId: string): (r: Option<nat>)
    ensures r.Some? ==> r.value < |files| && files[r.value].id == fileId && files[r.value].userId == userId
    ensures r.Some? ==> forall j :: 0 <= j < r.value ==> !(files[j].id == fileId && files[j].userId == userId)
    ensures r.None? <==> forall j :: 0 <= j < |files| ==> !(files[j].id == fileId && files[j].userId == userId)
  {
    FirstIndex(files, (d: FileDoc) => d.id == fileId && d.userId == userId)
  }

  function OwnedBy(userId: string): FileDoc -> bool {
    (d: FileDoc) => d.userId == userId
  }

  ghost predicate NewestFirst(s: seq<FileDoc>) {
    forall i, j :: 0 <= i < j < |s| ==> s[i].createdAt >= s[j].createdAt
  }

  /** `d` placed before the first document that is not newer. */
  function InsertByDate(d: FileDoc, s: seq<FileDoc>): (r: seq<FileDoc>)
    ensures multiset(r) == multiset(s) + multiset{d}
  {
    if s == [] || s[0].createdAt <= d.createdAt then
      [d] + s
    else
      assert s == [s[0]] + s[1..];
      [s[0]] + InsertByDate(d, s[1..])
  }

  lemma {:induction false} InsertByDateSorted(d: FileDoc, s: seq<FileDoc>)
    requires NewestFirst(s)
    ensures NewestFirst(InsertByDate(d, s))
  {
    if s != [] && s[0].createdAt > d.createdAt {
      var rest := InsertByDate(d, s[1..]);
      InsertByDateSorted(d, s[1..]);
      forall j | 0 <= j < |rest|
        ensures s[0].createdAt >= rest[j].createdAt
      {
        assert rest[j] in multiset(rest);
        if rest[j] != d {
          assert rest[j] in multiset(s[1..]);
          var k :| 0 <= k < |s[1..]| && s[1..][k] == rest[j];
          assert s[k + 1] == rest[j];
        }
      }
    }
  }

  /** `.sort({ created_at: -1 })` as an insertion sort. Documents with
      equal times keep their stored order. */
  function SortNewestFirst(s: seq<FileDoc>): (r: seq<FileDoc>)
    ensures multiset(r) == multiset(s)
  {
    if s == [] then []
    else
      assert s == [s[0]] + s[1..];
      InsertByDate(s[0], SortNewestFirst(s[1..]))
  }

  /** The sort yields newest first. */
  lemma {:induction false} SortNewestFirstSorted(s: seq<FileDoc>)
    ensures NewestFirst(SortNewestFirst(s))
  {
    if s != [] {
      SortNewestFirstSorted(s[1..]);
      InsertByDateSorted(s[0], SortNewestFirst(s[1..]));
    }
  }

  /** The `list` reply: the owner's documents, newest first. */
  function Listing(files: seq<FileDoc>, userId: string): (r: seq<FileDoc>)
    ensures NewestFirst(r)
    ensures forall d :: d in r <==> d in files && d.userId == userId
    ensures multiset(r) == multiset(Filter(files, OwnedBy(userId)))
  {
    var owned := Filter(files, OwnedBy(userId));
    var sorted := SortNewestFirst(owned);
    SortNewestFirstSorted(owned);
    SameElements(sorted, owned);
    sorted
  }

  /** The collection after `updateOne`. */
  function Updated(files: seq<FileDoc>, fileId: string, userId: string,
    newName: Option<string>, isStarred: Option<bool>, isDeleted: Option<bool>, now: int): (r: seq<FileDoc>)
    ensures |r| == |files|
    ensures forall i :: 0 <= i < |files| && files[i].userId != userId ==> r[i] == files[i]
    ensures forall i :: 0 <= i < |files| && files[i].id != fileId ==> r[i] == files[i]
    ensures forall i :: 0 <= i < |files| ==> r[i].id == files[i].id && r[i].userId == files[i].userId
    ensures match FindOwned(files, fileId, userId)
      case None => r == files
      case Some(i) => r[i] == ApplyPatch(files[i], newName, isStarred, isDeleted, now)
  {
    match FindOwned(files, fileId, userId)
    case None => files
    case Some(i) => files[i := ApplyPatch(files[i], newName, isStarred, isDeleted, now)]
  }

  /** The collection after `deleteOne`. */
  function Deleted(files: seq<FileDoc>, fileId: string, userId: string): (r: seq<FileDoc>)
    ensures FindOwned(files, fileId, userId).None? ==> r == files
    ensures FindOwned(files, fileId, userId).Some? ==> |r| == |files| - 1
    ensures forall d :: d in files && d.userId != userId ==> d in r
    ensures forall d :: d in r ==> d in files
    ensures FindOwned(files, fileId, userId).Some? ==>
      var i := FindOwned(files, fileId, userId).value;
      multiset(r) == multiset(files) - multiset{files[i]} && IsSubsequence(r, files)
  {
    match FindOwned(files, fileId, userId)
    case None => files
    case Some(i) =>
      var r := RemoveAt(files, i);
      assert forall d :: d in r ==> d in multiset(files);
      assert forall d :: d in files && d != files[i] ==> d in multiset(r);
      r
  }

  class FileTable {
    /** `MONGODB_URI` after the load-time rewrite. */
    const uri: Option<string>
    var files: seq<FileDoc>

    ghost predicate Valid()
      reads this
    {
      UniqueIds(files) && forall i :: 0 <= i < |files| ==> TrashConsistent(files[i])
    }

    constructor (env: Option<string>, files: seq<FileDoc>)
      requires UniqueIds(files) && forall i :: 0 <= i < |files| ==> TrashConsistent(files[i])
      ensures Valid()
      ensures this.uri == MongoConfig.LoadUri(env) && this.files == files
    {
      this.uri := MongoConfig.LoadUri(env);
      this.files := files;
    }

    /** `list`: `find({ user_id }).sort({ created_at: -1 })` */
    method List(userId: string) returns (r: FilesReply)
      ensures r == Listed(Listing(files, userId))
    {
      r := Listed(Listing(files, userId));
    }

    /** `create`: a fresh document owned by `userId`. The driver rejects an
        `_id` already taken, and the handler reports it as a 500. */
    method Create(userId: string, data: FileData, now: int, newId: string) returns (r: FilesReply)
      requires Valid()
      modifies this
      ensures Valid()
      ensures (exists i :: 0 <= i < |old(files)| && old(files)[i].id == newId) ==>
        r == Failure(500, DuplicateKey) && files == old(files)
      ensures (forall i :: 0 <= i < |old(files)| ==> old(files)[i].id != newId) ==>
        r == Created(NewDoc(newId, userId, data, now)) && files == old(files) + [NewDoc(newId, userId, data, now)]
    {
      var taken := FirstIndex(files, (d: FileDoc) => d.id == newId);
      if taken.Some? {
        return Failure(500, DuplicateKey);
      }
      var doc := NewDoc(newId, userId, data, now);
      files := files + [doc];
      r := Created(doc);
    }

    /** `update`: patches the owner's document, if there is one, and
        reports success either way. */
    method Update(fileId: string, userId: string,
      newName: Option<string>, isStarred: Option<bool>, isDeleted: Option<bool>, now: int)
      returns (r: FilesReply)
      requires Valid()
      modifies this
      ensures Valid()
      ensures files == Updated(old(files), fileId, userId, newName, isStarred, isDeleted, now)
      ensures r == Succeeded
    {
      files := Updated(files, fileId, userId, newName, isStarred, isDeleted, now);
      r := Succeeded;
    }

    /** `delete`: removes the owner's document, if there is one, and
        reports success either way. */
    method Delete(fileId: string, userId: string) returns (r: FilesReply)
      requires Valid()
      modifies this
      ensures Valid()
      ensures files == Deleted(old(files), fileId, userId)
      ensures r == Succeeded
    {
      var found := FindOwned(files, fileId, userId);
      if found.Some? {
        files := RemoveAt(files, found.value);
      }
      r := Succeeded;
    }

    /** The request handler after the CORS preflight. A `create` without
        `file_data` throws on `file_data.name` and is reported as a 500. */
    method Handle(req: FilesRequest, now: int, newId: string) returns (r: FilesReply)
      requires Valid()
      modifies this
      ensures Valid()
      ensures !Truthy(uri) ==> r == Failure(500, NotConfigured) && unchanged(this)
      ensures Truthy(uri) && req.action == "list" ==>
        r == Listed(Listing(files, req.userId)) && unchanged(this)
      ensures Truthy(uri) && req.action == "create" && req.fileData.None? ==>
        r == Failure(500, MissingFileData) && unchanged(this)
      ensures Truthy(uri) && req.action == "create" && req.fileData.Some? ==>
        if exists i :: 0 <= i < |old(files)| && old(files)[i].id == newId then
          r == Failure(500, DuplicateKey) && files == old(files)
        else
          var doc := NewDoc(newId, req.userId, req.fileData.value, now);
          r == Created(doc) && files == old(files) + [doc]
      ensures Truthy(uri) && req.action == "update" ==>
        r == Succeeded && files == Updated(old(files), req.fileId, req.userId, req.newName, req.isStarred, req.isDeleted, now)
      ensures Truthy(uri) && req.action == "delete" ==>
        r == Succeeded && files == Deleted(old(files), req.fileId, req.userId)
      ensures Truthy(uri) && req.action !in {"list", "create", "update", "delete"} ==>
        r == Failure(400, InvalidAction) && unchanged(this)
    {
      if !Truthy(uri) {
        return Failure(500, NotConfigured);
      }
      match req.action
      case "list" =>
        r := List(req.userId);
      case "create" =>
        if req.fileData.None? {
          return Failure(500, MissingFileData);
        }
        r := Create(req.userId, req.fileData.value, now, newId);
      case "update" =>
        r := Update(req.fileId, req.userId, req.newName, req.isStarred, req.isDeleted, now);
      case "delete" =>
        r := Delete(req.fileId, req.userId);
      case _ =>
        r := Failure(400, InvalidAction);
    }
  }

  /** An update naming someone else's file leaves every other owner's
      listing as it was. */
  lemma UpdateKeepsOtherListings(files: seq<FileDoc>, fileId: string, userId: string,
    newName: Option<string>, isStarred: Option<bool>, isDeleted: Option<bool>, now: int, other: string)
    requires other != userId
    ensures Listing(Updated(files, fileId, userId, newName, isStarred, isDeleted, now), other) == Listing(files, other)
  {
    var after := Updated(files, fileId, userId, newName, isStarred, isDeleted, now);
    FilterPointwise(after, files, OwnedBy(other));
  }

  /** A delete leaves every other owner's listing as it was. */
  lemma DeleteKeepsOtherListings(files: seq<FileDoc>, fileId: string, userId: string, other: string)
    requires other != userId
    ensures Listing(Deleted(files, fileId, userId), other) == Listing(files, other)
  {
    var found := FindOwned(files, fileId, userId);
    if found.Some? {
      FilterRemoveAt(files, found.value, OwnedBy(other));
    }
  }

  /** Only the owner can change a file: a request naming a file with a
      user who does not own it changes nothing. */
  lemma UpdateByStrangerIsNoop(files: seq<FileDoc>, fileId: string, userId: string,
    newName: Option<string>, isStarred: Option<bool>, isDeleted: Option<bool>, now: int)
    requires forall i :: 0 <= i < |files| && files[i].id == fileId ==> files[i].userId != userId
    ensures Updated(files, fileId, userId, newName, isStarred, isDeleted, now) == files
    ensures Deleted(files, fileId, userId) == files
  {
  }

  /** After the owner deletes a file, the owner's listing no longer shows
      it. */
  lemma DeleteThenList(files: seq<FileDoc>, fileId: string, userId: string)
    requires UniqueIds(files)
    ensures forall d :: d in Listing(Deleted(files, fileId, userId), userId) ==> d.id != fileId
  {
    var found := FindOwned(files, fileId, userId);
    if found.Some? {
      var i := found.value;
      var after := RemoveAt(files, i);
      forall j | 0 <= j < |after| && after[j].userId == userId
        ensures after[j].id != fileId
      {
        if j < i {
          assert after[j] == files[j];
        } else {
          assert after[j] == files[j + 1];
        }
      }
    }
  }

  /** A created file appears in its owner's listing, unmodified. */
  lemma CreateThenList(files: seq<FileDoc>, userId: string, data: FileData, now: int, newId: string)
    ensures NewDoc(newId, userId, data, now) in Listing(files + [NewDoc(newId, userId, data, now)], userId)
  {
    var doc := NewDoc(newId, userId, data, now);
    assert (files + [doc])[|files|] == doc;
  }
}
