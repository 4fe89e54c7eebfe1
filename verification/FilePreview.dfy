/** The preview dialog (`FilePreviewModal`): the previewed file's position
    in the list the dialog was opened from, the previous and next arrows,
    and the star button. */
module FilePreview {
  import opened Base
  import opened Seqs
  import opened FileStore
  import opened Endpoint
  import FilesServer

  /** `files.findIndex((f) => f.id === file.id)`: the first position
      holding the file's id, or -1. */
  function CurrentIndex(files: seq<FileItem>, id: string): (i: int)
    ensures -1 <= i < |files|
    ensures i >= 0 ==> files[i].id == id && forall j :: 0 <= j < i ==> files[j].id != id
    ensures i == -1 <==> forall j :: 0 <= j < |files| ==> files[j].id != id
  {
    match FindItem(files, id)
    case None => -1
    case Some(i) => i
  }

  /** `hasPrev`: the left arrow is shown. */
  predicate HasPrev(files: seq<FileItem>, id: string) {
    CurrentIndex(files, id) > 0
  }

  /** `hasNext`: the right arrow is shown. */
  predicate HasNext(files: seq<FileItem>, id: string) {
    CurrentIndex(files, id) < |files| - 1
  }

  /** The file the left arrow navigates to: the one just before the first
      file carrying the previewed id. */
  function PrevTarget(files: seq<FileItem>, id: string): (f: FileItem)
    requires HasPrev(files, id)
    ensures exists k :: (1 <= k < |files| && files[k].id == id
      && (forall j :: 0 <= j < k ==> files[j].id != id) && f == files[k - 1])
  {
    files[CurrentIndex(files, id) - 1]
  }

  /** The file the right arrow navigates to: the one just after the first
      file carrying the previewed id, or the first file when none carries
      it. */
  function NextTarget(files: seq<FileItem>, id: string): (f: FileItem)
    requires HasNext(files, id)
    ensures (forall j :: 0 <= j < |files| ==> files[j].id != id) ==> f == files[0]
    ensures (exists j :: 0 <= j < |files| && files[j].id == id) ==>
      exists k :: (0 <= k < |files| - 1 && files[k].id == id
        && (forall j :: 0 <= j < k ==> files[j].id != id) && f == files[k + 1])
  {
    files[CurrentIndex(files, id) + 1]
  }

  /** The arrows only ever point inside the list. */
  lemma ArrowsInBounds(files: seq<FileItem>, id: string)
    ensures HasPrev(files, id) ==> 0 <= CurrentIndex(files, id) - 1 < |files|
    ensures HasNext(files, id) ==> 0 <= CurrentIndex(files, id) + 1 < |files|
  {
  }

  /** A file missing from a non-empty list shows no left arrow, and its
      right arrow leads to the first file. */
  lemma MissingFileNavigatesToFirst(files: seq<FileItem>, id: string)
    requires files != [] && forall j :: 0 <= j < |files| ==> files[j].id != id
    ensures !HasPrev(files, id) && HasNext(files, id) && NextTarget(files, id) == files[0]
  {
  }

  /** In a list without repeated ids, going right and then left comes back
      to the same file. */
  lemma NextThenPrev(files: seq<FileItem>, id: string)
    requires forall i, j :: 0 <= i < j < |files| ==> files[i].id != files[j].id
    requires CurrentIndex(files, id) >= 0 && HasNext(files, id)
    ensures var next := NextTarget(files, id);
      HasPrev(files, next.id) && PrevTarget(files, next.id) == files[CurrentIndex(files, id)]
  {
    var i := CurrentIndex(files, id);
    var next := files[i + 1];
    assert CurrentIndex(files, next.id) == i + 1 by {
      var k := CurrentIndex(files, next.id);
      assert 0 <= k <= i + 1;
    }
  }

  /** In a list without repeated ids, going left and then right comes back
      to the same file. */
  lemma PrevThenNext(files: seq<FileItem>, id: string)
    requires forall i, j :: 0 <= i < j < |files| ==> files[i].id != files[j].id
    requires HasPrev(files, id)
    ensures var prev := PrevTarget(files, id);
      HasNext(files, prev.id) && NextTarget(files, prev.id) == files[CurrentIndex(files, id)]
  {
    var i := CurrentIndex(files, id);
    var prev := files[i - 1];
    assert CurrentIndex(files, prev.id) == i - 1 by {
      var k := CurrentIndex(files, prev.id);
      assert 0 <= k <= i - 1;
    }
  }

  /** `handleStar`: the flag passed to `toggleStar`, `file.isStarred ||
      false`. */
  function StarArgument(file: FileItem): (b: bool)
    ensures b <==> file.isStarred == Some(true)
    ensures forall d: FilesServer.FileDoc {:trigger FromDoc(d)} :: file == FromDoc(d) ==> b == d.isStarred
  {
    IsSet(file.isStarred)
  }

  /** The star button caches the opposite of what the file showed, for
      every cached item with its id, once the endpoint accepts it. */
  lemma StarButtonFlips(s: CacheState, file: FileItem)
    requires FindItem(s.files, file.id).Some?
    ensures var after := Starred(s, file.id, StarArgument(file), Answered(())).state;
      forall i :: 0 <= i < |s.files| && s.files[i].id == file.id ==>
        IsSet(after.files[i].isStarred) == !IsSet(file.isStarred)
  {
  }
}
