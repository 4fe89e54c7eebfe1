/** The file grid's view of the cached files (`FileGrid`): the sidebar
    folder picks a subset, then a case-insensitive search on the name
    narrows it. Both keep the cached order. */
module FileGrid {
  import opened Base
  import opened Seqs
  import opened FileStore
  import FilesServer

  /** `toLowerCase` on one character, for the ASCII letters. */
  function LowerChar(c: char): (d: char)
    ensures 'A' <= c <= 'Z' ==> d as int == c as int + 32
    ensures !('A' <= c <= 'Z') ==> d == c
    ensures !('A' <= d <= 'Z')
  {
    if 'A' <= c <= 'Z' then (c as int + 32) as char else c
  }

  /** `s.toLowerCase()` */
  function Lower(s: string): (r: string)
    ensures |r| == |s|
    ensures forall i :: 0 <= i < |s| ==> r[i] == LowerChar(s[i])
  {
    if s == [] then [] else [LowerChar(s[0])] + Lower(s[1..])
  }

  lemma LowerIdempotent(s: string)
    ensures Lower(Lower(s)) == Lower(s)
  {
    var once := Lower(s);
    assert forall i :: 0 <= i < |s| ==> Lower(once)[i] == once[i];
  }

  /** `s.includes(sub)`: `sub` starts at the first position of `s` or
      somewhere in the rest. */
  predicate Contains(s: string, sub: string)
    decreases |s|
  {
    StartsWith(s, sub) || (s != [] && Contains(s[1..], sub))
  }

  /** `Contains` is the search for an occurrence position. */
  lemma {:induction false} ContainsAt(s: string, sub: string)
    ensures Contains(s, sub) <==> exists i :: OccursAt(s, sub, i)
    decreases |s|
  {
    if StartsWith(s, sub) {
      assert OccursAt(s, sub, 0);
    }
    if s != [] {
      ContainsAt(s[1..], sub);
      if Contains(s[1..], sub) {
        var i :| OccursAt(s[1..], sub, i);
        assert s[i + 1..i + 1 + |sub|] == sub;
        assert OccursAt(s, sub, i + 1);
      }
      if exists i :: OccursAt(s, sub, i) {
        var i :| OccursAt(s, sub, i);
        if i > 0 {
          assert s[1..][i - 1..i - 1 + |sub|] == sub;
          assert OccursAt(s[1..], sub, i - 1);
        }
      }
    }
  }

  /** Every string contains the empty one. */
  lemma ContainsEmpty(s: string)
    ensures Contains(s, "")
  {
  }

  /** The sidebar filter for `currentFolder`; an unknown folder shows what
      "all" shows. */
  function InFolder(folder: string, f: FileItem): (shown: bool)
    ensures folder == "images" ==> (shown <==> f.fileType == Image && !IsSet(f.isDeleted))
    ensures folder == "videos" ==> (shown <==> f.fileType == Video && !IsSet(f.isDeleted))
    ensures folder == "documents" ==> (shown <==> f.fileType == Document && !IsSet(f.isDeleted))
    ensures folder == "starred" ==> (shown <==> IsSet(f.isStarred) && !IsSet(f.isDeleted))
    ensures folder == "trash" ==> (shown <==> IsSet(f.isDeleted))
    ensures folder != "trash" && shown ==> !IsSet(f.isDeleted)
    ensures folder !in {"images", "videos", "documents", "starred", "trash"} ==> (shown <==> !IsSet(f.isDeleted))
  {
    var live := !IsSet(f.isDeleted);
    if folder == "images" then f.fileType == Image && live
    else if folder == "videos" then f.fileType == Video && live
    else if folder == "documents" then f.fileType == Document && live
    else if folder == "starred" then IsSet(f.isStarred) && live
    else if folder == "trash" then IsSet(f.isDeleted)
    else live
  }

  /** The search filter: the name contains the query, ignoring case. */
  function Matches(query: string, f: FileItem): (m: bool)
    ensures m <==> exists i :: OccursAt(Lower(f.name), Lower(query), i)
  {
    var name, q := Lower(f.name), Lower(query);
    ContainsAt(name, q);
    assert Contains(name, q) ==> exists i :: OccursAt(Lower(f.name), Lower(query), i) by {
      if Contains(name, q) {
        var i :| OccursAt(name, q, i);
        assert OccursAt(Lower(f.name), Lower(query), i);
      }
    }
    assert (exists i :: OccursAt(Lower(f.name), Lower(query), i)) ==> Contains(name, q) by {
      if exists i :: OccursAt(Lower(f.name), Lower(query), i) {
        var i :| OccursAt(Lower(f.name), Lower(query), i);
        assert OccursAt(name, q, i);
      }
    }
    Contains(name, q)
  }

  /** `filteredFiles` */
  function FilteredFiles(files: seq<FileItem>, folder: string, query: string): (r: seq<FileItem>)
    ensures IsSubsequence(r, files)
    ensures forall i :: 0 <= i < |r| ==> InFolder(folder, r[i]) && (query != "" ==> Matches(query, r[i]))
    ensures forall i :: 0 <= i < |files| && InFolder(folder, files[i]) && (query == "" || Matches(query, files[i])) ==>
      files[i] in r
  {
    var byFolder := Filter(files, (f: FileItem) => InFolder(folder, f));
    if query != "" then
      var r := Filter(byFolder, (f: FileItem) => Matches(query, f));
      assert IsSubsequence(r, files) by {
        SubsequenceTransitive(r, byFolder, files);
      }
      r
    else byFolder
  }

  /** The grid keeps every copy of a file the folder and the search let
      through, and no copy of any other. */
  lemma FilteredFilesCounts(files: seq<FileItem>, folder: string, query: string)
    ensures var r := FilteredFiles(files, folder, query);
      forall f: FileItem :: (multiset(r)[f] ==
        if InFolder(folder, f) && (query == "" || Matches(query, f)) then multiset(files)[f] else 0)
  {
    var inFolder := (f: FileItem) => InFolder(folder, f);
    var byFolder := Filter(files, inFolder);
    FilterMultiset(files, inFolder);
    if query != "" {
      FilterMultiset(byFolder, (f: FileItem) => Matches(query, f));
    }
  }

  /** `folderTitle` */
  function FolderTitle(folder: string): (title: string)
    ensures folder !in {"images", "videos", "documents", "starred", "trash"} ==> title == "All Files"
    ensures title == "Trash" <==> folder == "trash"
    ensures title == "Images" <==> folder == "images"
    ensures title == "Videos" <==> folder == "videos"
    ensures title == "Documents" <==> folder == "documents"
    ensures title == "Starred" <==> folder == "starred"
    ensures title == "All Files" <==> folder !in {"images", "videos", "documents", "starred", "trash"}
  {
    if folder == "images" then "Images"
    else if folder == "videos" then "Videos"
    else if folder == "documents" then "Documents"
    else if folder == "starred" then "Starred"
    else if folder == "trash" then "Trash"
    else "All Files"
  }

  /** The trash and every other folder show disjoint sets of files. */
  lemma TrashSeparate(files: seq<FileItem>, folder: string, query: string, q2: string)
    requires folder != "trash"
    ensures var trash, other := FilteredFiles(files, "trash", q2), FilteredFiles(files, folder, query);
      forall i, j :: 0 <= i < |trash| && 0 <= j < |other| ==> trash[i] != other[j]
  {
    var trash, other := FilteredFiles(files, "trash", q2), FilteredFiles(files, folder, query);
    forall i, j | 0 <= i < |trash| && 0 <= j < |other|
      ensures trash[i] != other[j]
    {
      assert IsSet(trash[i].isDeleted);
      assert InFolder(folder, other[j]);
    }
  }

  /** The images, videos, documents and starred folders each show part of
      what "all" shows, in the same order. */
  /** A freshly uploaded file appears in "all" and in the folder its MIME
      type picks, and in neither the trash nor the starred folder. */
  lemma UploadShownInItsFolder(file: LocalFile, host: HostUpload, id: string, userId: string, now: int)
    ensures var f := FromDoc(FilesServer.NewDoc(id, userId, Metadata(file, host), now));
      && InFolder("all", f) && !InFolder("trash", f) && !InFolder("starred", f)
      && (InFolder("images", f) <==> StartsWith(file.mimeType, "image/"))
      && (InFolder("videos", f) <==> StartsWith(file.mimeType, "video/"))
      && (InFolder("documents", f) <==> !StartsWith(file.mimeType, "image/") && !StartsWith(file.mimeType, "video/"))
  {
  }

  lemma FolderInsideAll(files: seq<FileItem>, folder: string, query: string)
    requires folder != "trash"
    ensures IsSubsequence(FilteredFiles(files, folder, query), FilteredFiles(files, "all", query))
  {
    var p := (f: FileItem) => InFolder(folder, f);
    var all := (f: FileItem) => InFolder("all", f);
    var m := (f: FileItem) => Matches(query, f);
    if query == "" {
      FilterMonotone(files, p, all);
    } else {
      var pm := (f: FileItem) => p(f) && m(f);
      var am := (f: FileItem) => all(f) && m(f);
      FilterFilter(files, p, m, pm);
      FilterFilter(files, all, m, am);
      FilterMonotone(files, pm, am);
    }
  }

  /** An empty search leaves the folder's selection as it is. */
  lemma EmptyQueryKeepsFolder(files: seq<FileItem>, folder: string)
    ensures FilteredFiles(files, folder, "") == Filter(files, (f: FileItem) => InFolder(folder, f))
  {
  }

  /** The search ignores the case of the query. */
  lemma SearchIgnoresCase(query: string, f: FileItem)
    ensures Matches(query, f) == Matches(Lower(query), f)
  {
    LowerIdempotent(query);
  }
}
