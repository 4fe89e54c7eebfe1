/** The rename dialog (`RenameModal`): an edit box seeded with the file's
    name, a Rename button that is disabled for a blank or unchanged name,
    and the Enter key, which submits without that check. A submission
    sends the trimmed name to the store and closes the dialog. */
module RenameModal {
  import opened Base
  import FileStore
  import FilesServer

  /** The characters `String.prototype.trim` removes: white space and line
      terminators. */
  predicate IsSpace(c: char) {
    var n := c as int;
    n == 0x09 || n == 0x0A || n == 0x0B || n == 0x0C || n == 0x0D || n == 0x20
    || n == 0xA0 || n == 0x1680 || (0x2000 <= n <= 0x200A) || n == 0x2028 || n == 0x2029
    || n == 0x202F || n == 0x205F || n == 0x3000 || n == 0xFEFF
  }

  /** The text with its leading white space removed. */
  function TrimStart(s: string): (r: string)
    ensures |r| <= |s| && r == s[|s| - |r|..]
    ensures r == [] || !IsSpace(r[0])
    ensures forall i :: 0 <= i < |s| - |r| ==> IsSpace(s[i])
  {
    if s != [] && IsSpace(s[0]) then TrimStart(s[1..]) else s
  }

  /** The text with its trailing white space removed. */
  function TrimEnd(s: string): (r: string)
    ensures |r| <= |s| && r == s[..|r|]
    ensures r == [] || !IsSpace(r[|r| - 1])
    ensures forall i :: |r| <= i < |s| ==> IsSpace(s[i])
  {
    if s != [] && IsSpace(s[|s| - 1]) then TrimEnd(s[..|s| - 1]) else s
  }

  /** `s.trim()`: a piece of `s` with no white space at either end; what
      it cuts off is white space (`TrimCutsOnlySpace`). */
  function Trim(s: string): (r: string)
    ensures r == [] || (!IsSpace(r[0]) && !IsSpace(r[|r| - 1]))
    ensures exists k :: OccursAt(s, r, k)
    ensures r == [] <==> forall i :: 0 <= i < |s| ==> IsSpace(s[i])
  {
    var t := TrimStart(s);
    var r := TrimEnd(t);
    var k := |s| - |t|;
    assert OccursAt(s, r, k);
    assert r != [] ==> r[0] == t[0];
    r
  }

  /** Everything `Trim` cuts off, before and after the piece it keeps, is
      white space. */
  lemma TrimCutsOnlySpace(s: string)
    ensures exists k :: (OccursAt(s, Trim(s), k)
      && (forall i :: 0 <= i < k ==> IsSpace(s[i]))
      && (forall i :: k + |Trim(s)| <= i < |s| ==> IsSpace(s[i])))
  {
    var t := TrimStart(s);
    var r := TrimEnd(t);
    TrimPieces(s, t, r);
    assert r == Trim(s);
  }

  /** Where `TrimStart` and `TrimEnd` cut `s`: `t` is a suffix of `s`
      after white space, and `r` a prefix of `t` before white space. */
  lemma TrimPieces(s: string, t: string, r: string)
    requires |t| <= |s| && t == s[|s| - |t|..] && forall i :: 0 <= i < |s| - |t| ==> IsSpace(s[i])
    requires |r| <= |t| && r == t[..|r|] && forall i :: |r| <= i < |t| ==> IsSpace(t[i])
    ensures OccursAt(s, r, |s| - |t|)
    ensures forall i :: |s| - |t| + |r| <= i < |s| ==> IsSpace(s[i])
  {
    var k := |s| - |t|;
    assert s[k..k + |r|] == s[k..][..|r|];
    forall i | k + |r| <= i < |s|
      ensures IsSpace(s[i])
    {
      assert s[i] == t[i - k];
    }
  }

  /** Text with no white space at either end is its own trim. */
  lemma TrimmedIsFixed(s: string)
    requires s == [] || (!IsSpace(s[0]) && !IsSpace(s[|s| - 1]))
    ensures Trim(s) == s
  {
  }

  /** Trimming twice is trimming once. */
  lemma TrimIdempotent(s: string)
    ensures Trim(Trim(s)) == Trim(s)
  {
    TrimmedIsFixed(Trim(s));
  }

  /** `disabled` on the Rename button. */
  predicate ButtonDisabled(file: FileStore.FileItem, newName: string) {
    Trim(newName) == [] || newName == file.name
  }

  /** The button is disabled exactly when a submission would send nothing
      or the name is unchanged; an enabled button submits a name that
      differs from the file's. */
  lemma ButtonDisabledExactly(file: FileStore.FileItem, newName: string)
    ensures ButtonDisabled(file, newName) <==> RenameRequest(Some(file), newName).None? || newName == file.name
    ensures !ButtonDisabled(file, newName) ==>
      RenameRequest(Some(file), newName) == Some((file.id, Trim(newName))) && newName != file.name
  {
  }

  /** `handleRename`: the file id and the trimmed name it hands to
      `renameFile`, when there is a file and the name is not blank. */
  function RenameRequest(file: Option<FileStore.FileItem>, newName: string): (r: Option<(string, string)>)
    ensures r.Some? <==> file.Some? && Trim(newName) != []
    ensures r.Some? ==> r.value.0 == file.value.id && r.value.1 == Trim(newName)
    ensures r.Some? ==> r.value.1 != "" && !IsSpace(r.value.1[0]) && !IsSpace(r.value.1[|r.value.1| - 1])
  {
    var trimmed := Trim(newName);
    if file.Some? && trimmed != [] then Some((file.value.id, trimmed)) else None
  }

  /** A rename the dialog submits never sends a blank name, so the files
      endpoint applies it and the cached name agrees with the stored one. */
  lemma SubmittedRenameAgreesWithServer(
    file: Option<FileStore.FileItem>, newName: string, d: FilesServer.FileDoc, now: int)
    requires RenameRequest(file, newName).Some?
    ensures var name := RenameRequest(file, newName).value.1;
      FileStore.FromDoc(FilesServer.ApplyPatch(d, Some(name), None, None, now)) == FileStore.SetName(name)(FileStore.FromDoc(d))
  {
    FileStore.RenameAgreesWithServer(d, RenameRequest(file, newName).value.1, now);
  }

  /** Enter submits what the disabled button would not: the unchanged
      name. */
  lemma EnterSubmitsUnchangedName(file: FileStore.FileItem)
    requires Trim(file.name) != []
    ensures ButtonDisabled(file, file.name)
    ensures RenameRequest(Some(file), file.name) == Some((file.id, Trim(file.name)))
  {
  }

  /** The button is enabled for a name that differs from the file's only
      by a leading space, and then submits the unchanged name. */
  lemma PaddedNameSubmitsSameName(file: FileStore.FileItem)
    requires file.name != [] && !IsSpace(file.name[0]) && !IsSpace(file.name[|file.name| - 1])
    ensures !ButtonDisabled(file, " " + file.name)
    ensures RenameRequest(Some(file), " " + file.name) == Some((file.id, file.name))
  {
    var padded := " " + file.name;
    LeadingSpaceTrimmed(file.name);
    assert padded != file.name by {
      assert |padded| != |file.name|;
    }
  }

  /** Trimming undoes one leading space in front of a name with no white
      space at either end. */
  lemma LeadingSpaceTrimmed(name: string)
    requires name != [] && !IsSpace(name[0]) && !IsSpace(name[|name| - 1])
    ensures Trim(" " + name) == name
  {
    var padded := " " + name;
    assert padded[1..] == name;
    assert TrimStart(padded) == TrimStart(name) == name;
    assert TrimEnd(name) == name;
  }

  class RenameDialog {
    /** The `file` prop: the file being renamed, or none when closed. */
    var file: Option<FileStore.FileItem>
    /** The `newName` state of the edit box. */
    var newName: string

    constructor ()
      ensures file.None? && newName == ""
    {
      file := None;
      newName := "";
    }

    /** A new `file` prop, with the effect that seeds the edit box. */
    method Show(f: Option<FileStore.FileItem>)
      modifies this
      ensures file == f
      ensures f.Some? ==> newName == f.value.name
      ensures f.None? ==> newName == old(newName)
    {
      file := f;
      if f.Some? {
        newName := f.value.name;
      }
    }

    /** `onChange` of the edit box. */
    method Edit(text: string)
      modifies this
      ensures file == old(file) && newName == text
    {
      newName := text;
    }

    /** `handleRename`: on a submission the parent's `onClose` clears the
        `file` prop. */
    method HandleRename() returns (sent: Option<(string, string)>)
      modifies this
      ensures sent == RenameRequest(old(file), old(newName))
      ensures newName == old(newName)
      ensures sent.Some? ==> file.None?
      ensures sent.None? ==> file == old(file)
    {
      if file.Some? && Trim(newName) != [] {
        sent := Some((file.value.id, Trim(newName)));
        file := None;
      } else {
        sent := None;
      }
    }

    /** `onKeyDown` of the edit box. */
    method KeyDown(key: string) returns (sent: Option<(string, string)>)
      modifies this
      ensures key == "Enter" ==> sent == RenameRequest(old(file), old(newName))
      ensures key != "Enter" ==> sent.None? && file == old(file)
      ensures newName == old(newName)
    {
      if key == "Enter" {
        sent := HandleRename();
      } else {
        sent := None;
      }
    }

    /** A click on the Rename button, which does nothing while disabled. */
    method ClickRename() returns (sent: Option<(string, string)>)
      requires file.Some?
      modifies this
      ensures ButtonDisabled(old(file).value, old(newName)) ==> sent.None? && file == old(file)
      ensures !ButtonDisabled(old(file).value, old(newName)) ==> sent == RenameRequest(old(file), old(newName)) && sent.Some?
      ensures newName == old(newName)
    {
      if ButtonDisabled(file.value, newName) {
        sent := None;
      } else {
        sent := HandleRename();
      }
    }
  }
}
