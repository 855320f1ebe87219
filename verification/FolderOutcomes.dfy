/**
 What each folder request leaves in the tables, told by the rows alone, and exactly when it is
 accepted.
 */
module FolderOutcomes {
  import opened Wrappers
  import opened Text
  import opened Folders

  /** `name` is the text of `raw` without the white space around it, and may name a folder. */
  ghost predicate Names(raw: string, name: string) {
    IsTrimmed(raw, name) && name != "" && ByteLength(name) <= 255 && forall k :: 0 <= k < |name| ==> name[k] !in {'/', '\\', '\0'}
  }

  ghost predicate MayName(raw: string) {
    exists name :: Names(raw, name)
  }

  lemma NamesIffValid(raw: string, name: string)
    ensures Names(raw, name) <==> ValidateName(raw) == Some(name)
    ensures MayName(raw) <==> ValidateName(raw).Some?
  {
    hide IsTrimmed, Trim;
    forall n ensures IsTrimmed(raw, n) <==> n == Trim(raw) { TrimIff(raw, n); }
    if ValidateName(raw).Some? { assert Names(raw, Trim(raw)); }
  }

  predicate Free(s: Store, project: Id, parent: Option<Id>, name: string, except: Option<Id>) {
    forall f :: f in s.folders && s.folders[f].active && s.folders[f].project == project && s.folders[f].parent == parent && except != Some(f) ==>
      s.folders[f].name != name
  }

  /** The parent, if there is one, is an active folder of the project. */
  predicate Fits(s: Store, project: Id, parent: Option<Id>) {
    parent.Some? ==> parent.value in s.folders && s.folders[parent.value].active && s.folders[parent.value].project == project
  }

  /** `t` is `s` with one row set. */
  ghost predicate RowSet(s: Store, t: Store, id: Id, row: Folder, nextId: Id) {
    t.folders == s.folders[id := row] && t.files == s.files && t.nextId == nextId
  }

  lemma ActiveIdsArePositive(run: seq<Request>, i: nat)
    requires i <= |run|
    ensures forall f :: f in After(run, i).folders ==> 1 <= f < After(run, i).nextId
  {
    hide ParentInv, NameInv, FileInv, After;
    RunIsSound(run, i);
  }

  /**
   A folder is created exactly if the name is one, the parent fits and no active sibling has the
   name; it is then a new active row with just that parent and project, and with name and
   description as given, trimmed. A refusal changes nothing and says why.
   */
  lemma CreateStores(run: seq<Request>, i: nat, project: Id, parent: Option<Id>, raw: string, description: string, name: string, text: string)
    requires i < |run| && run[i] == CreateFolder(project, parent, raw, description) && IsTrimmed(raw, name) && IsTrimmed(description, text)
    ensures var s, t, r := After(run, i), After(run, i + 1), Serve(After(run, i), run[i]).1;
      if Names(raw, name) && Fits(s, project, parent) && Free(s, project, parent, name, None)
      then r == Ok(s.nextId) && s.nextId !in s.folders && RowSet(s, t, s.nextId, Folder(parent := parent, project := project, name := name, description := text, active := true), s.nextId + 1)
      else r.Err? && t == s
    ensures var s, r := After(run, i), Serve(After(run, i), run[i]).1;
      && (r == Err(BadName) <==> !Names(raw, name))
      && (r == Err(NameTaken) <==> Names(raw, name) && Fits(s, project, parent) && !Free(s, project, parent, name, None))
  {
    hide ValidateName, Trim, IsTrimmed, Names, MayName;
    ActiveIdsArePositive(run, i);
    NamesIffValid(raw, name);
    OnlyTrimmed(raw, name);
    OnlyTrimmed(description, text);
    ValidIsTrimmed(raw);
    assert After(run, i + 1) == Serve(After(run, i), run[i]).0;
    hide After;
  }

  lemma ValidIsTrimmed(raw: string)
    ensures ValidateName(raw).Some? ==> ValidateName(raw).value == Trim(raw)
  {
    hide Trim;
  }

  lemma OnlyTrimmed(raw: string, text: string)
    requires IsTrimmed(raw, text)
    ensures text == Trim(raw)
  {
    TrimIff(raw, text);
  }

  /**
   An update is accepted exactly for an active folder, and, if it renames, for a name that no
   other active sibling has; it sets what it was given and leaves the rest of the row, and all
   other rows.
   */
  lemma UpdateStores(run: seq<Request>, i: nat, id: Id, rename: Option<string>, describe: Option<string>, name: string, text: string)
    requires i < |run| && run[i] == UpdateFolder(id, rename, describe)
    requires (rename.Some? ==> IsTrimmed(rename.value, name)) && (describe.Some? ==> IsTrimmed(describe.value, text))
    ensures var s, t, r := After(run, i), After(run, i + 1), Serve(After(run, i), run[i]).1;
      if id in s.folders && s.folders[id].active
         && (rename.Some? ==> Names(rename.value, name) && Free(s, s.folders[id].project, s.folders[id].parent, name, Some(id)))
      then
        && r == Ok(id)
        && RowSet(s, t, id, s.folders[id].(name := if rename.Some? then name else s.folders[id].name,
                                           description := if describe.Some? then text else s.folders[id].description), s.nextId)
      else r.Err? && t == s
  {
    hide ValidateName, Trim, IsTrimmed, Names, MayName;
    ActiveIdsArePositive(run, i);
    if rename.Some? {
      NamesIffValid(rename.value, name);
      ValidIsTrimmed(rename.value);
      OnlyTrimmed(rename.value, name);
    }
    if describe.Some? { OnlyTrimmed(describe.value, text); }
    assert After(run, i + 1) == Serve(After(run, i), run[i]).0;
    hide After;
  }

  /** A file is moved exactly if it is known and the folder, if any, is active; nothing else moves. */
  lemma MovePlaces(run: seq<Request>, i: nat, file: Id, folder: Option<Id>)
    requires i < |run| && run[i] == MoveFile(file, folder)
    ensures var s, t, r := After(run, i), After(run, i + 1), Serve(After(run, i), run[i]).1;
      if file > 0 && file in s.files && (folder.Some? ==> folder.value in s.folders && s.folders[folder.value].active)
      then r == Ok(file) && t == s.(files := s.files[file := folder])
      else r.Err? && t == s
  {
    ActiveIdsArePositive(run, i);
    assert After(run, i + 1) == Serve(After(run, i), run[i]).0;
    hide After;
  }
}
