/**
 The folders of a project: a forest kept as rows that name their parent, and the tree the
 service builds from them.

 Each function is one request served alone. Row ids come from the database and only grow.
 */
module Folders {
  import opened Wrappers
  import opened Text

  type Id = int

  datatype Folder = Folder(parent: Option<Id>, project: Id, name: string, description: string, active: bool)

  /** `files` gives the folder column of every file. */
  datatype Store = Store(folders: map<Id, Folder>, files: map<Id, Option<Id>>, nextId: Id)

  const EMPTY := Store(map[], map[], 1)

  datatype Error = BadName | BadParent | BadId | NotFound | OtherProject | NameTaken
  datatype Result = Ok(id: Id) | Err(error: Error)

  // Names.

  function ByteLength(s: string): nat {
    if s == [] then 0
    else
      var n := s[0] as int;
      (if n < 0x80 then 1 else if n < 0x800 then 2 else if n < 0x10000 then 3 else 4) + ByteLength(s[1..])
  }

  predicate Allowed(name: string) {
    && name != [] && ByteLength(name) <= 255
    && '/' !in name && '\\' !in name && '\0' !in name
  }

  function ValidateName(name: string): Option<string> {
    if Allowed(Trim(name)) then Some(Trim(name)) else None
  }

  /** What validation lets through is a name that validation leaves alone. */
  lemma ValidatedNamesAreStable(name: string)
    requires ValidateName(name).Some?
    ensures ValidateName(ValidateName(name).value) == ValidateName(name)
  {
    TrimIsStable(name);
  }

  // Requests.

  predicate IsActive(folders: map<Id, Folder>, id: Id) {
    id in folders && folders[id].active
  }

  /** An active sibling other than `except` already has the name. */
  predicate NameInUse(folders: map<Id, Folder>, project: Id, parent: Option<Id>, name: string, except: Option<Id>) {
    exists f :: f in folders && folders[f].active && folders[f].project == project
      && folders[f].parent == parent && folders[f].name == name && except != Some(f)
  }

  function Lookup(s: Store, id: Id): Option<Error> {
    if id <= 0 then Some(BadId) else if IsActive(s.folders, id) then None else Some(NotFound)
  }

  function Insert(s: Store, f: Folder): Store {
    s.(folders := s.folders[s.nextId := f], nextId := s.nextId + 1)
  }

  function Create(s: Store, project: Id, parent: Option<Id>, name: string, description: string): (Store, Result) {
    var valid := ValidateName(name);
    if valid.None? then (s, Err(BadName))
    else if parent.Some? && parent.value <= 0 then (s, Err(BadParent))
    else if parent.Some? && Lookup(s, parent.value).Some? then (s, Err(NotFound))
    else if parent.Some? && s.folders[parent.value].project != project then (s, Err(OtherProject))
    else if NameInUse(s.folders, project, parent, valid.value, None) then (s, Err(NameTaken))
    else (Insert(s, Folder(parent, project, valid.value, Trim(description), true)), Ok(s.nextId))
  }

  function Update(s: Store, id: Id, name: Option<string>, description: Option<string>): (Store, Result) {
    var missing := Lookup(s, id);
    if missing.Some? then (s, Err(missing.value))
    else
      var f := s.folders[id];
      var described := if description.Some? then f.(description := Trim(description.value)) else f;
      if name.None? then (s.(folders := s.folders[id := described]), Ok(id))
      else
        var valid := ValidateName(name.value);
        if valid.None? then (s, Err(BadName))
        else if NameInUse(s.folders, f.project, f.parent, valid.value, Some(id)) then (s, Err(NameTaken))
        else (s.(folders := s.folders[id := described.(name := valid.value)]), Ok(id))
  }

  /** The active folders whose parent lies in `found`. */
  function Children(folders: map<Id, Folder>, found: set<Id>): set<Id> {
    set c | c in folders && folders[c].active && folders[c].parent.Some? && folders[c].parent.value in found
  }

  /** The recursive query: keeps adding children until there are no new ones. */
  function Closure(folders: map<Id, Folder>, found: set<Id>): set<Id>
    requires found <= folders.Keys
    decreases folders.Keys - found
  {
    var more := Children(folders, found);
    if more <= found then found else Closure(folders, found + more)
  }

  function MarkDeleted(folders: map<Id, Folder>, gone: set<Id>): map<Id, Folder> {
    map f | f in folders :: if f in gone then folders[f].(active := false) else folders[f]
  }

  function Detach(files: map<Id, Option<Id>>, gone: set<Id>): map<Id, Option<Id>> {
    map x | x in files :: if files[x].Some? && files[x].value in gone then None else files[x]
  }

  function Delete(s: Store, id: Id): (Store, Result) {
    var missing := Lookup(s, id);
    if missing.Some? then (s, Err(missing.value))
    else
      var gone := Closure(s.folders, {id});
      (s.(folders := MarkDeleted(s.folders, gone), files := Detach(s.files, gone)), Ok(id))
  }

  function Move(s: Store, file: Id, folder: Option<Id>): (Store, Result) {
    if file <= 0 then (s, Err(BadId))
    else if folder.Some? && Lookup(s, folder.value).Some? then (s, Err(Lookup(s, folder.value).value))
    else if file !in s.files then (s, Err(NotFound))
    else (s.(files := s.files[file := folder]), Ok(file))
  }

  // Runs.

  datatype Request =
    | CreateFolder(project: Id, parent: Option<Id>, name: string, description: string)
    | UpdateFolder(id: Id, rename: Option<string>, describe: Option<string>)
    | DeleteFolder(id: Id)
    | MoveFile(file: Id, folder: Option<Id>)
    | AddFile(newFile: Id)

  function Serve(s: Store, q: Request): (Store, Result) {
    match q
    case CreateFolder(project, parent, name, description) => Create(s, project, parent, name, description)
    case UpdateFolder(id, name, description) => Update(s, id, name, description)
    case DeleteFolder(id) => Delete(s, id)
    case MoveFile(file, folder) => Move(s, file, folder)
    case AddFile(file) => if file in s.files then (s, Err(BadId)) else (s.(files := s.files[file := None]), Ok(file))
  }

  function After(run: seq<Request>, i: nat): Store
    requires i <= |run|
  {
    if i == 0 then EMPTY else Serve(After(run, i - 1), run[i - 1]).0
  }

  // The invariant.

  ghost predicate IdInv(s: Store) {
    s.nextId >= 1 && forall f :: f in s.folders ==> 1 <= f < s.nextId
  }

  /** Parents are older rows of the same project, and an active folder has an active parent. */
  ghost predicate ParentInv(folders: map<Id, Folder>) {
    forall f :: f in folders && folders[f].parent.Some? ==>
      var p := folders[f].parent.value;
      p in folders && p < f && folders[p].project == folders[f].project && (folders[f].active ==> folders[p].active)
  }

  predicate Siblings(a: Folder, b: Folder) {
    a.active && b.active && a.project == b.project && a.parent == b.parent
  }

  ghost predicate NameInv(folders: map<Id, Folder>) {
    && (forall f, g :: f in folders && g in folders && Siblings(folders[f], folders[g]) && folders[f].name == folders[g].name ==> f == g)
    && (forall f :: f in folders ==> ValidateName(folders[f].name) == Some(folders[f].name))
  }

  ghost predicate FileInv(s: Store) {
    forall x :: x in s.files && s.files[x].Some? ==> IsActive(s.folders, s.files[x].value)
  }

  ghost predicate Inv(s: Store) {
    IdInv(s) && ParentInv(s.folders) && NameInv(s.folders) && FileInv(s)
  }

  lemma InsertKeepsInv(s: Store, f: Folder)
    requires Inv(s) && f.active && ValidateName(f.name) == Some(f.name)
    ensures Inv(Insert(s, f)) <==> ParentFits(s.folders, f.parent, f.project) && !NameInUse(s.folders, f.project, f.parent, f.name, None)
  {
    hide ValidateName;
    var t := Insert(s, f);
    assert s.nextId !in s.folders && t.folders[s.nextId] == f;
    assert IdInv(t) && FileInv(t);
    InsertKeepsParents(s.folders, s.nextId, f);
    InsertKeepsNames(s.folders, s.nextId, f);
    hide ParentInv, NameInv, NameInUse;
  }

  /** A parent is active and of the project; the root always fits. */
  predicate ParentFits(folders: map<Id, Folder>, parent: Option<Id>, project: Id) {
    parent.Some? ==> IsActive(folders, parent.value) && folders[parent.value].project == project
  }

  lemma InsertKeepsParents(folders: map<Id, Folder>, id: Id, f: Folder)
    requires ParentInv(folders) && (forall g :: g in folders ==> 1 <= g < id) && f.active
    ensures ParentInv(folders[id := f])
      <==> ParentFits(folders, f.parent, f.project)
  {
    assert folders[id := f][id] == f;
  }

  lemma InsertKeepsNames(folders: map<Id, Folder>, id: Id, f: Folder)
    requires NameInv(folders) && id !in folders && f.active && ValidateName(f.name) == Some(f.name)
    ensures NameInv(folders[id := f]) <==> !NameInUse(folders, f.project, f.parent, f.name, None)
  {
    hide ValidateName;
    var more := folders[id := f];
    if NameInUse(folders, f.project, f.parent, f.name, None) {
      var g :| g in folders && folders[g].active && folders[g].project == f.project && folders[g].parent == f.parent && folders[g].name == f.name;
      assert more[g] == folders[g] && Siblings(more[g], more[id]);
    } else {
      assert forall g :: g in folders ==> !(Siblings(folders[g], f) && folders[g].name == f.name);
    }
  }

  lemma CreateIsSound(s: Store, project: Id, parent: Option<Id>, name: string, description: string)
    requires Inv(s)
    ensures Inv(Create(s, project, parent, name, description).0)
  {
    hide Inv, ValidateName, NameInUse, Trim;
    var valid := ValidateName(name);
    if valid.Some? {
      ValidatedNamesAreStable(name);
      InsertKeepsInv(s, Folder(parent, project, valid.value, Trim(description), true));
    }
  }

  lemma RowUpdated(s: Store, id: Id, f: Folder)
    requires Inv(s) && id in s.folders && f.parent == s.folders[id].parent && f.project == s.folders[id].project && f.active == s.folders[id].active
    requires f.name == s.folders[id].name || (ValidateName(f.name) == Some(f.name) && !NameInUse(s.folders, f.project, f.parent, f.name, Some(id)))
    ensures Inv(s.(folders := s.folders[id := f]))
  {
    hide ValidateName;
    var t := s.(folders := s.folders[id := f]);
    assert IdInv(t) && FileInv(t) && ParentInv(t.folders);
    hide IdInv, FileInv, ParentInv;
    if f.name != s.folders[id].name {
      assert forall g :: g in s.folders && g != id ==> !(Siblings(s.folders[g], f) && s.folders[g].name == f.name);
    }
    hide NameInUse;
  }

  lemma UpdateIsSound(s: Store, id: Id, name: Option<string>, description: Option<string>)
    requires Inv(s)
    ensures Inv(Update(s, id, name, description).0)
  {
    hide Inv, Trim, NameInUse, ValidateName;
    if Lookup(s, id).None? {
      var f := s.folders[id];
      var described := if description.Some? then f.(description := Trim(description.value)) else f;
      if name.None? {
        RowUpdated(s, id, described);
      } else if ValidateName(name.value).Some? && !NameInUse(s.folders, f.project, f.parent, ValidateName(name.value).value, Some(id)) {
        ValidatedNamesAreStable(name.value);
        RowUpdated(s, id, described.(name := ValidateName(name.value).value));
      }
    }
  }

  // Subtrees.

  /** `x` is the folder `top` or lies below it along active rows. */
  predicate Under(folders: map<Id, Folder>, top: Id, x: Id)
    decreases if x < 0 then 0 else x
  {
    IsActive(folders, x) && (x == top || (folders[x].parent.Some? && 0 <= folders[x].parent.value < x && Under(folders, top, folders[x].parent.value)))
  }

  ghost predicate Closed(folders: map<Id, Folder>, top: Id, found: set<Id>) {
    top in found && forall x :: x in found ==> Under(folders, top, x)
  }

  lemma {:induction false} ClosureIsSubtree(s: Store, top: Id, found: set<Id>)
    requires IdInv(s) && ParentInv(s.folders) && IsActive(s.folders, top) && found <= s.folders.Keys && Closed(s.folders, top, found)
    ensures forall x :: x in Closure(s.folders, found) <==> Under(s.folders, top, x)
    decreases s.folders.Keys - found
  {
    var more := Children(s.folders, found);
    if more <= found {
      forall x | Under(s.folders, top, x)
        ensures x in found
      {
        UnderIsFound(s, top, found, x);
      }
    } else {
      ClosureIsSubtree(s, top, found + more);
    }
  }

  lemma {:induction false} UnderIsFound(s: Store, top: Id, found: set<Id>, x: Id)
    requires IdInv(s) && top in found && Children(s.folders, found) <= found && Under(s.folders, top, x)
    ensures x in found
    decreases if x < 0 then 0 else x
  {
    if x != top {
      UnderIsFound(s, top, found, s.folders[x].parent.value);
      assert x in Children(s.folders, found);
    }
  }

  /** `t` is `s` without the subtree of `id`, whose files are detached. */
  ghost predicate Pruned(s: Store, t: Store, id: Id) {
    && t.folders.Keys == s.folders.Keys && t.files.Keys == s.files.Keys && t.nextId == s.nextId
    && (forall f :: f in s.folders ==> t.folders[f] == if Under(s.folders, id, f) then s.folders[f].(active := false) else s.folders[f])
    && (forall x :: x in s.files ==> t.files[x] == if s.files[x].Some? && Under(s.folders, id, s.files[x].value) then None else s.files[x])
  }

  /** Deleting a folder takes exactly its subtree, detaches exactly the files in it, and changes nothing else. */
  lemma DeleteTakesTheSubtree(s: Store, id: Id)
    requires Inv(s) && IsActive(s.folders, id)
    ensures Delete(s, id).1 == Ok(id) && Pruned(s, Delete(s, id).0, id)
  {
    hide NameInv, FileInv;
    ClosureIsSubtree(s, id, {id});
    hide Closure, Under;
  }

  lemma UnderGoesDown(folders: map<Id, Folder>, id: Id, f: Id)
    requires IsActive(folders, f) && folders[f].parent.Some? && 0 <= folders[f].parent.value < f
    ensures Under(folders, id, folders[f].parent.value) ==> Under(folders, id, f)
  {
  }

  lemma PrunedParents(s: Store, t: Store, id: Id)
    requires IdInv(s) && ParentInv(s.folders) && Pruned(s, t, id)
    ensures ParentInv(t.folders)
  {
    hide Under;
    forall f | f in t.folders && t.folders[f].parent.Some?
      ensures var p := t.folders[f].parent.value;
        p in t.folders && p < f && t.folders[p].project == t.folders[f].project && (t.folders[f].active ==> t.folders[p].active)
    {
      var p := s.folders[f].parent.value;
      assert p in s.folders && 0 <= p < f;
      if s.folders[f].active { UnderGoesDown(s.folders, id, f); }
    }
  }

  lemma PrunedNames(s: Store, t: Store, id: Id)
    requires NameInv(s.folders) && Pruned(s, t, id)
    ensures NameInv(t.folders)
  {
    hide Under, ValidateName;
  }

  lemma PrunedFiles(s: Store, t: Store, id: Id)
    requires IdInv(s) && FileInv(s) && Pruned(s, t, id)
    ensures IdInv(t) && FileInv(t)
  {
    hide Under;
  }

  lemma DeleteIsSound(s: Store, id: Id)
    requires Inv(s)
    ensures Inv(Delete(s, id).0)
  {
    hide IdInv, ParentInv, NameInv, FileInv, Closure, MarkDeleted, Detach;
    if IsActive(s.folders, id) && id > 0 {
      var t := Delete(s, id).0;
      DeleteTakesTheSubtree(s, id);
      hide Delete, Pruned;
      PrunedParents(s, t, id);
      PrunedNames(s, t, id);
      PrunedFiles(s, t, id);
    }
  }

  lemma FileMoveIsSound(s: Store, file: Id, folder: Option<Id>)
    requires Inv(s)
    ensures Inv(Move(s, file, folder).0) && Inv(s.(files := s.files[file := None]))
  {
    hide NameInv, ParentInv;
  }

  lemma ServeIsSound(s: Store, q: Request)
    requires Inv(s)
    ensures Inv(Serve(s, q).0)
  {
    hide Inv, Create, Update, Delete, Move;
    match q
    case CreateFolder(project, parent, name, description) => CreateIsSound(s, project, parent, name, description);
    case UpdateFolder(id, name, description) => UpdateIsSound(s, id, name, description);
    case DeleteFolder(id) => DeleteIsSound(s, id);
    case MoveFile(file, folder) => FileMoveIsSound(s, file, folder);
    case AddFile(file) => FileMoveIsSound(s, file, None);
  }

  lemma EmptyIsSound()
    ensures Inv(EMPTY)
  {
    hide ValidateName;
  }

  /** In every serial run the active folders are closed under parents, acyclic, and uniquely named among siblings. */
  lemma {:induction false} RunIsSound(run: seq<Request>, i: nat)
    requires i <= |run|
    ensures Inv(After(run, i))
  {
    hide Inv, Serve;
    if i == 0 {
      EmptyIsSound();
    } else {
      RunIsSound(run, i - 1);
      ServeIsSound(After(run, i - 1), run[i - 1]);
    }
  }

  // Requests that interleave.

  /**
   The writes that requests make, each one statement or transaction of its own. The checks of
   a request come before its write, and anything may be written in between; so any interleaving
   of requests is some sequence of these.
   */
  datatype Write =
    | InsertFolder(project: Id, parent: Option<Id>, name: string, description: string)
    | RenameFolder(id: Id, name: string)
    | DescribeFolder(id: Id, description: string)
    | DeleteTree(id: Id)
    | PlaceFile(file: Id, folder: Option<Id>)
    | NewFile(file: Id)

  predicate Known(folders: map<Id, Folder>, id: Option<Id>) {
    id.Some? ==> id.value in folders
  }

  /** Foreign keys refuse unknown folders, and the unique index a second active sibling of one name. */
  function Perform(s: Store, x: Write): Store {
    match x
    case InsertFolder(project, parent, name, description) =>
      var valid := ValidateName(name);
      if valid.None? || !Known(s.folders, parent) || NameInUse(s.folders, project, parent, valid.value, None) then s
      else Insert(s, Folder(parent, project, valid.value, Trim(description), true))
    case RenameFolder(id, name) =>
      var valid := ValidateName(name);
      if valid.None? || id !in s.folders then s
      else if s.folders[id].active && NameInUse(s.folders, s.folders[id].project, s.folders[id].parent, valid.value, Some(id)) then s
      else s.(folders := s.folders[id := s.folders[id].(name := valid.value)])
    case DescribeFolder(id, description) =>
      if id !in s.folders then s else s.(folders := s.folders[id := s.folders[id].(description := Trim(description))])
    case DeleteTree(id) => if IsActive(s.folders, id) && id > 0 then Delete(s, id).0 else s
    case PlaceFile(file, folder) => if file !in s.files || !Known(s.folders, folder) then s else s.(files := s.files[file := folder])
    case NewFile(file) => if file in s.files then s else s.(files := s.files[file := None])
  }

  /** The folder that a write hangs something under is, at that moment, still active, and of the project. */
  predicate Timely(s: Store, x: Write) {
    match x
    case InsertFolder(project, parent, name, _) =>
      ValidateName(name).None? || !Known(s.folders, parent) || ParentFits(s.folders, parent, project)
    case PlaceFile(file, folder) => file !in s.files || !Known(s.folders, folder) || (folder.Some? ==> IsActive(s.folders, folder.value))
    case _ => true
  }

  /** Active siblings of a folder live in the project of their parent, and under an active one. */
  lemma TakenNameFits(folders: map<Id, Folder>, project: Id, parent: Option<Id>, name: string)
    requires ParentInv(folders) && NameInUse(folders, project, parent, name, None)
    ensures ParentFits(folders, parent, project)
  {
  }

  lemma InsertSoundIff(s: Store, project: Id, parent: Option<Id>, name: string, description: string)
    requires Inv(s)
    ensures var x := InsertFolder(project, parent, name, description); Inv(Perform(s, x)) <==> Timely(s, x)
  {
    hide IdInv, NameInv, FileInv, ValidateName, NameInUse, ParentFits, Known, ParentInv;
    var valid := ValidateName(name);
    if valid.Some? {
      if NameInUse(s.folders, project, parent, valid.value, None) { TakenNameFits(s.folders, project, parent, valid.value); }
      ValidatedNamesAreStable(name);
      hide Inv;
      InsertKeepsInv(s, Folder(parent, project, valid.value, Trim(description), true));
    }
  }

  lemma RenameIsSound(s: Store, id: Id, name: string)
    requires Inv(s)
    ensures Inv(Perform(s, RenameFolder(id, name)))
  {
    hide Inv, ValidateName, NameInUse;
    if ValidateName(name).Some? && id in s.folders {
      ValidatedNamesAreStable(name);
      var f := s.folders[id].(name := ValidateName(name).value);
      if !s.folders[id].active {
        DeletedRowUpdated(s, id, f);
      } else if !NameInUse(s.folders, f.project, f.parent, f.name, Some(id)) {
        RowUpdated(s, id, f);
      }
    }
  }

  /** A deleted folder may be renamed at will. */
  lemma DeletedRowUpdated(s: Store, id: Id, f: Folder)
    requires Inv(s) && id in s.folders && !s.folders[id].active && ValidateName(f.name) == Some(f.name)
    requires f.parent == s.folders[id].parent && f.project == s.folders[id].project && !f.active
    ensures Inv(s.(folders := s.folders[id := f]))
  {
    hide ValidateName;
  }

  lemma PlaceSoundIff(s: Store, file: Id, folder: Option<Id>)
    requires Inv(s)
    ensures Inv(Perform(s, PlaceFile(file, folder))) <==> Timely(s, PlaceFile(file, folder))
  {
    hide NameInv, ParentInv;
    var t := Perform(s, PlaceFile(file, folder));
    if file in s.files && Known(s.folders, folder) { assert t.files[file] == folder; }
  }

  /** One write keeps a sound forest sound exactly when it is timely. */
  lemma WriteSoundIff(s: Store, x: Write)
    requires Inv(s)
    ensures Inv(Perform(s, x)) <==> Timely(s, x)
  {
    hide Inv, Delete, ParentFits, Known;
    match x
    case InsertFolder(project, parent, name, description) => InsertSoundIff(s, project, parent, name, description);
    case RenameFolder(id, name) => RenameIsSound(s, id, name);
    case DescribeFolder(id, description) =>
      if id in s.folders { RowUpdated(s, id, s.folders[id].(description := Trim(description))); }
    case DeleteTree(id) => if IsActive(s.folders, id) && id > 0 { DeleteIsSound(s, id); }
    case PlaceFile(file, folder) => PlaceSoundIff(s, file, folder);
    case NewFile(file) => FileMoveIsSound(s, file, None);
  }

  function Performed(writes: seq<Write>, i: nat): Store
    requires i <= |writes|
  {
    if i == 0 then EMPTY else Perform(Performed(writes, i - 1), writes[i - 1])
  }

  ghost predicate AllTimely(writes: seq<Write>, i: nat)
    requires i <= |writes|
  {
    forall k :: 0 <= k < i ==> Timely(Performed(writes, k), writes[k])
  }

  ghost predicate AllSound(writes: seq<Write>, n: nat)
    requires n <= |writes|
  {
    forall i :: 0 <= i <= n ==> Inv(Performed(writes, i))
  }

  /**
   However requests interleave, the forest is sound at every moment exactly if every folder
   was still active when a folder was inserted under it or a file placed in it.
   */
  lemma {:induction false} InterleavingsSoundIff(writes: seq<Write>, n: nat)
    requires n <= |writes|
    ensures AllSound(writes, n) <==> AllTimely(writes, n)
  {
    hide Inv, Perform, Timely;
    if n == 0 {
      EmptyIsSound();
    } else {
      InterleavingsSoundIff(writes, n - 1);
      assert AllSound(writes, n) <==> AllSound(writes, n - 1) && Inv(Performed(writes, n));
      assert AllTimely(writes, n) <==> AllTimely(writes, n - 1) && Timely(Performed(writes, n - 1), writes[n - 1]);
      if AllTimely(writes, n - 1) {
        assert Inv(Performed(writes, n - 1));
        WriteSoundIff(Performed(writes, n - 1), writes[n - 1]);
      }
    }
  }

  /** A deletion of the parent between the checks of a create request and its insert breaks the forest. */
  lemma LateInsertOrphans(s: Store, id: Id, project: Id, parent: Id, name: string, description: string)
    requires Inv(s) && IsActive(s.folders, id) && id > 0 && Under(s.folders, id, parent)
    requires Create(s, project, Some(parent), name, description).1.Ok?
    ensures !Inv(Perform(Perform(s, DeleteTree(id)), InsertFolder(project, Some(parent), name, description)))
  {
    hide Inv, ValidateName, NameInUse, Delete;
    DeleteIsSound(s, id);
    DeleteTakesTheSubtree(s, id);
    WriteSoundIff(Delete(s, id).0, InsertFolder(project, Some(parent), name, description));
  }

  /** So does a deletion between the check of a move and its update: the file ends up in a deleted folder. */
  lemma LateMoveStrands(s: Store, id: Id, file: Id, folder: Id)
    requires Inv(s) && IsActive(s.folders, id) && id > 0 && Under(s.folders, id, folder)
    requires Move(s, file, Some(folder)).1.Ok?
    ensures !Inv(Perform(Perform(s, DeleteTree(id)), PlaceFile(file, Some(folder))))
  {
    hide Inv, Delete;
    DeleteIsSound(s, id);
    DeleteTakesTheSubtree(s, id);
    WriteSoundIff(Delete(s, id).0, PlaceFile(file, Some(folder)));
  }

  /** A request served alone makes only timely writes, at most two, and has no other effect. */
  lemma RequestsAreWrites(s: Store, q: Request) returns (x: Write, y: Write)
    requires Inv(s)
    ensures Serve(s, q).1.Ok? ==> Timely(s, x) && Timely(Perform(s, x), y) && Serve(s, q).0 == Perform(Perform(s, x), y)
    ensures Serve(s, q).1.Err? ==> Serve(s, q).0 == s
  {
    hide ValidateName, NameInUse, Trim, Closure, IdInv, ParentInv, NameInv, FileInv;
    var nothing := DeleteTree(0);
    x, y := nothing, nothing;
    match q
    case CreateFolder(project, parent, name, description) => x := InsertFolder(project, parent, name, description);
    case UpdateFolder(id, name, description) =>
      if name.Some? { x := RenameFolder(id, name.value); }
      if description.Some? { y := DescribeFolder(id, description.value); }
    case DeleteFolder(id) => x := DeleteTree(id);
    case MoveFile(file, folder) => x := PlaceFile(file, folder);
    case AddFile(file) => x := NewFile(file);
  }

  /** Nothing lies below itself. */
  lemma {:induction false} NoCycles(s: Store, top: Id, x: Id)
    requires Inv(s) && Under(s.folders, top, x) && x != top
    ensures top < x && !Under(s.folders, x, top)
    decreases if x < 0 then 0 else x
  {
    var p := s.folders[x].parent.value;
    if p != top { NoCycles(s, top, p); }
    if Under(s.folders, x, top) { NotAbove(s, x, top); }
  }

  lemma {:induction false} NotAbove(s: Store, top: Id, x: Id)
    requires Under(s.folders, top, x)
    ensures top <= x
    decreases if x < 0 then 0 else x
  {
    if x != top { NotAbove(s, top, s.folders[x].parent.value); }
  }

  // The tree.

  datatype Item = Item(id: Id, parent: Option<Id>, name: string, description: string)
  datatype Tree = Node(item: Item, children: seq<Tree>)

  function ItemOf(folders: map<Id, Folder>, id: Id): Item
    requires id in folders
  {
    Item(id, folders[id].parent, folders[id].name, folders[id].description)
  }

  /** What makes the recursion end: parents have smaller ids than their children, all below `bound`. */
  predicate Descending(items: seq<Item>, bound: Id) {
    forall k :: 0 <= k < |items| ==> 0 < items[k].id < bound && (items[k].parent.Some? ==> items[k].parent.value < items[k].id)
  }

  function Depth(parent: Option<Id>, bound: Id): nat {
    if parent.None? then (if bound < 0 then 0 else bound) else if bound <= parent.value then 0 else bound - parent.value
  }

  predicate ChildrenIn(kids: seq<Item>, items: seq<Item>, parent: Option<Id>) {
    forall k :: 0 <= k < |kids| ==> kids[k] in items && kids[k].parent == parent
  }

  function ChildItems(parent: Option<Id>, items: seq<Item>): (r: seq<Item>)
    ensures |r| <= |items| && ChildrenIn(r, items, parent)
  {
    if items == [] then []
    else (if items[0].parent == parent then [items[0]] else []) + ChildItems(parent, items[1..])
  }

  function BuildTree(parent: Option<Id>, items: seq<Item>, ghost bound: Id): seq<Tree>
    requires Descending(items, bound) && (parent.Some? ==> parent.value > 0)
    decreases Depth(parent, bound), |items| + 1
  {
    BuildNodes(parent, ChildItems(parent, items), items, bound)
  }

  function BuildNodes(parent: Option<Id>, kids: seq<Item>, items: seq<Item>, ghost bound: Id): seq<Tree>
    requires Descending(items, bound) && (parent.Some? ==> parent.value > 0)
    requires ChildrenIn(kids, items, parent)
    decreases Depth(parent, bound), |kids|
  {
    if kids == [] then []
    else [Node(kids[0], BuildTree(Some(kids[0].id), items, bound))] + BuildNodes(parent, kids[1..], items, bound)
  }

  function Flatten(trees: seq<Tree>): seq<Item> {
    if trees == [] then [] else [trees[0].item] + Flatten(trees[0].children) + Flatten(trees[1..])
  }

  /** Every node hangs under the node its row names as parent. */
  predicate WellHung(parent: Option<Id>, trees: seq<Tree>)
    decreases trees
  {
    trees != [] ==>
      && trees[0].item.parent == parent && WellHung(Some(trees[0].item.id), trees[0].children)
      && WellHung(parent, trees[1..])
  }

  ghost predicate Distinct(items: seq<Item>) {
    forall j, k :: 0 <= j < k < |items| ==> items[j].id != items[k].id
  }

  /** The rows the tree is built from: the active folders of a project, each once, in any order. */
  ghost predicate Listing(folders: map<Id, Folder>, project: Id, items: seq<Item>) {
    && Distinct(items)
    && (forall i :: i in items ==> IsActive(folders, i.id) && folders[i.id].project == project && i == ItemOf(folders, i.id))
    && (forall f :: IsActive(folders, f) && folders[f].project == project ==> ItemOf(folders, f) in items)
  }

  /** Following parents upwards from `x` leads to a child of `parent`. */
  predicate Below(folders: map<Id, Folder>, parent: Option<Id>, x: Id)
    decreases if x < 0 then 0 else x
  {
    IsActive(folders, x) && (folders[x].parent == parent || (folders[x].parent.Some? && 0 <= folders[x].parent.value < x && Below(folders, parent, folders[x].parent.value)))
  }

  /** The child of `parent` that the way up from `x` meets first. */
  function Top(folders: map<Id, Folder>, parent: Option<Id>, x: Id): (r: Id)
    requires Below(folders, parent, x)
    ensures IsActive(folders, r) && folders[r].parent == parent
    decreases if x < 0 then 0 else x
  {
    if folders[x].parent == parent then x else Top(folders, parent, folders[x].parent.value)
  }

  lemma {:induction false} TopSplits(s: Store, parent: Option<Id>, k: Id, x: Id)
    requires IdInv(s) && ParentInv(s.folders) && IsActive(s.folders, k) && s.folders[k].parent == parent
    ensures Below(s.folders, parent, x) && Top(s.folders, parent, x) == k
      <==> (IsActive(s.folders, x) && x == k) || Below(s.folders, Some(k), x)
    ensures Below(s.folders, Some(k), x) ==> k < x
    decreases if x < 0 then 0 else x
  {
    if IsActive(s.folders, x) && s.folders[x].parent.Some? && 0 <= s.folders[x].parent.value < x {
      TopSplits(s, parent, k, s.folders[x].parent.value);
    }
  }

  lemma {:induction false} EverythingIsBelowTheRoot(s: Store, x: Id)
    requires IdInv(s) && ParentInv(s.folders) && IsActive(s.folders, x)
    ensures Below(s.folders, None, x)
    decreases if x < 0 then 0 else x
  {
    if s.folders[x].parent.Some? { EverythingIsBelowTheRoot(s, s.folders[x].parent.value); }
  }

  function Times(items: seq<Item>, i: Item): nat {
    multiset(items)[i]
  }

  lemma TimesOfParts(head: Item, below: seq<Item>, rest: seq<Item>, i: Item)
    ensures Times([head] + below + rest, i) == (if i == head then 1 else 0) + Times(below, i) + Times(rest, i)
  {
    assert multiset([head] + below + rest) == multiset{head} + multiset(below) + multiset(rest);
  }

  /** A folder occurs once in the tree built for a parent if it lies below that parent, and else not at all. */
  lemma {:induction false} OccursOnce(s: Store, project: Id, items: seq<Item>, parent: Option<Id>, bound: Id, x: Id)
    requires IdInv(s) && ParentInv(s.folders) && Listing(s.folders, project, items) && Descending(items, bound)
    requires parent.Some? ==> parent.value > 0
    requires IsActive(s.folders, x) && s.folders[x].project == project
    ensures Times(Flatten(BuildTree(parent, items, bound)), ItemOf(s.folders, x)) == if Below(s.folders, parent, x) then 1 else 0
    decreases Depth(parent, bound), |items| + 1
  {
    var kids := ChildItems(parent, items);
    ChildItemsAreDistinct(parent, items);
    hide Listing, Descending, Distinct;
    NodesOccurOnce(s, project, items, parent, kids, bound, x);
    if Below(s.folders, parent, x) {
      TopStaysInProject(s, parent, x);
      var top := Top(s.folders, parent, x);
      AllChildrenAreItems(s, project, items, parent, top);
    }
  }

  lemma TimesOfForest(node: Tree, rest: seq<Tree>, i: Item)
    ensures Times(Flatten([node] + rest), i) == (if i == node.item then 1 else 0) + Times(Flatten(node.children), i) + Times(Flatten(rest), i)
  {
    TimesOfParts(node.item, Flatten(node.children), Flatten(rest), i);
    assert ([node] + rest)[1..] == rest;
  }

  lemma EmptyForest(folders: map<Id, Folder>, parent: Option<Id>, x: Id)
    requires IsActive(folders, x)
    ensures Times(Flatten([]), ItemOf(folders, x)) == 0 && !HangsFrom(folders, parent, [], x)
  {
  }

  predicate HangsFrom(folders: map<Id, Folder>, parent: Option<Id>, kids: seq<Item>, x: Id) {
    Below(folders, parent, x) && ItemOf(folders, Top(folders, parent, x)) in kids
  }

  lemma {:induction false} NodesOccurOnce(s: Store, project: Id, items: seq<Item>, parent: Option<Id>, kids: seq<Item>, bound: Id, x: Id)
    requires IdInv(s) && ParentInv(s.folders) && Listing(s.folders, project, items) && Descending(items, bound)
    requires parent.Some? ==> parent.value > 0
    requires IsActive(s.folders, x) && s.folders[x].project == project
    requires Distinct(kids) && ChildrenIn(kids, items, parent)
    ensures Times(Flatten(BuildNodes(parent, kids, items, bound)), ItemOf(s.folders, x))
      == if HangsFrom(s.folders, parent, kids, x) then 1 else 0
    decreases Depth(parent, bound), |kids|
  {
    hide Listing, Distinct, Descending, Below, Flatten, Times, ParentInv, IdInv, Top, ChildrenIn, BuildTree, HangsFrom;
    if kids == [] {
      EmptyForest(s.folders, parent, x);
    } else {
      var k, rest := kids[0], kids[1..];
      FirstKid(s, project, items, parent, kids, bound);
      var i := ItemOf(s.folders, x);
      NodesOccurOnce(s, project, items, parent, rest, bound, x);
      OccursOnce(s, project, items, Some(k.id), bound, x);
      TimesOfForest(Node(k, BuildTree(Some(k.id), items, bound)), BuildNodes(parent, rest, items, bound), i);
      KidsSplit(s, parent, k.id, rest, x);
      assert kids == [k] + rest;
    }
  }

  lemma FirstKid(s: Store, project: Id, items: seq<Item>, parent: Option<Id>, kids: seq<Item>, bound: Id)
    requires Listing(s.folders, project, items) && Descending(items, bound)
    requires Distinct(kids) && ChildrenIn(kids, items, parent) && kids != []
    ensures var k, rest := kids[0], kids[1..];
      && Distinct(rest) && ChildrenIn(rest, items, parent) && k.parent == parent && k !in rest
      && IsActive(s.folders, k.id) && k == ItemOf(s.folders, k.id) && 0 < k.id < bound
      && (parent.Some? ==> parent.value < k.id)
  {
    assert kids[0] in items;
    assert forall j :: 0 <= j < |kids[1..]| ==> kids[1..][j] == kids[j + 1];
  }

  /** The folders above which `k` or one of `rest` stands: `k` itself, those below it, and those of `rest`. */
  lemma KidsSplit(s: Store, parent: Option<Id>, k: Id, rest: seq<Item>, x: Id)
    requires IdInv(s) && ParentInv(s.folders) && IsActive(s.folders, k) && s.folders[k].parent == parent && IsActive(s.folders, x)
    requires ItemOf(s.folders, k) !in rest
    ensures (if HangsFrom(s.folders, parent, [ItemOf(s.folders, k)] + rest, x) then 1 else 0)
      == (if x == k then 1 else 0) + (if Below(s.folders, Some(k), x) then 1 else 0) + (if HangsFrom(s.folders, parent, rest, x) then 1 else 0)
  {
    TopSplits(s, parent, k, x);
    hide Below, Top, ParentInv, IdInv;
  }

  lemma {:induction false} ChildItemsAreDistinct(parent: Option<Id>, items: seq<Item>)
    requires Distinct(items)
    ensures Distinct(ChildItems(parent, items))
    ensures forall i :: i in items && i.parent == parent ==> i in ChildItems(parent, items)
  {
    if items != [] {
      var rest := items[1..];
      RestIsDistinct(items);
      ChildItemsAreDistinct(parent, rest);
      hide Distinct;
      assert items == [items[0]] + rest;
      if items[0].parent == parent { ConsIsDistinct(items[0], ChildItems(parent, rest), rest, parent); }
    }
  }

  lemma RestIsDistinct(items: seq<Item>)
    requires Distinct(items) && items != []
    ensures Distinct(items[1..]) && forall i :: i in items[1..] ==> i.id != items[0].id
  {
    assert forall j :: 0 <= j < |items[1..]| ==> items[1..][j] == items[j + 1];
  }

  lemma ConsIsDistinct(head: Item, kids: seq<Item>, rest: seq<Item>, parent: Option<Id>)
    requires Distinct(kids) && ChildrenIn(kids, rest, parent) && forall i :: i in rest ==> i.id != head.id
    ensures Distinct([head] + kids)
  {
  }

  lemma AllChildrenAreItems(s: Store, project: Id, items: seq<Item>, parent: Option<Id>, x: Id)
    requires Listing(s.folders, project, items) && IsActive(s.folders, x) && s.folders[x].parent == parent && s.folders[x].project == project
    ensures ItemOf(s.folders, x) in ChildItems(parent, items)
  {
    ChildItemsAreDistinct(parent, items);
  }

  lemma {:induction false} TopStaysInProject(s: Store, parent: Option<Id>, x: Id)
    requires ParentInv(s.folders) && Below(s.folders, parent, x)
    ensures s.folders[Top(s.folders, parent, x)].project == s.folders[x].project
    decreases if x < 0 then 0 else x
  {
    if s.folders[x].parent != parent { TopStaysInProject(s, parent, s.folders[x].parent.value); }
  }

  lemma {:induction false} BuiltFromItems(parent: Option<Id>, kids: seq<Item>, items: seq<Item>, bound: Id)
    requires Descending(items, bound) && (parent.Some? ==> parent.value > 0)
    requires ChildrenIn(kids, items, parent)
    ensures var trees := BuildNodes(parent, kids, items, bound);
      WellHung(parent, trees) && forall i :: i in Flatten(trees) ==> i in items
    decreases Depth(parent, bound), |kids|
  {
    if kids != [] {
      var k, rest := kids[0], kids[1..];
      BuiltFromItems(Some(k.id), ChildItems(Some(k.id), items), items, bound);
      BuiltFromItems(parent, rest, items, bound);
      assert ([Node(k, BuildTree(Some(k.id), items, bound))] + BuildNodes(parent, rest, items, bound))[1..] == BuildNodes(parent, rest, items, bound);
    }
  }

  lemma {:induction false} DistinctItemsOccurOnce(items: seq<Item>, i: Item)
    requires Distinct(items)
    ensures Times(items, i) == if i in items then 1 else 0
  {
    if items != [] {
      DistinctItemsOccurOnce(items[1..], i);
      TimesOfParts(items[0], [], items[1..], i);
      assert items == [items[0]] + [] + items[1..];
    }
  }

  /** The tree of a project lists each of its active folders exactly once, each under its parent. */
  lemma TreeListsEveryFolderOnce(s: Store, project: Id, items: seq<Item>)
    requires Inv(s) && Listing(s.folders, project, items)
    ensures Descending(items, s.nextId)
    ensures multiset(Flatten(BuildTree(None, items, s.nextId))) == multiset(items)
    ensures WellHung(None, BuildTree(None, items, s.nextId))
  {
    assert IdInv(s) && ParentInv(s.folders) && Descending(items, s.nextId);
    hide Inv, IdInv, ParentInv, Descending, BuildTree;
    BuiltFromItems(None, ChildItems(None, items), items, s.nextId);
    assert BuildTree(None, items, s.nextId) == BuildNodes(None, ChildItems(None, items), items, s.nextId) by { BuildUnfolds(items, s.nextId); }
    forall i: Item
      ensures multiset(Flatten(BuildTree(None, items, s.nextId)))[i] == multiset(items)[i]
    {
      EachOnce(s, project, items, i);
    }
  }

  lemma BuildUnfolds(items: seq<Item>, bound: Id)
    requires Descending(items, bound)
    ensures BuildTree(None, items, bound) == BuildNodes(None, ChildItems(None, items), items, bound)
  {
  }

  lemma EachOnce(s: Store, project: Id, items: seq<Item>, i: Item)
    requires IdInv(s) && ParentInv(s.folders) && Listing(s.folders, project, items) && Descending(items, s.nextId)
    ensures multiset(Flatten(BuildTree(None, items, s.nextId)))[i] == multiset(items)[i]
  {
    DistinctItemsOccurOnce(items, i);
    assert Times(items, i) == multiset(items)[i];
    if i in items {
      OccursOnce(s, project, items, None, s.nextId, i.id);
      EverythingIsBelowTheRoot(s, i.id);
    } else {
      BuiltFromItems(None, ChildItems(None, items), items, s.nextId);
    }
  }

  /** The rows with an id below `id` have been read. */
  ghost predicate PartListing(folders: map<Id, Folder>, project: Id, id: Id, rows: seq<Item>) {
    && Distinct(rows)
    && (forall i :: i in rows ==> i.id < id && IsActive(folders, i.id) && folders[i.id].project == project && i == ItemOf(folders, i.id))
    && (forall f :: f < id && IsActive(folders, f) && folders[f].project == project ==> ItemOf(folders, f) in rows)
  }

  lemma IdParts(s: Store)
    requires Inv(s)
    ensures IdInv(s)
  {
    hide ParentInv, NameInv, FileInv, IdInv;
  }

  lemma NothingRead(folders: map<Id, Folder>, project: Id)
    requires forall f :: f in folders ==> 1 <= f
    ensures PartListing(folders, project, 1, [])
  {
  }

  lemma NothingAdded(folders: map<Id, Folder>, project: Id, id: Id, rows: seq<Item>)
    requires PartListing(folders, project, id, rows) && !(IsActive(folders, id) && folders[id].project == project)
    ensures PartListing(folders, project, id + 1, rows)
  {
  }

  lemma AllRead(s: Store, project: Id, rows: seq<Item>)
    requires IdInv(s) && PartListing(s.folders, project, s.nextId, rows)
    ensures Listing(s.folders, project, rows)
  {
  }

  lemma PartListingGrows(folders: map<Id, Folder>, project: Id, id: Id, rows: seq<Item>)
    requires PartListing(folders, project, id, rows) && IsActive(folders, id) && folders[id].project == project
    ensures PartListing(folders, project, id + 1, rows + [ItemOf(folders, id)])
  {
    var more := rows + [ItemOf(folders, id)];
    assert forall i :: i in more <==> i in rows || i == ItemOf(folders, id);
    assert forall k :: 0 <= k < |rows| ==> rows[k] in rows && more[k] == rows[k];
  }

  class Database {
    var folders: map<Id, Folder>
    var files: map<Id, Option<Id>>
    var nextId: Id

    function View(): Store
      reads this
    {
      Store(folders, files, nextId)
    }

    ghost predicate Valid()
      reads this
    {
      Inv(View())
    }

    constructor ()
      ensures Valid() && View() == EMPTY
    {
      folders, files, nextId := map[], map[], 1;
      new;
      EmptyIsSound();
    }

    method MakeFolder(project: Id, parent: Option<Id>, name: string, description: string) returns (r: Result)
      requires Valid()
      modifies this
      ensures Valid() && (View(), r) == Create(old(View()), project, parent, name, description)
    {
      hide ValidateName, NameInUse, Trim, Inv;
      CreateIsSound(View(), project, parent, name, description);
      var valid := ValidateName(name);
      if valid.None? {
        r := Err(BadName);
      } else if parent.Some? && parent.value <= 0 {
        r := Err(BadParent);
      } else if parent.Some? && !IsActive(folders, parent.value) {
        r := Err(NotFound);
      } else if parent.Some? && folders[parent.value].project != project {
        r := Err(OtherProject);
      } else if NameInUse(folders, project, parent, valid.value, None) {
        r := Err(NameTaken);
      } else {
        r := Ok(nextId);
        folders := folders[nextId := Folder(parent, project, valid.value, Trim(description), true)];
        nextId := nextId + 1;
      }
    }

    method ChangeFolder(id: Id, name: Option<string>, description: Option<string>) returns (r: Result)
      requires Valid()
      modifies this
      ensures Valid() && (View(), r) == Update(old(View()), id, name, description)
    {
      hide ValidateName, NameInUse, Trim, Inv;
      UpdateIsSound(View(), id, name, description);
      if id <= 0 {
        r := Err(BadId);
      } else if !IsActive(folders, id) {
        r := Err(NotFound);
      } else {
        r := Ok(id);
        if name.Some? {
          var valid := ValidateName(name.value);
          if valid.None? {
            r := Err(BadName);
          } else if NameInUse(folders, folders[id].project, folders[id].parent, valid.value, Some(id)) {
            r := Err(NameTaken);
          } else {
            folders := folders[id := folders[id].(name := valid.value)];
          }
        }
        if r.Ok? && description.Some? {
          folders := folders[id := folders[id].(description := Trim(description.value))];
        }
        assert r.Ok? ==> folders == old(folders)[id := folders[id]];
      }
    }

    /** Removes the subtree found by the recursive query, after detaching its files. */
    method RemoveFolder(id: Id) returns (r: Result)
      requires Valid()
      modifies this
      ensures Valid() && (View(), r) == Delete(old(View()), id)
    {
      hide Inv;
      DeleteIsSound(View(), id);
      if id <= 0 { return Err(BadId); }
      if !IsActive(folders, id) { return Err(NotFound); }
      var gone, more := {id}, Children(folders, {id});
      while !(more <= gone)
        invariant gone <= folders.Keys && more == Children(folders, gone) && Closure(folders, gone) == Closure(folders, {id})
        decreases folders.Keys - gone
      {
        gone := gone + more;
        more := Children(folders, gone);
      }
      files := Detach(files, gone);
      folders := MarkDeleted(folders, gone);
      return Ok(id);
    }

    /** Reads the active folders of a project, each once. */
    method ReadItems(project: Id) returns (rows: seq<Item>)
      requires Valid()
      ensures Listing(folders, project, rows)
    {
      hide Inv, ItemOf, PartListing, Listing;
      IdParts(View());
      NothingRead(folders, project);
      rows := [];
      var id := 1;
      while id < nextId
        invariant 1 <= id <= nextId
        invariant PartListing(folders, project, id, rows)
      {
        if IsActive(folders, id) && folders[id].project == project {
          PartListingGrows(folders, project, id, rows);
          rows := rows + [ItemOf(folders, id)];
        } else {
          NothingAdded(folders, project, id, rows);
        }
        id := id + 1;
      }
      AllRead(View(), project, rows);
    }

    /** The folder tree of a project, siblings in the order they were created. */
    method FolderTree(project: Id) returns (trees: seq<Tree>, ghost items: seq<Item>)
      requires Valid()
      ensures Listing(folders, project, items) && multiset(Flatten(trees)) == multiset(items) && WellHung(None, trees)
    {
      hide Inv, Listing, Flatten, WellHung, BuildTree;
      var rows := ReadItems(project);
      items := rows;
      TreeListsEveryFolderOnce(View(), project, rows);
      trees := BuildTree(None, rows, nextId);
    }
  }
}
