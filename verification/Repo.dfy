/** The stored servers, folders and file types, and every write that changes them. */
module Repo {
  import opened Types
  import opened Schemas

  datatype ServerRow = ServerRow(
    name: string, scanMode: ScanMode, debounceMode: DebounceMode, window: nat, enabled: bool, eventTypes: string)

  datatype FolderRow = FolderRow(serverId: int, path: string, libraryId: Option<string>, enabled: bool)

  datatype FileTypeRow = FileTypeRow(folderId: int, extension: string)

  datatype Tables = Tables(servers: map<int, ServerRow>, folders: map<int, FolderRow>, fileTypes: map<int, FileTypeRow>)

  datatype ServerCreate = ServerCreate(
    name: string, scanMode: ScanMode, debounceMode: DebounceMode, window: nat, enabled: bool,
    eventTypes: seq<FsEventType>)

  /** A field left out of an update stays as it is. */
  datatype ServerUpdate = ServerUpdate(
    name: Option<string>, scanMode: Option<ScanMode>, debounceMode: Option<DebounceMode>, window: Option<nat>,
    enabled: Option<bool>, eventTypes: Option<seq<FsEventType>>)

  datatype FolderUpdate = FolderUpdate(
    path: Option<string>, libraryId: Option<Option<string>>, enabled: Option<bool>, extensions: Option<seq<string>>)

  datatype Written = Ok(id: int) | NotFound | Conflict

  // ---- what the tables keep ---------------------------------------------------------------

  ghost predicate NoOrphans(t: Tables) {
    && (forall f :: f in t.folders ==> t.folders[f].serverId in t.servers)
    && (forall x :: x in t.fileTypes ==> t.fileTypes[x].folderId in t.folders)
  }

  ghost predicate NoDuplicateTypes(t: Tables) {
    forall x, y :: x in t.fileTypes && y in t.fileTypes && t.fileTypes[x] == t.fileTypes[y] ==> x == y
  }

  ghost predicate UniqueNames(servers: map<int, ServerRow>) {
    forall a, b :: a in servers && b in servers && servers[a].name == servers[b].name ==> a == b
  }

  ghost predicate Readable(servers: map<int, ServerRow>) {
    forall s :: s in servers ==> ParseEventTypes(servers[s].eventTypes).Some?
  }

  ghost predicate Intact(t: Tables) {
    NoOrphans(t) && NoDuplicateTypes(t) && UniqueNames(t.servers) && Readable(t.servers)
  }

  function FoldersOf(t: Tables, serverId: int): set<int> {
    set f | f in t.folders && t.folders[f].serverId == serverId
  }

  function ExtensionsOf(t: Tables, folderId: int): set<string> {
    set x | x in t.fileTypes && t.fileTypes[x].folderId == folderId :: t.fileTypes[x].extension
  }

  function TypesWithout(t: Tables, gone: set<int>): map<int, FileTypeRow> {
    map x | x in t.fileTypes && t.fileTypes[x].folderId !in gone :: t.fileTypes[x]
  }

  /** Deleting folders deletes their file types. */
  function WithoutFolders(t: Tables, gone: set<int>): Tables {
    Tables(t.servers, t.folders - gone, TypesWithout(t, gone))
  }

  function WithoutServer(t: Tables, id: int): Tables {
    var rest := WithoutFolders(t, FoldersOf(t, id));
    rest.(servers := t.servers - {id})
  }

  function RowOf(f: FolderCreate, serverId: int): FolderRow {
    FolderRow(serverId, f.path, f.libraryId, f.enabled)
  }

  function Elements(s: seq<string>): set<string> {
    set x | x in s
  }

  /** A folder has exactly these extensions, each in one row. */
  ghost predicate TypesAre(t: Tables, folderId: int, extensions: set<string>) {
    && ExtensionsOf(t, folderId) == extensions
    && SingleRows(t.fileTypes, folderId)
  }

  ghost predicate SingleRows(fileTypes: map<int, FileTypeRow>, folderId: int) {
    forall x, y :: x in fileTypes && y in fileTypes && fileTypes[x].folderId == folderId && fileTypes[x] == fileTypes[y] ==> x == y
  }

  /** The folder stands in the tables as it was submitted. */
  ghost predicate FolderIs(t: Tables, id: int, serverId: int, f: FolderCreate) {
    id in t.folders && t.folders[id] == RowOf(f, serverId) && TypesAre(t, id, Elements(f.extensions))
  }

  predicate NameTaken(servers: map<int, ServerRow>, name: string) {
    exists s :: s in servers && servers[s].name == name
  }

  /** The folders of a server, in order, are the ones submitted. */
  ghost predicate FoldersAre(t: Tables, serverId: int, ids: seq<int>, folders: seq<FolderCreate>) {
    && |ids| == |folders|
    && (forall i, j :: 0 <= i < j < |ids| ==> ids[i] != ids[j])
    && (forall f :: f in FoldersOf(t, serverId) <==> f in ids)
    && (forall i :: 0 <= i < |ids| ==> FolderIs(t, ids[i], serverId, folders[i]))
  }

  /** Nothing but the folders of one server differs. */
  ghost predicate OthersKept(t: Tables, u: Tables, serverId: int) {
    && u.folders - FoldersOf(u, serverId) == t.folders - FoldersOf(t, serverId)
    && TypesWithout(u, FoldersOf(u, serverId)) == TypesWithout(t, FoldersOf(t, serverId))
  }

  function NewServer(data: ServerCreate): ServerRow {
    ServerRow(data.name, data.scanMode, data.debounceMode, data.window, data.enabled, SerializeEventTypes(data.eventTypes))
  }

  function Or<T>(update: Option<T>, current: T): T {
    if update.Some? then update.value else current
  }

  function UpdatedServer(row: ServerRow, data: ServerUpdate): ServerRow {
    ServerRow(Or(data.name, row.name), Or(data.scanMode, row.scanMode), Or(data.debounceMode, row.debounceMode),
              Or(data.window, row.window), Or(data.enabled, row.enabled),
              if data.eventTypes.Some? then SerializeEventTypes(data.eventTypes.value) else row.eventTypes)
  }

  function UpdatedFolder(row: FolderRow, data: FolderUpdate): FolderRow {
    FolderRow(row.serverId, Or(data.path, row.path), Or(data.libraryId, row.libraryId), Or(data.enabled, row.enabled))
  }

  // ---- what each write does -----------------------------------------------------------------

  /** A name that is taken refuses the server. */
  ghost predicate CreatesServer(t: Tables, data: ServerCreate, r: Written, u: Tables) {
    && !r.NotFound? && (r.Conflict? <==> NameTaken(t.servers, data.name))
    && (r.Conflict? ==> u == t)
    && (r.Ok? ==> r.id !in t.servers && u == t.(servers := t.servers[r.id := NewServer(data)]))
  }

  /** Both or, if the name is taken, neither. */
  ghost predicate CreatesServerWithFolders(t: Tables, data: ServerCreate, folders: seq<FolderCreate>, r: Written,
                                           ids: seq<int>, u: Tables) {
    && !r.NotFound? && (r.Conflict? <==> NameTaken(t.servers, data.name))
    && (r.Conflict? ==> u == t)
    && (r.Ok? ==>
          && r.id !in t.servers && u.servers == t.servers[r.id := NewServer(data)]
          && FoldersAre(u, r.id, ids, folders) && OthersKept(t, u, r.id))
  }

  /** A server that is not there, or a name that another server has, refuses the update. */
  ghost predicate UpdateAnswered(t: Tables, id: int, data: ServerUpdate, r: Written) {
    && (r.NotFound? <==> id !in t.servers)
    && (r.Conflict? <==> id in t.servers && NameTaken(t.servers - {id}, Or(data.name, t.servers[id].name)))
  }

  ghost predicate UpdatesServer(t: Tables, id: int, data: ServerUpdate, r: Written, u: Tables) {
    && UpdateAnswered(t, id, data, r)
    && (!r.Ok? ==> u == t)
    && (r.Ok? && id in t.servers ==> u == t.(servers := t.servers[id := UpdatedServer(t.servers[id], data)]))
  }

  /** Fields and folders together, or neither. */
  ghost predicate UpdatesServerWithFolders(t: Tables, id: int, data: ServerUpdate, folders: seq<FolderCreate>, r: Written,
                                           ids: seq<int>, u: Tables) {
    && UpdateAnswered(t, id, data, r)
    && (!r.Ok? ==> u == t)
    && (r.Ok? && id in t.servers ==>
          && u.servers == t.servers[id := UpdatedServer(t.servers[id], data)]
          && FoldersAre(u, id, ids, folders) && OthersKept(t, u, id))
  }

  /** A server that is not there refuses the folder. */
  ghost predicate CreatesFolder(t: Tables, serverId: int, f: FolderCreate, r: Written, u: Tables) {
    && !r.NotFound? && (r.Conflict? <==> serverId !in t.servers)
    && (r.Conflict? ==> u == t)
    && (r.Ok? ==>
          && r.id !in t.folders && FolderIs(u, r.id, serverId, f)
          && u.servers == t.servers && u.folders == t.folders[r.id := RowOf(f, serverId)]
          && TypesWithout(u, {r.id}) == t.fileTypes)
  }

  /** The extensions replace those of the folder, normalized and without empty ones. */
  ghost predicate SetsTypes(t: Tables, folderId: int, extensions: seq<string>, lower: char -> char, u: Tables) {
    && TypesWithout(u, {folderId}) == TypesWithout(t, {folderId})
    && TypesAre(u, folderId, Elements(Normalized(extensions, lower)) - {""})
  }

  ghost predicate SetsFiletypes(t: Tables, folderId: int, extensions: seq<string>, lower: char -> char, r: Written, u: Tables) {
    && !r.Conflict? && (r.NotFound? <==> folderId !in t.folders)
    && (r.NotFound? ==> u == t)
    && (r.Ok? ==> u.servers == t.servers && u.folders == t.folders && SetsTypes(t, folderId, extensions, lower, u))
  }

  ghost predicate UpdatesFolder(t: Tables, id: int, data: FolderUpdate, lower: char -> char, r: Written, u: Tables) {
    && !r.Conflict? && (r.NotFound? <==> id !in t.folders)
    && (r.NotFound? ==> u == t)
    && (r.Ok? && id in t.folders ==>
          && u.servers == t.servers && u.folders == t.folders[id := UpdatedFolder(t.folders[id], data)]
          && if data.extensions.Some? then SetsTypes(t, id, data.extensions.value, lower, u) else u.fileTypes == t.fileTypes)
  }

  lemma {:induction false} DroppingKeepsIntact(t: Tables, gone: set<int>)
    requires Intact(t)
    ensures Intact(WithoutFolders(t, gone))
  {
  }

  /** A folder's rows depend only on the file types that are its own. */
  lemma {:induction false} SameTypesElsewhere(t: Tables, u: Tables, changed: set<int>, f: int)
    requires f !in changed && TypesWithout(t, changed) == TypesWithout(u, changed)
    ensures ExtensionsOf(t, f) == ExtensionsOf(u, f)
    ensures SingleRows(t.fileTypes, f) ==> SingleRows(u.fileTypes, f)
  {
    var s := TypesWithout(t, changed);
    assert forall x :: x in t.fileTypes && t.fileTypes[x].folderId == f ==> x in s && s[x] == t.fileTypes[x];
    assert forall x :: x in u.fileTypes && u.fileTypes[x].folderId == f ==> x in s && s[x] == u.fileTypes[x];
    assert forall x :: x in s && s[x].folderId == f ==> x in t.fileTypes && x in u.fileTypes;
  }

  lemma {:induction false} NoTypesYet(t: Tables, folderId: int)
    requires NoOrphans(t) && folderId !in t.folders
    ensures ExtensionsOf(t, folderId) == {} && TypesWithout(t, {folderId}) == t.fileTypes
  {
    assert forall x :: x in t.fileTypes ==> t.fileTypes[x].folderId in t.folders;
  }

  lemma {:induction false} FolderWriteKeepsIntact(t: Tables, id: int, row: FolderRow)
    requires Intact(t) && row.serverId in t.servers
    ensures Intact(t.(folders := t.folders[id := row]))
  {
  }

  lemma {:induction false} ServerWriteKeepsIntact(t: Tables, id: int, row: ServerRow)
    requires Intact(t) && !NameTaken(t.servers - {id}, row.name) && ParseEventTypes(row.eventTypes).Some?
    ensures Intact(t.(servers := t.servers[id := row]))
  {
    assert forall s :: s in t.servers && s != id ==> s in t.servers - {id} && (t.servers - {id})[s] == t.servers[s];
  }

  /** A row number no row has, as the database picks it. */
  method NewId<T>(rows: map<int, T>) returns (id: int)
    ensures id !in rows && id > 0
  {
    id := 1;
    var todo := rows.Keys;
    while todo != {}
      invariant todo <= rows.Keys && id > 0 && forall k :: k in rows && k !in todo ==> k < id
      decreases |todo|
    {
      var k := Pick(todo);
      if k >= id {
        id := k + 1;
      }
      todo := todo - {k};
    }
  }

  class Repo {
    var tables: Tables

    constructor ()
      ensures Intact(tables) && tables == Tables(map[], map[], map[])
    {
      tables := Tables(map[], map[], map[]);
    }

    /** Adds a row for every extension to a folder that has none. */
    method AddTypes(folderId: int, extensions: seq<string>)
      requires Intact(tables) && folderId in tables.folders
      requires ExtensionsOf(tables, folderId) == {} && Distinct(extensions)
      modifies this
      ensures Intact(tables)
      ensures tables.servers == old(tables).servers && tables.folders == old(tables).folders
      ensures TypesWithout(tables, {folderId}) == TypesWithout(old(tables), {folderId})
      ensures ExtensionsOf(tables, folderId) == Elements(extensions)
    {
      for i := 0 to |extensions|
        invariant Intact(tables)
        invariant tables.servers == old(tables).servers && tables.folders == old(tables).folders
        invariant TypesWithout(tables, {folderId}) == TypesWithout(old(tables), {folderId})
        invariant ExtensionsOf(tables, folderId) == Elements(extensions[..i])
      {
        var x := NewId(tables.fileTypes);
        TypeAdded(tables, x, folderId, extensions, i);
        tables := tables.(fileTypes := tables.fileTypes[x := FileTypeRow(folderId, extensions[i])]);
      }
      assert extensions[..|extensions|] == extensions;
    }

    /** Stores a new folder of a server, with its file types. */
    method AddFolder(serverId: int, f: FolderCreate) returns (id: int)
      requires Intact(tables) && serverId in tables.servers && Distinct(f.extensions)
      modifies this
      ensures Intact(tables)
      ensures id !in old(tables).folders && FolderIs(tables, id, serverId, f)
      ensures tables.servers == old(tables).servers
      ensures tables.folders == old(tables).folders[id := RowOf(f, serverId)]
      ensures TypesWithout(tables, {id}) == old(tables).fileTypes
    {
      id := NewId(tables.folders);
      NoTypesYet(tables, id);
      FolderWriteKeepsIntact(tables, id, RowOf(f, serverId));
      tables := tables.(folders := tables.folders[id := RowOf(f, serverId)]);
      AddTypes(id, f.extensions);
    }

    /** Replaces the folders of a server. */
    method SetServerFolders(serverId: int, folders: seq<FolderCreate>) returns (ids: seq<int>)
      requires Intact(tables) && serverId in tables.servers
      requires forall i :: 0 <= i < |folders| ==> Distinct(folders[i].extensions)
      modifies this
      ensures Intact(tables) && tables.servers == old(tables).servers
      ensures FoldersAre(tables, serverId, ids, folders) && OthersKept(old(tables), tables, serverId)
    {
      DroppingKeepsIntact(tables, FoldersOf(tables, serverId));
      FoldersDropped(tables, serverId);
      tables := WithoutFolders(tables, FoldersOf(tables, serverId));
      ids := [];
      for i := 0 to |folders|
        invariant Intact(tables) && tables.servers == old(tables).servers
        invariant FoldersAre(tables, serverId, ids, folders[..i]) && OthersKept(old(tables), tables, serverId)
      {
        ghost var before := tables;
        var id := AddFolder(serverId, folders[i]);
        FolderAppended(old(tables), before, tables, serverId, ids, id, folders, i);
        ids := ids + [id];
      }
      assert folders[..|folders|] == folders;
    }

    method CreateServer(data: ServerCreate) returns (r: Written)
      requires Intact(tables)
      modifies this
      ensures Intact(tables) && CreatesServer(old(tables), data, r, tables)
      ensures r.Ok? ==> ParseEventTypes(tables.servers[r.id].eventTypes) == Some(set t | t in data.eventTypes)
    {
      if NameTaken(tables.servers, data.name) {
        return Conflict;
      }
      var id := NewId(tables.servers);
      assert tables.servers - {id} == tables.servers;
      EventTypesRoundTrip(data.eventTypes);
      ServerWriteKeepsIntact(tables, id, NewServer(data));
      tables := tables.(servers := tables.servers[id := NewServer(data)]);
      r := Ok(id);
    }

    method CreateServerWithFolders(data: ServerCreate, folders: seq<FolderCreate>) returns (r: Written, ids: seq<int>)
      requires Intact(tables)
      requires forall i :: 0 <= i < |folders| ==> Distinct(folders[i].extensions)
      modifies this
      ensures Intact(tables) && CreatesServerWithFolders(old(tables), data, folders, r, ids, tables)
      ensures r.Ok? ==> ParseEventTypes(tables.servers[r.id].eventTypes) == Some(set t | t in data.eventTypes)
    {
      ids := [];
      r := CreateServer(data);
      if r.Ok? {
        ids := SetServerFolders(r.id, folders);
      }
    }

    method UpdateServer(id: int, data: ServerUpdate) returns (r: Written)
      requires Intact(tables)
      modifies this
      ensures Intact(tables) && UpdatesServer(old(tables), id, data, r, tables)
      ensures r.Ok? ==>
                ParseEventTypes(tables.servers[id].eventTypes)
                == if data.eventTypes.Some? then Some(set t | t in data.eventTypes.value)
                   else ParseEventTypes(old(tables).servers[id].eventTypes)
    {
      if id !in tables.servers {
        return NotFound;
      }
      var row := UpdatedServer(tables.servers[id], data);
      if NameTaken(tables.servers - {id}, row.name) {
        return Conflict;
      }
      if data.eventTypes.Some? {
        EventTypesRoundTrip(data.eventTypes.value);
      }
      ServerWriteKeepsIntact(tables, id, row);
      tables := tables.(servers := tables.servers[id := row]);
      r := Ok(id);
    }

    method UpdateServerWithFolders(id: int, data: ServerUpdate, folders: seq<FolderCreate>) returns (r: Written, ids: seq<int>)
      requires Intact(tables)
      requires forall i :: 0 <= i < |folders| ==> Distinct(folders[i].extensions)
      modifies this
      ensures Intact(tables) && UpdatesServerWithFolders(old(tables), id, data, folders, r, ids, tables)
      ensures r.Ok? ==>
                ParseEventTypes(tables.servers[id].eventTypes)
                == if data.eventTypes.Some? then Some(set t | t in data.eventTypes.value)
                   else ParseEventTypes(old(tables).servers[id].eventTypes)
    {
      ids := [];
      r := UpdateServer(id, data);
      if r.Ok? {
        ids := SetServerFolders(id, folders);
      }
    }

    /** Deletes the server, its folders and their file types; a missing server is no error. */
    method DeleteServer(id: int)
      requires Intact(tables)
      modifies this
      ensures Intact(tables) && tables == WithoutServer(old(tables), id)
    {
      DroppingKeepsIntact(tables, FoldersOf(tables, id));
      ServerDropped(tables, id);
      if id !in tables.servers {
        return;
      }
      var gone := FoldersOf(tables, id);
      tables := WithoutFolders(tables, gone);
      tables := tables.(servers := tables.servers - {id});
    }

    method CreateFolder(serverId: int, f: FolderCreate) returns (r: Written)
      requires Intact(tables) && Distinct(f.extensions)
      modifies this
      ensures Intact(tables) && CreatesFolder(old(tables), serverId, f, r, tables)
    {
      if serverId !in tables.servers {
        return Conflict;
      }
      var id := AddFolder(serverId, f);
      r := Ok(id);
    }

    method DeleteFolder(id: int)
      requires Intact(tables)
      modifies this
      ensures Intact(tables) && tables == WithoutFolders(old(tables), {id})
    {
      DroppingKeepsIntact(tables, {id});
      if id !in tables.folders {
        NoTypesYet(tables, id);
        return;
      }
      tables := WithoutFolders(tables, {id});
    }

    /** Replaces the file types of a folder by the normalized, distinct extensions of the list. */
    method SetFiletypes(folderId: int, extensions: seq<string>, lower: char -> char) returns (r: Written)
      requires Intact(tables)
      modifies this
      ensures Intact(tables) && SetsFiletypes(old(tables), folderId, extensions, lower, r, tables)
    {
      if folderId !in tables.folders {
        return NotFound;
      }
      TypesCleared(tables, folderId);
      tables := tables.(fileTypes := TypesWithout(tables, {folderId}));
      var normalized := NormalizeExtensions(extensions, lower);
      DedupedExact(Normalized(extensions, lower));
      AddTypes(folderId, normalized);
      assert Elements(normalized) == Elements(Normalized(extensions, lower)) - {""};
      r := Ok(folderId);
    }

    method UpdateFolder(id: int, data: FolderUpdate, lower: char -> char) returns (r: Written)
      requires Intact(tables)
      modifies this
      ensures Intact(tables) && UpdatesFolder(old(tables), id, data, lower, r, tables)
    {
      if id !in tables.folders {
        return NotFound;
      }
      var row := UpdatedFolder(tables.folders[id], data);
      FolderWriteKeepsIntact(tables, id, row);
      tables := tables.(folders := tables.folders[id := row]);
      if data.extensions.Some? {
        r := SetFiletypes(id, data.extensions.value, lower);
      }
      r := Ok(id);
    }
  }

  lemma {:induction false} TypesCleared(t: Tables, folderId: int)
    requires Intact(t)
    ensures var u := t.(fileTypes := TypesWithout(t, {folderId}));
            && Intact(u) && ExtensionsOf(u, folderId) == {}
            && TypesWithout(u, {folderId}) == TypesWithout(t, {folderId})
  {
  }

  lemma {:induction false} ServerDropped(t: Tables, id: int)
    requires Intact(t)
    ensures Intact(WithoutServer(t, id))
    ensures id !in t.servers ==> WithoutServer(t, id) == t
  {
    DroppingKeepsIntact(t, FoldersOf(t, id));
    if id !in t.servers {
      assert forall f :: f in t.folders ==> t.folders[f].serverId in t.servers;
      assert FoldersOf(t, id) == {};
      assert TypesWithout(t, {}) == t.fileTypes;
      assert t.folders - {} == t.folders;
      assert t.servers - {id} == t.servers;
    }
  }

  lemma {:induction false} FoldersDropped(t: Tables, serverId: int)
    ensures var u := WithoutFolders(t, FoldersOf(t, serverId));
            FoldersAre(u, serverId, [], []) && OthersKept(t, u, serverId)
  {
    var u := WithoutFolders(t, FoldersOf(t, serverId));
    assert FoldersOf(u, serverId) == {};
    assert TypesWithout(u, {}) == u.fileTypes;
    assert u.folders - {} == u.folders;
  }

  lemma {:induction false} FolderAppended(first: Tables, t: Tables, u: Tables, serverId: int, ids: seq<int>, id: int,
                                          folders: seq<FolderCreate>, i: nat)
    requires i < |folders| && FoldersAre(t, serverId, ids, folders[..i]) && OthersKept(first, t, serverId)
    requires id !in t.folders && FolderIs(u, id, serverId, folders[i])
    requires NoOrphans(t) && u.folders == t.folders[id := RowOf(folders[i], serverId)] && TypesWithout(u, {id}) == t.fileTypes
    ensures FoldersAre(u, serverId, ids + [id], folders[..i + 1]) && OthersKept(first, u, serverId)
  {
    assert FoldersOf(u, serverId) == FoldersOf(t, serverId) + {id};
    NoTypesYet(t, id);
    forall k | 0 <= k < |ids| ensures FolderIs(u, ids[k], serverId, folders[k]) {
      assert FolderIs(t, ids[k], serverId, folders[..i][k]);
      SameTypesElsewhere(t, u, {id}, ids[k]);
    }
    assert u.folders - FoldersOf(u, serverId) == t.folders - FoldersOf(t, serverId);
    assert TypesWithout(u, FoldersOf(u, serverId)) == TypesWithout(t, FoldersOf(t, serverId)) by {
      var s := TypesWithout(u, {id});
      assert forall x :: x in u.fileTypes && u.fileTypes[x].folderId != id ==> x in s && s[x] == u.fileTypes[x];
    }
  }

  lemma {:induction false} TypeAdded(t: Tables, x: int, folderId: int, extensions: seq<string>, i: nat)
    requires Intact(t) && folderId in t.folders && x !in t.fileTypes
    requires i < |extensions| && Distinct(extensions) && ExtensionsOf(t, folderId) == Elements(extensions[..i])
    ensures var u := t.(fileTypes := t.fileTypes[x := FileTypeRow(folderId, extensions[i])]);
            && Intact(u)
            && TypesWithout(u, {folderId}) == TypesWithout(t, {folderId})
            && ExtensionsOf(u, folderId) == Elements(extensions[..i + 1])
  {
    var u := t.(fileTypes := t.fileTypes[x := FileTypeRow(folderId, extensions[i])]);
    assert extensions[i] !in extensions[..i];
    assert forall y :: y in t.fileTypes && t.fileTypes[y].folderId == folderId ==> t.fileTypes[y].extension in ExtensionsOf(t, folderId);
    assert extensions[..i + 1] == extensions[..i] + [extensions[i]];
    assert Elements(extensions[..i + 1]) == Elements(extensions[..i]) + {extensions[i]};
    assert ExtensionsOf(u, folderId) == ExtensionsOf(t, folderId) + {extensions[i]} by {
      assert u.fileTypes[x].extension in ExtensionsOf(u, folderId);
      assert forall y :: y in t.fileTypes ==> u.fileTypes[y] == t.fileTypes[y];
    }
  }
}
