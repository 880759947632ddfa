/** Any sequence of writes to the stored configuration, and the snapshot built after it. */
module Writes {
  import opened Types
  import opened Schemas
  import opened Repo
  import opened Snapshot
  import opened Normalize

  datatype Write =
    | CreateServer(data: ServerCreate)
    | CreateServerWithFolders(data: ServerCreate, folders: seq<FolderCreate>)
    | UpdateServer(id: int, update: ServerUpdate)
    | UpdateServerWithFolders(id: int, update: ServerUpdate, folders: seq<FolderCreate>)
    | DeleteServer(id: int)
    | CreateFolder(serverId: int, folder: FolderCreate)
    | UpdateFolder(id: int, change: FolderUpdate)
    | DeleteFolder(id: int)
    | SetFiletypes(id: int, extensions: seq<string>)

  /** A write, its answer, the numbers that its folders got, and the tables it left. */
  datatype Done = Done(write: Write, result: Written, ids: seq<int>, after: Tables)

  const EMPTY := Tables(map[], map[], map[])

  /** What the repository's methods promise of a write. */
  ghost predicate Effect(t: Tables, d: Done, lower: char -> char) {
    match d.write
    case CreateServer(data) => CreatesServer(t, data, d.result, d.after)
    case CreateServerWithFolders(data, folders) => CreatesServerWithFolders(t, data, folders, d.result, d.ids, d.after)
    case UpdateServer(id, update) => UpdatesServer(t, id, update, d.result, d.after)
    case UpdateServerWithFolders(id, update, folders) => UpdatesServerWithFolders(t, id, update, folders, d.result, d.ids, d.after)
    case DeleteServer(id) => d.after == WithoutServer(t, id)
    case CreateFolder(serverId, folder) => CreatesFolder(t, serverId, folder, d.result, d.after)
    case UpdateFolder(id, change) => UpdatesFolder(t, id, change, lower, d.result, d.after)
    case DeleteFolder(id) => d.after == WithoutFolders(t, {id})
    case SetFiletypes(id, extensions) => SetsFiletypes(t, id, extensions, lower, d.result, d.after)
  }

  function TablesOf(history: seq<Done>): Tables {
    if |history| == 0 then EMPTY else history[|history| - 1].after
  }

  /** The writes can follow each other on an empty store. */
  ghost predicate History(history: seq<Done>, lower: char -> char) {
    |history| > 0 ==>
      var before := history[..|history| - 1];
      History(before, lower) && Effect(TablesOf(before), history[|history| - 1], lower)
  }

  // ---- what was supplied ----------------------------------------------------------------------

  /** A folder as it was last supplied, with the extensions that are to be stored. */
  datatype Given = Given(serverId: int, path: string, libraryId: Option<string>, enabled: bool, extensions: set<string>)

  /** What the writes so far asked for, without rows, event-type texts or file-type tables. */
  datatype Supply = Supply(servers: map<int, ServerCreate>, folders: map<int, Given>)

  function Latest<T>(current: T, update: Option<T>): T {
    match update
    case Some(value) => value
    case None => current
  }

  function Edited(data: ServerCreate, update: ServerUpdate): ServerCreate {
    data.(name := Latest(data.name, update.name),
          scanMode := Latest(data.scanMode, update.scanMode),
          debounceMode := Latest(data.debounceMode, update.debounceMode),
          window := Latest(data.window, update.window),
          enabled := Latest(data.enabled, update.enabled),
          eventTypes := Latest(data.eventTypes, update.eventTypes))
  }

  function Listing(extensions: seq<string>, lower: char -> char): set<string> {
    Nonempty(extensions, x => NormalizeExtension(x, lower))
  }

  function Nonempty(extensions: seq<string>, norm: string -> string): set<string> {
    set i | 0 <= i < |extensions| && norm(extensions[i]) != "" :: norm(extensions[i])
  }

  function EditedFolder(given: Given, change: FolderUpdate, lower: char -> char): Given {
    given.(path := Latest(given.path, change.path),
           libraryId := Latest(given.libraryId, change.libraryId),
           enabled := Latest(given.enabled, change.enabled),
           extensions := match change.extensions case Some(list) => Listing(list, lower) case None => given.extensions)
  }

  function GivenOf(serverId: int, folder: FolderCreate): Given {
    Given(serverId, folder.path, folder.libraryId, folder.enabled, set x | x in folder.extensions)
  }

  /** The folders of one form under the numbers they got. */
  function Numbered(serverId: int, ids: seq<int>, folders: seq<FolderCreate>): map<int, Given> {
    if |ids| == 0 || |ids| != |folders| then map[]
    else Numbered(serverId, ids[..|ids| - 1], folders[..|ids| - 1])[ids[|ids| - 1] := GivenOf(serverId, folders[|ids| - 1])]
  }

  function OfOthers(folders: map<int, Given>, serverId: int): map<int, Given> {
    map f | f in folders && folders[f].serverId != serverId :: folders[f]
  }

  function SuppliedBy(before: Supply, d: Done, lower: char -> char): Supply {
    match d.write
    case CreateServer(data) => if d.result.Ok? then before.(servers := before.servers[d.result.id := data]) else before
    case CreateServerWithFolders(data, folders) =>
      if d.result.Ok? then
        Supply(before.servers[d.result.id := data], before.folders + Numbered(d.result.id, d.ids, folders))
      else before
    case UpdateServer(id, update) =>
      if d.result.Ok? && id in before.servers then before.(servers := before.servers[id := Edited(before.servers[id], update)])
      else before
    case UpdateServerWithFolders(id, update, folders) =>
      if d.result.Ok? && id in before.servers then
        Supply(before.servers[id := Edited(before.servers[id], update)],
               OfOthers(before.folders, id) + Numbered(id, d.ids, folders))
      else before
    case DeleteServer(id) => Supply(before.servers - {id}, OfOthers(before.folders, id))
    case CreateFolder(serverId, folder) =>
      if d.result.Ok? then before.(folders := before.folders[d.result.id := GivenOf(serverId, folder)]) else before
    case UpdateFolder(id, change) =>
      if d.result.Ok? && id in before.folders then
        before.(folders := before.folders[id := EditedFolder(before.folders[id], change, lower)])
      else before
    case DeleteFolder(id) => before.(folders := before.folders - {id})
    case SetFiletypes(id, extensions) =>
      if d.result.Ok? && id in before.folders then
        before.(folders := before.folders[id := before.folders[id].(extensions := Listing(extensions, lower))])
      else before
  }

  function Supplied(history: seq<Done>, lower: char -> char): Supply {
    if |history| == 0 then Supply(map[], map[])
    else SuppliedBy(Supplied(history[..|history| - 1], lower), history[|history| - 1], lower)
  }

  /** The row says what was supplied; its text reads as the event types. */
  predicate Shows(row: ServerRow, data: ServerCreate) {
    && row.name == data.name && row.scanMode == data.scanMode && row.debounceMode == data.debounceMode
    && row.window == data.window && row.enabled == data.enabled && ReadsAs(row.eventTypes, data.eventTypes)
  }

  ghost predicate ShowsFolder(t: Tables, f: int, given: Given) {
    && f in t.folders && t.folders[f].serverId == given.serverId && t.folders[f].path == given.path
    && t.folders[f].libraryId == given.libraryId && t.folders[f].enabled == given.enabled
    && forall x :: x in given.extensions <==> HasType(t, f, x)
  }

  ghost predicate HasType(t: Tables, f: int, x: string) {
    exists k :: k in t.fileTypes && t.fileTypes[k] == FileTypeRow(f, x)
  }

  ghost predicate Recorded(servers: map<int, ServerRow>, supplied: map<int, ServerCreate>) {
    && servers.Keys == supplied.Keys
    && forall id :: id in supplied ==> Shows(servers[id], supplied[id])
  }

  ghost predicate FoldersRecorded(t: Tables, supplied: map<int, Given>) {
    && t.folders.Keys == supplied.Keys
    && forall f :: f in supplied ==> ShowsFolder(t, f, supplied[f])
  }

  predicate ReadsAs(raw: string, types: seq<FsEventType>) {
    ParseEventTypes(raw) == Some(set t | t in types)
  }

  // ---- one write --------------------------------------------------------------------------

  lemma {:induction false} RowRecorded(servers: map<int, ServerRow>, supplied: map<int, ServerCreate>, id: int, row: ServerRow,
                                       data: ServerCreate)
    requires Recorded(servers, supplied) && Shows(row, data)
    ensures Recorded(servers[id := row], supplied[id := data])
  {
  }

  lemma {:induction false} WrittenReads(types: seq<FsEventType>)
    ensures ReadsAs(SerializeEventTypes(types), types)
  {
    EventTypesRoundTrip(types);
  }

  lemma {:induction false} UpdateRecorded(servers: map<int, ServerRow>, supplied: map<int, ServerCreate>, id: int, update: ServerUpdate)
    requires Recorded(servers, supplied) && id in servers
    ensures Recorded(servers[id := UpdatedServer(servers[id], update)], supplied[id := Edited(supplied[id], update)])
  {
    if update.eventTypes.Some? { WrittenReads(update.eventTypes.value); }
    assert Shows(servers[id], supplied[id]);
    RowRecorded(servers, supplied, id, UpdatedServer(servers[id], update), Edited(supplied[id], update));
  }

  lemma {:induction false} WriteRecorded(t: Tables, d: Done, supplied: Supply, lower: char -> char)
    requires Recorded(t.servers, supplied.servers) && Effect(t, d, lower)
    ensures Recorded(d.after.servers, SuppliedBy(supplied, d, lower).servers)
  {
    match d.write
    case CreateServer(data) =>
      WrittenReads(data.eventTypes);
      if d.result.Ok? { RowRecorded(t.servers, supplied.servers, d.result.id, NewServer(data), data); }
    case CreateServerWithFolders(data, _) =>
      WrittenReads(data.eventTypes);
      if d.result.Ok? { RowRecorded(t.servers, supplied.servers, d.result.id, NewServer(data), data); }
    case UpdateServer(id, update) =>
      if id in t.servers { UpdateRecorded(t.servers, supplied.servers, id, update); }
    case UpdateServerWithFolders(id, update, _) =>
      if id in t.servers { UpdateRecorded(t.servers, supplied.servers, id, update); }
    case _ =>
  }

  // ---- one write, and the folders -----------------------------------------------------------

  lemma {:induction false} NumberedAt(serverId: int, ids: seq<int>, folders: seq<FolderCreate>)
    requires |ids| == |folders| && forall i, j :: 0 <= i < j < |ids| ==> ids[i] != ids[j]
    ensures forall f :: f in Numbered(serverId, ids, folders) <==> f in ids
    ensures forall i :: 0 <= i < |ids| ==> Numbered(serverId, ids, folders)[ids[i]] == GivenOf(serverId, folders[i])
  {
    if |ids| > 0 {
      var n := |ids| - 1;
      var front, before := ids[..n], Numbered(serverId, ids[..n], folders[..n]);
      NumberedAt(serverId, front, folders[..n]);
      forall f ensures f in Numbered(serverId, ids, folders) <==> f in ids {
        assert f in ids <==> f in front || f == ids[n];
      }
      forall i | 0 <= i < n ensures Numbered(serverId, ids, folders)[ids[i]] == GivenOf(serverId, folders[i]) {
        assert front[i] == ids[i] && before[front[i]] == GivenOf(serverId, folders[..n][i]);
      }
    }
  }

  /** A folder that the write leaves alone. */
  lemma {:induction false} OtherShown(t: Tables, u: Tables, was: set<int>, now: set<int>, f: int, given: Given)
    requires ShowsFolder(t, f, given) && f !in was && f !in now && f in u.folders && u.folders[f] == t.folders[f]
    requires TypesWithout(u, now) == TypesWithout(t, was)
    ensures ShowsFolder(u, f, given)
  {
    var a, b := TypesWithout(u, now), TypesWithout(t, was);
    forall x ensures HasType(t, f, x) <==> HasType(u, f, x) {
      if k :| k in t.fileTypes && t.fileTypes[k] == FileTypeRow(f, x) {
        assert k in b && k in a && a[k] == b[k];
      }
      if k :| k in u.fileTypes && u.fileTypes[k] == FileTypeRow(f, x) {
        assert k in a && k in b && a[k] == b[k];
      }
    }
  }

  lemma {:induction false} ExtensionsShown(t: Tables, f: int, extensions: set<string>)
    requires ExtensionsOf(t, f) == extensions
    ensures forall x :: x in extensions <==> HasType(t, f, x)
  {
    forall x ensures x in extensions <==> HasType(t, f, x) {
      if x in extensions {
        assert x in ExtensionsOf(t, f);
        var k :| k in t.fileTypes && t.fileTypes[k].folderId == f && t.fileTypes[k].extension == x;
        assert t.fileTypes[k] == FileTypeRow(f, x);
      }
      if k :| k in t.fileTypes && t.fileTypes[k] == FileTypeRow(f, x) {
        assert x in ExtensionsOf(t, f);
      }
    }
  }

  lemma {:induction false} SubmittedShown(u: Tables, id: int, serverId: int, folder: FolderCreate)
    requires FolderIs(u, id, serverId, folder)
    ensures ShowsFolder(u, id, GivenOf(serverId, folder))
  {
    ExtensionsShown(u, id, Elements(folder.extensions));
  }

  /** The folders of one server are replaced; those of the others stay. */
  lemma {:induction false} FormRecorded(t: Tables, u: Tables, supplied: map<int, Given>, serverId: int, ids: seq<int>,
                                        folders: seq<FolderCreate>)
    requires FoldersRecorded(t, supplied) && FoldersAre(u, serverId, ids, folders) && OthersKept(t, u, serverId)
    ensures FoldersRecorded(u, OfOthers(supplied, serverId) + Numbered(serverId, ids, folders))
  {
    var all := OfOthers(supplied, serverId) + Numbered(serverId, ids, folders);
    var was, now := FoldersOf(t, serverId), FoldersOf(u, serverId);
    var rest, left := t.folders - was, u.folders - now;
    NumberedAt(serverId, ids, folders);
    forall f ensures f in u.folders <==> f in all {
      assert f in supplied ==> ShowsFolder(t, f, supplied[f]);
      assert f in left <==> f in rest;
    }
    forall f | f in all ensures ShowsFolder(u, f, all[f]) {
      if f in ids {
        var i :| 0 <= i < |ids| && ids[i] == f;
        SubmittedShown(u, ids[i], serverId, folders[i]);
      } else {
        assert ShowsFolder(t, f, supplied[f]) && f in rest && f in left && left[f] == rest[f];
        OtherShown(t, u, was, now, f, supplied[f]);
      }
    }
  }

  /** One folder is added or replaced. */
  lemma {:induction false} FolderRecorded(t: Tables, u: Tables, supplied: map<int, Given>, was: set<int>, id: int, given: Given)
    requires FoldersRecorded(t, supplied) && ShowsFolder(u, id, given) && was <= {id}
    requires u.folders == t.folders[id := u.folders[id]] && TypesWithout(u, {id}) == TypesWithout(t, was)
    ensures FoldersRecorded(u, supplied[id := given])
  {
    forall f | f in supplied && f != id ensures ShowsFolder(u, f, supplied[f]) {
      OtherShown(t, u, was, {id}, f, supplied[f]);
    }
  }

  /** Folders are dropped with their file types. */
  lemma {:induction false} DropRecorded(t: Tables, supplied: map<int, Given>, gone: set<int>)
    requires FoldersRecorded(t, supplied)
    ensures FoldersRecorded(WithoutFolders(t, gone), supplied - gone)
  {
    var u := WithoutFolders(t, gone);
    assert TypesWithout(u, gone) == TypesWithout(t, gone);
    forall f | f in supplied && f !in gone ensures ShowsFolder(u, f, supplied[f]) {
      OtherShown(t, u, gone, gone, f, supplied[f]);
    }
  }

  lemma {:induction false} SameTables(t: Tables, u: Tables, supplied: map<int, Given>)
    requires FoldersRecorded(t, supplied) && u.folders == t.folders && u.fileTypes == t.fileTypes
    ensures FoldersRecorded(u, supplied)
  {
    forall f | f in supplied ensures ShowsFolder(u, f, supplied[f]) {
      assert ShowsFolder(t, f, supplied[f]);
      assert forall x :: HasType(u, f, x) <==> HasType(t, f, x);
    }
  }

  lemma {:induction false} NonemptyAmong(extensions: seq<string>, norm: string -> string, names: seq<string>)
    requires |names| == |extensions| && forall i :: 0 <= i < |names| ==> names[i] == norm(extensions[i])
    ensures Nonempty(extensions, norm) == Elements(names) - {""}
  {
    forall x ensures x in Nonempty(extensions, norm) <==> x in names && x != "" {
      if x in names && x != "" {
        var i :| 0 <= i < |names| && names[i] == x;
        assert norm(extensions[i]) == x;
      }
      if i :| 0 <= i < |extensions| && norm(extensions[i]) != "" && norm(extensions[i]) == x {
        assert names[i] == x;
      }
    }
  }

  lemma {:induction false} ListingIs(extensions: seq<string>, lower: char -> char)
    ensures Listing(extensions, lower) == Elements(Normalized(extensions, lower)) - {""}
  {
    NonemptyAmong(extensions, x => NormalizeExtension(x, lower), Normalized(extensions, lower));
  }

  lemma {:induction false} TypesSetShown(t: Tables, u: Tables, id: int, extensions: seq<string>, lower: char -> char)
    requires SetsTypes(t, id, extensions, lower, u)
    ensures forall x :: x in Listing(extensions, lower) <==> HasType(u, id, x)
  {
    ListingIs(extensions, lower);
    ExtensionsShown(u, id, Listing(extensions, lower));
  }

  lemma {:induction false} ServerDropRecorded(t: Tables, supplied: map<int, Given>, id: int)
    requires FoldersRecorded(t, supplied)
    ensures FoldersRecorded(WithoutServer(t, id), OfOthers(supplied, id))
  {
    DropRecorded(t, supplied, FoldersOf(t, id));
    SameTables(WithoutFolders(t, FoldersOf(t, id)), WithoutServer(t, id), supplied - FoldersOf(t, id));
    assert forall f :: f in supplied ==> ShowsFolder(t, f, supplied[f]);
    assert OfOthers(supplied, id) == supplied - FoldersOf(t, id);
  }

  lemma {:induction false} FormWriteRecorded(t: Tables, d: Done, supplied: Supply, lower: char -> char)
    requires Sound(t) && FoldersRecorded(t, supplied.folders) && Recorded(t.servers, supplied.servers) && Effect(t, d, lower)
    requires d.write.CreateServerWithFolders? || d.write.UpdateServerWithFolders?
    ensures FoldersRecorded(d.after, SuppliedBy(supplied, d, lower).folders)
  {
    match d.write
    case CreateServerWithFolders(data, folders) =>
      if d.result.Ok? {
        FormRecorded(t, d.after, supplied.folders, d.result.id, d.ids, folders);
        assert forall f :: f in supplied.folders ==> ShowsFolder(t, f, supplied.folders[f]);
        assert OfOthers(supplied.folders, d.result.id) == supplied.folders;
      }
    case UpdateServerWithFolders(id, update, folders) =>
      if d.result.Ok? { FormRecorded(t, d.after, supplied.folders, id, d.ids, folders); }
  }

  lemma {:induction false} FolderChangeRecorded(t: Tables, d: Done, supplied: Supply, lower: char -> char)
    requires FoldersRecorded(t, supplied.folders) && Effect(t, d, lower) && d.result.Ok?
    requires d.write.UpdateFolder? || d.write.SetFiletypes?
    ensures FoldersRecorded(d.after, SuppliedBy(supplied, d, lower).folders)
  {
    match d.write
    case UpdateFolder(id, change) =>
      assert ShowsFolder(t, id, supplied.folders[id]);
      if change.extensions.Some? {
        TypesSetShown(t, d.after, id, change.extensions.value, lower);
      } else {
        assert forall x :: HasType(d.after, id, x) <==> HasType(t, id, x);
      }
      FolderRecorded(t, d.after, supplied.folders, {id}, id, EditedFolder(supplied.folders[id], change, lower));
    case SetFiletypes(id, extensions) =>
      assert ShowsFolder(t, id, supplied.folders[id]);
      TypesSetShown(t, d.after, id, extensions, lower);
      assert d.after.folders == t.folders[id := t.folders[id]];
      FolderRecorded(t, d.after, supplied.folders, {id}, id, supplied.folders[id].(extensions := Listing(extensions, lower)));
  }

  lemma {:induction false} FolderWriteRecorded(t: Tables, d: Done, supplied: Supply, lower: char -> char)
    requires Sound(t) && FoldersRecorded(t, supplied.folders) && Recorded(t.servers, supplied.servers) && Effect(t, d, lower)
    ensures FoldersRecorded(d.after, SuppliedBy(supplied, d, lower).folders)
  {
    match d.write
    case CreateServer(_) => SameTables(t, d.after, supplied.folders);
    case UpdateServer(_, _) => SameTables(t, d.after, supplied.folders);
    case CreateServerWithFolders(_, _) => FormWriteRecorded(t, d, supplied, lower);
    case UpdateServerWithFolders(_, _, _) => FormWriteRecorded(t, d, supplied, lower);
    case DeleteServer(id) => ServerDropRecorded(t, supplied.folders, id);
    case CreateFolder(serverId, folder) =>
      if d.result.Ok? {
        SubmittedShown(d.after, d.result.id, serverId, folder);
        assert TypesWithout(t, {}) == t.fileTypes;
        FolderRecorded(t, d.after, supplied.folders, {}, d.result.id, GivenOf(serverId, folder));
      }
    case UpdateFolder(_, _) => if d.result.Ok? { FolderChangeRecorded(t, d, supplied, lower); }
    case SetFiletypes(_, _) => if d.result.Ok? { FolderChangeRecorded(t, d, supplied, lower); }
    case DeleteFolder(id) => DropRecorded(t, supplied.folders, {id});
  }

  // ---- one write, and what the tables keep ----------------------------------------------------

  /** Rows are without orphans and duplicates, names apart. */
  ghost predicate Sound(t: Tables) {
    NoOrphans(t) && NoDuplicateTypes(t)
  }

  /** Folders that a write replaces, `was` before and `now` after, with everything else as it was. */
  lemma {:induction false} ReplacedFolders(t: Tables, u: Tables, was: set<int>, now: set<int>)
    requires Sound(t) && t.servers.Keys <= u.servers.Keys
    requires u.folders - now == t.folders - was && TypesWithout(u, now) == TypesWithout(t, was)
    requires was <= t.folders.Keys && now <= u.folders.Keys
    requires forall f :: f in now ==> u.folders[f].serverId in u.servers && SingleRows(u.fileTypes, f)
    ensures Sound(u)
  {
    var a, b := TypesWithout(u, now), TypesWithout(t, was);
    var fs, gs := u.folders - now, t.folders - was;
    forall f | f in u.folders && f !in now ensures u.folders[f].serverId in u.servers {
      assert f in fs && fs[f] == u.folders[f] && gs[f] == t.folders[f];
    }
    forall x | x in u.fileTypes && u.fileTypes[x].folderId !in now
      ensures x in t.fileTypes && t.fileTypes[x] == u.fileTypes[x] && u.fileTypes[x].folderId in u.folders
    {
      assert x in a && a[x] == u.fileTypes[x] && x in b && b[x] == t.fileTypes[x];
      assert t.fileTypes[x].folderId in gs;
      assert u.fileTypes[x].folderId in fs;
    }
  }

  lemma {:induction false} FoldersReplaced(t: Tables, u: Tables, serverId: int, ids: seq<int>, folders: seq<FolderCreate>)
    requires Sound(t) && t.servers.Keys <= u.servers.Keys && serverId in u.servers
    requires FoldersAre(u, serverId, ids, folders) && OthersKept(t, u, serverId)
    ensures Sound(u)
  {
    forall f | f in FoldersOf(u, serverId) ensures SingleRows(u.fileTypes, f) {
      var i :| 0 <= i < |ids| && ids[i] == f;
      assert FolderIs(u, ids[i], serverId, folders[i]);
    }
    ReplacedFolders(t, u, FoldersOf(t, serverId), FoldersOf(u, serverId));
  }

  lemma {:induction false} OneFolderReplaced(t: Tables, u: Tables, id: int, row: FolderRow)
    requires Sound(t) && u.servers == t.servers && row.serverId in t.servers && u.folders == t.folders[id := row]
    requires TypesWithout(u, {id}) == TypesWithout(t, {id}) && SingleRows(u.fileTypes, id)
    ensures Sound(u)
  {
    var was: set<int> := if id in t.folders then {id} else {};
    assert u.folders - {id} == t.folders - was;
    if id !in t.folders {
      NoTypesYet(t, id);
      assert TypesWithout(t, was) == t.fileTypes;
    }
    ReplacedFolders(t, u, was, {id});
  }

  lemma {:induction false} UnchangedTypes(t: Tables, u: Tables, id: int)
    requires Sound(t) && u.fileTypes == t.fileTypes
    ensures TypesWithout(u, {id}) == TypesWithout(t, {id}) && SingleRows(u.fileTypes, id)
  {
  }

  lemma {:induction false} ServerWriteSound(t: Tables, d: Done, lower: char -> char)
    requires Sound(t) && Effect(t, d, lower)
    requires d.write.CreateServer? || d.write.CreateServerWithFolders? || d.write.UpdateServer? || d.write.UpdateServerWithFolders?
    ensures Sound(d.after)
  {
    if d.result.Ok? {
      match d.write
      case CreateServerWithFolders(data, folders) =>
        FoldersReplaced(t, d.after, d.result.id, d.ids, folders);
      case UpdateServerWithFolders(id, update, folders) =>
        FoldersReplaced(t, d.after, id, d.ids, folders);
      case _ =>
    }
  }

  lemma {:induction false} FolderWriteSound(t: Tables, d: Done, lower: char -> char)
    requires Sound(t) && Effect(t, d, lower)
    requires d.write.CreateFolder? || d.write.UpdateFolder? || d.write.SetFiletypes?
    ensures Sound(d.after)
  {
    if d.result.Ok? {
      match d.write
      case CreateFolder(serverId, folder) =>
        NoTypesYet(t, d.result.id);
        OneFolderReplaced(t, d.after, d.result.id, RowOf(folder, serverId));
      case UpdateFolder(id, change) =>
        if change.extensions.None? { UnchangedTypes(t, d.after, id); }
        OneFolderReplaced(t, d.after, id, UpdatedFolder(t.folders[id], change));
      case SetFiletypes(id, _) =>
        assert t.folders[id := t.folders[id]] == t.folders;
        OneFolderReplaced(t, d.after, id, t.folders[id]);
    }
  }

  lemma {:induction false} WriteSound(t: Tables, d: Done, lower: char -> char)
    requires Sound(t) && Effect(t, d, lower)
    ensures Sound(d.after)
  {
    match d.write
    case DeleteServer(_) =>
    case DeleteFolder(_) =>
    case CreateFolder(_, _) => FolderWriteSound(t, d, lower);
    case UpdateFolder(_, _) => FolderWriteSound(t, d, lower);
    case SetFiletypes(_, _) => FolderWriteSound(t, d, lower);
    case _ => ServerWriteSound(t, d, lower);
  }

  lemma {:induction false} NamesStayUnique(servers: map<int, ServerRow>, id: int, row: ServerRow)
    requires UniqueNames(servers) && !NameTaken(servers - {id}, row.name)
    ensures UniqueNames(servers[id := row])
  {
    assert forall s :: s in servers && s != id ==> s in servers - {id} && (servers - {id})[s] == servers[s];
  }

  lemma {:induction false} WriteKeepsNames(t: Tables, d: Done, lower: char -> char)
    requires UniqueNames(t.servers) && Effect(t, d, lower)
    ensures UniqueNames(d.after.servers)
  {
    if d.result.Ok? {
      match d.write
      case CreateServer(data) =>
        assert t.servers - {d.result.id} == t.servers;
        NamesStayUnique(t.servers, d.result.id, NewServer(data));
      case CreateServerWithFolders(data, _) =>
        assert t.servers - {d.result.id} == t.servers;
        NamesStayUnique(t.servers, d.result.id, NewServer(data));
      case UpdateServer(id, update) => NamesStayUnique(t.servers, id, UpdatedServer(t.servers[id], update));
      case UpdateServerWithFolders(id, update, _) => NamesStayUnique(t.servers, id, UpdatedServer(t.servers[id], update));
      case _ =>
    }
  }

  // ---- every sequence of writes -------------------------------------------------------------

  lemma {:induction false} RecordedReads(servers: map<int, ServerRow>, supplied: map<int, ServerCreate>)
    requires Recorded(servers, supplied)
    ensures Readable(servers)
  {
    forall s | s in servers ensures ParseEventTypes(servers[s].eventTypes).Some? {
      assert s in supplied && Shows(servers[s], supplied[s]);
    }
  }

  /** After any sequence of writes no folder and no file type is an orphan, no folder has an extension
      twice, no two servers have one name, every server's row says what was last supplied for it, its text
      reading as the list of event types, and every folder has the fields and exactly the extensions last
      supplied for it. */
  lemma {:induction false} WritesKeepIntact(history: seq<Done>, lower: char -> char)
    requires History(history, lower)
    ensures Intact(TablesOf(history)) && Recorded(TablesOf(history).servers, Supplied(history, lower).servers)
    ensures FoldersRecorded(TablesOf(history), Supplied(history, lower).folders)
  {
    if |history| > 0 {
      var before, d := history[..|history| - 1], history[|history| - 1];
      WritesKeepIntact(before, lower);
      WriteRecorded(TablesOf(before), d, Supplied(before, lower), lower);
      FolderWriteRecorded(TablesOf(before), d, Supplied(before, lower), lower);
      WriteSound(TablesOf(before), d, lower);
      WriteKeepsNames(TablesOf(before), d, lower);
      RecordedReads(d.after.servers, Supplied(history, lower).servers);
    }
  }

  ghost predicate NameIn(servers: map<int, ServerCreate>, name: string, but: set<int>) {
    exists s :: s in servers && s !in but && servers[s].name == name
  }

  /** What the answer to a write must be, told from what was supplied before. */
  ghost predicate Answered(c: Supply, d: Done) {
    match d.write
    case CreateServer(data) => if NameIn(c.servers, data.name, {}) then d.result.Conflict? else d.result.Ok? && d.result.id !in c.servers
    case CreateServerWithFolders(data, _) =>
      if NameIn(c.servers, data.name, {}) then d.result.Conflict? else d.result.Ok? && d.result.id !in c.servers
    case UpdateServer(id, update) => UpdateIsAnswered(c, id, update, d.result)
    case UpdateServerWithFolders(id, update, _) => UpdateIsAnswered(c, id, update, d.result)
    case CreateFolder(serverId, _) => if serverId in c.servers then d.result.Ok? && d.result.id !in c.folders else d.result.Conflict?
    case UpdateFolder(id, _) => if id in c.folders then d.result.Ok? else d.result.NotFound?
    case SetFiletypes(id, _) => if id in c.folders then d.result.Ok? else d.result.NotFound?
    case _ => true
  }

  ghost predicate UpdateIsAnswered(c: Supply, id: int, update: ServerUpdate, r: Written) {
    if id !in c.servers then r.NotFound?
    else if NameIn(c.servers, Latest(c.servers[id].name, update.name), {id}) then r.Conflict?
    else r.Ok?
  }

  lemma {:induction false} NamesSupplied(servers: map<int, ServerRow>, supplied: map<int, ServerCreate>, name: string, but: set<int>)
    requires Recorded(servers, supplied)
    ensures NameTaken(servers - but, name) <==> NameIn(supplied, name, but)
  {
    forall s | s in supplied ensures servers[s].name == supplied[s].name { assert Shows(servers[s], supplied[s]); }
    var rest := servers - but;
    if s :| s in rest && rest[s].name == name { assert s in supplied && s !in but && supplied[s].name == name; }
    if s :| s in supplied && s !in but && supplied[s].name == name { assert s in rest && rest[s].name == name; }
  }

  /** Every write is refused exactly for the reason that what was supplied before gives: a taken name, or
      something that is not there; and a new number is a new one. */
  lemma {:induction false} WritesAnswered(history: seq<Done>, d: Done, lower: char -> char)
    requires History(history, lower) && Effect(TablesOf(history), d, lower)
    ensures Answered(Supplied(history, lower), d)
  {
    var t, c := TablesOf(history), Supplied(history, lower);
    WritesKeepIntact(history, lower);
    match d.write
    case CreateServer(data) =>
      NamesSupplied(t.servers, c.servers, data.name, {});
      assert t.servers - {} == t.servers;
    case CreateServerWithFolders(data, _) =>
      NamesSupplied(t.servers, c.servers, data.name, {});
      assert t.servers - {} == t.servers;
    case UpdateServer(id, update) =>
      if id in c.servers {
        assert Shows(t.servers[id], c.servers[id]);
        NamesSupplied(t.servers, c.servers, Latest(c.servers[id].name, update.name), {id});
      }
    case UpdateServerWithFolders(id, update, _) =>
      if id in c.servers {
        assert Shows(t.servers[id], c.servers[id]);
        NamesSupplied(t.servers, c.servers, Latest(c.servers[id].name, update.name), {id});
      }
    case _ =>
  }

  // ---- the snapshot ---------------------------------------------------------------------------

  /** The snapshot built after any sequence of writes: every route is for a folder supplied as enabled, of a
      server supplied as enabled, and has what was last supplied for the two, path and extensions normalized. */
  lemma {:induction false} RoutesAreAsSupplied(history: seq<Done>, lower: char -> char, config: RuntimeConfig, ids: seq<int>, i: nat)
    requires History(history, lower) && Agrees(TablesOf(history), config, ids, lower) && i < |config.routes|
    ensures i < |ids|
    ensures var c, route := Supplied(history, lower), config.routes[i];
            && ids[i] in c.folders && c.folders[ids[i]].enabled
            && var folder := c.folders[ids[i]];
            && folder.serverId in c.servers && c.servers[folder.serverId].enabled
            && var server := c.servers[folder.serverId];
            && route.serverId == folder.serverId && route.serverName == server.name && route.scanMode == server.scanMode
            && route.libraryId == folder.libraryId && route.path == NormalizePath(folder.path)
            && route.eventTypes == (set t | t in server.eventTypes)
            && forall x :: x in route.extensions <==> exists y :: y in folder.extensions && NormalizeExtension(y, lower) == x
  {
    var t, c := TablesOf(history), Supplied(history, lower);
    WritesKeepIntact(history, lower);
    RouteReadsRow(t, config, ids, lower, i);
    RoutesReadRows(t, config, ids, lower, i);
    var folder := c.folders[ids[i]];
    assert ShowsFolder(t, ids[i], folder);
    assert Shows(t.servers[folder.serverId], c.servers[folder.serverId]);
    forall x ensures Listed(t, ids[i], lower, x) <==> exists y :: y in folder.extensions && NormalizeExtension(y, lower) == x {
      ListedSupplied(t, ids[i], folder, lower, x);
    }
  }

  lemma {:induction false} ListedSupplied(t: Tables, f: int, folder: Given, lower: char -> char, x: string)
    requires ShowsFolder(t, f, folder)
    ensures Listed(t, f, lower, x) <==> exists y :: y in folder.extensions && NormalizeExtension(y, lower) == x
  {
    if k :| k in t.fileTypes && t.fileTypes[k].folderId == f && NormalizeExtension(t.fileTypes[k].extension, lower) == x {
      var y := t.fileTypes[k].extension;
      assert t.fileTypes[k] == FileTypeRow(f, y) && HasType(t, f, y);
      assert y in folder.extensions;
    }
    if y :| y in folder.extensions && NormalizeExtension(y, lower) == x {
      assert HasType(t, f, y);
      var k :| k in t.fileTypes && t.fileTypes[k] == FileTypeRow(f, y);
      assert t.fileTypes[k].folderId == f;
    }
  }

  /** Every folder supplied as enabled, of a server supplied as enabled, has exactly one route, and the servers of
      the snapshot are the enabled ones as last supplied. */
  lemma {:induction false} SnapshotIsAsSupplied(history: seq<Done>, lower: char -> char, config: RuntimeConfig, ids: seq<int>)
    requires History(history, lower) && Agrees(TablesOf(history), config, ids, lower)
    ensures |ids| == |config.routes| && forall i, j :: 0 <= i < j < |ids| ==> ids[i] != ids[j]
    ensures var c := Supplied(history, lower);
            forall f :: f in ids <==> f in c.folders && c.folders[f].enabled
                                      && c.folders[f].serverId in c.servers && c.servers[c.folders[f].serverId].enabled
    ensures var c := Supplied(history, lower);
            forall s :: s in config.servers <==> s in c.servers && c.servers[s].enabled
    ensures var c := Supplied(history, lower);
            forall s :: s in config.servers ==>
              var data := c.servers[s]; config.servers[s] == ServerRuntime(data.name, data.scanMode, data.debounceMode, data.window)
  {
    var t, c := TablesOf(history), Supplied(history, lower);
    WritesKeepIntact(history, lower);
    SnapshotIsWhole(t, config, ids, lower);
    assert forall s :: s in c.servers ==> Shows(t.servers[s], c.servers[s]);
    assert forall f :: f in c.folders ==> ShowsFolder(t, f, c.folders[f]);
  }

  // ---- two writes ---------------------------------------------------------------------------

  function Creation(data: ServerCreate, path: string): Done {
    Done(Write.CreateServerWithFolders(data, [FolderCreate(path, None, [], true)]), Ok(1), [1], OneFolder(NewServer(data), path))
  }

  function PathChange(data: ServerCreate, path: string): Done {
    Done(Write.UpdateFolder(1, FolderUpdate(Some(path), None, None, None)), Ok(1), [1], OneFolder(NewServer(data), path))
  }

  lemma {:induction false} CreationEffect(data: ServerCreate, path: string, lower: char -> char)
    ensures Effect(EMPTY, Creation(data, path), lower)
  {
    var u := OneFolder(NewServer(data), path);
    assert FoldersOf(u, 1) == {1} && FoldersOf(EMPTY, 1) == {};
    assert FolderIs(u, [1][0], 1, FolderCreate(path, None, [], true));
    assert CreatesServerWithFolders(EMPTY, data, [FolderCreate(path, None, [], true)], Ok(1), [1], u);
  }

  /** A server is created with one folder, and then that folder's path is changed. */
  lemma {:induction false} CreatedAndMoved(data: ServerCreate, p: string, q: string, lower: char -> char)
    ensures History([Creation(data, p)], lower) && History([Creation(data, p), PathChange(data, q)], lower)
  {
    CreationEffect(data, p, lower);
    assert [Creation(data, p), PathChange(data, q)][..1] == [Creation(data, p)];
    assert History([Creation(data, p)][..0], lower);
  }
}
