/** The values that flow through the pipeline, and the configuration snapshot. */
module Types {

  datatype Option<+T> = None | Some(value: T)

  datatype FsEventType = Created | MovedTo | Deleted | MovedFrom

  datatype ScanMode = Targeted | Library

  datatype DebounceMode = Off | Trailing

  datatype FsEvent = FsEvent(path: string, eventType: FsEventType, isDir: bool)

  datatype ScanRequest = ScanRequest(
    serverId: int,
    serverName: string,
    scanMode: ScanMode,
    scanPath: Option<string>,
    libraryId: Option<string>,
    scanKey: string,
    eventType: FsEventType,
    filePath: string,
    topFolder: Option<string>)

  /** The fields of a server that the pipeline reads; the adapters' own settings are opaque here. */
  datatype ServerRuntime = ServerRuntime(
    name: string,
    scanMode: ScanMode,
    debounceMode: DebounceMode,
    window: nat)

  /** An empty extension set matches every file; an empty event-type set matches none. */
  datatype FolderRoute = FolderRoute(
    serverId: int,
    serverName: string,
    path: string,
    extensions: set<string>,
    libraryId: Option<string>,
    scanMode: ScanMode,
    eventTypes: set<FsEventType>)

  datatype RuntimeConfig = RuntimeConfig(
    watchPaths: set<string>,
    routes: seq<FolderRoute>,
    servers: map<int, ServerRuntime>,
    ignoreDirs: set<string>)

  /** Any element, for the loops over sets and dictionaries, whose order is left open. */
  method Pick<T>(s: set<T>) returns (x: T)
    requires s != {}
    ensures x in s
  {
    x :| x in s;
  }
}
