/**
  The few editor API values the core passes around: a document uri, a symbol kind
  and a symbol entry of a document outline.
 */
module VsCode {
  import opened Wrappers

  /** A file uri, identified by its file-system path (`uri.fsPath`). */
  type Uri = string

  /** The symbol kinds the outline produces. */
  datatype SymbolKind = Package | Namespace | Variable | Interface | Function

  /**
    `vscode.SymbolInformation`: a name, a kind (absent when the declaration type is
    unknown), the start and end document offsets of its range, the document and the
    name of the enclosing symbol.
   */
  datatype SymbolInformation = SymbolInformation(
    name: string,
    kind: Option<SymbolKind>,
    start: int,
    end: int,
    uri: Uri,
    containerName: string)

  /** A workspace folder: the scheme of its uri and its path. */
  datatype WorkspaceFolder = WorkspaceFolder(scheme: string, path: string)

  /**
    `workspaceFolders.filter(folder => folder.uri.scheme === 'file')[0]`: the first folder
    on the local file system, `undefined` when there is none.
   */
  function FirstFileFolder(folders: seq<WorkspaceFolder>): (r: Option<WorkspaceFolder>)
    ensures r.None? <==> forall f :: f in folders ==> f.scheme != "file"
    ensures r.Some? ==> exists i :: 0 <= i < |folders| && folders[i] == r.value && r.value.scheme == "file"
                         && forall k :: 0 <= k < i ==> folders[k].scheme != "file"
  {
    if folders == [] then None
    else if folders[0].scheme == "file" then Some(folders[0])
    else FirstFileFolder(folders[1..])
  }
}
