/** Finding the workspace folders to deploy: the immediate subdirectories of the
    workspaces root that contain the configuration file, sorted by name. */
module Discovery {
  import opened Common
  import opened Ordering

  /** One entry of the root directory listing: its name, whether it is a directory,
      and the names of the files directly inside it. */
  datatype DirEntry = DirEntry(name: string, isDir: bool, files: set<string>)

  /** The workspaces root as the file system shows it. */
  datatype Directory = Missing | Present(entries: seq<DirEntry>)

  function Identity(s: string): string { s }

  /** An entry is a workspace folder when it is a directory holding the configuration file. */
  predicate IsWorkspaceFolder(e: DirEntry, configFilename: string)
  {
    e.isDir && configFilename in e.files
  }

  /** The list comprehension: the names of the workspace folders, in listing order. */
  function WorkspaceFolderNames(entries: seq<DirEntry>, configFilename: string): (names: seq<string>)
    ensures |names| <= |entries|
    ensures forall n :: n in names <==>
      exists i :: 0 <= i < |entries| && entries[i].name == n && IsWorkspaceFolder(entries[i], configFilename)
    decreases |entries|
  {
    if |entries| == 0 then []
    else
      var rest := WorkspaceFolderNames(entries[1..], configFilename);
      assert forall i :: 0 <= i < |entries| - 1 ==> entries[1..][i] == entries[i + 1];
      if IsWorkspaceFolder(entries[0], configFilename) then [entries[0].name] + rest else rest
  }

  function DirectoryNotFoundMessage(workspacesDir: string): string
  {
    "Workspaces directory not found: " + workspacesDir
  }

  function NoWorkspaceFoldersMessage(workspacesDir: string, configFilename: string): string
  {
    "No workspace folders with '" + configFilename + "' found in " + workspacesDir + ". "
    + "Each workspace folder must contain a config.yml file."
  }

  /** `get_workspace_folders`: a missing root raises FileNotFoundError, a root without
      any workspace folder raises ValueError; otherwise the folder names come back
      sorted, exactly the qualifying entries, each as often as listed. */
  function GetWorkspaceFolders(root: Directory, workspacesDir: string, configFilename: string): (r: Result<seq<string>, Error>)
    ensures root.Missing? <==> r == Err(Error(FileNotFoundError, DirectoryNotFoundMessage(workspacesDir)))
    ensures root.Present? && (forall e :: e in root.entries ==> !IsWorkspaceFolder(e, configFilename))
      <==> r == Err(Error(ValueError, NoWorkspaceFoldersMessage(workspacesDir, configFilename)))
    ensures root.Present? && (exists e :: e in root.entries && IsWorkspaceFolder(e, configFilename)) ==> r.Ok?
    ensures r.Ok? ==> root.Present? && |r.value| > 0 && SortedBy(r.value, Identity)
    ensures r.Ok? ==> multiset(r.value) == multiset(WorkspaceFolderNames(root.entries, configFilename))
    ensures r.Ok? ==> forall n :: n in r.value <==>
      exists e :: e in root.entries && e.name == n && IsWorkspaceFolder(e, configFilename)
  {
    match root
    case Missing => Err(Error(FileNotFoundError, DirectoryNotFoundMessage(workspacesDir)))
    case Present(entries) =>
      var names := WorkspaceFolderNames(entries, configFilename);
      if |names| == 0 then
        assert forall e :: e in entries ==> !IsWorkspaceFolder(e, configFilename) by {
          forall e | e in entries ensures !IsWorkspaceFolder(e, configFilename) {
            var i :| 0 <= i < |entries| && entries[i] == e;
            assert e.name !in names;
          }
        }
        Err(Error(ValueError, NoWorkspaceFoldersMessage(workspacesDir, configFilename)))
      else
        SortBySortsAndPermutes(names, Identity);
        var sorted := SortBy(names, Identity);
        assert forall n :: n in sorted <==> n in names by {
          forall n ensures n in sorted <==> n in names {
            assert n in sorted <==> n in multiset(sorted);
            assert n in names <==> n in multiset(names);
          }
        }
        assert exists e :: e in entries && IsWorkspaceFolder(e, configFilename) by {
          assert names[0] in names;
        }
        Ok(sorted)
  }

  /** `discover_workspace_folders`: exactly what `get_workspace_folders` returns,
      errors included; it adds only a log line. */
  function DiscoverWorkspaceFolders(root: Directory, workspacesDir: string, configFilename: string): (r: Result<seq<string>, Error>)
    ensures r == GetWorkspaceFolders(root, workspacesDir, configFilename)
  {
    GetWorkspaceFolders(root, workspacesDir, configFilename)
  }
}
