/** `FileHandler` of src/utils/filehandler.py: as in utils/filehandler.py,
    except that the searches take a `default_path` that replaces the working
    directory when it is truthy. */
module SrcFileHandler {
  import opened Wrappers
  import opened Values
  import opened FileSearch
  import FileHandler

  /** The directory a search starts from: `default_path` unless it is None
      or empty. */
  function SearchRoot(defaultPath: Option<string>, cwd: string): (r: string)
    ensures defaultPath.None? || defaultPath == Some("") ==> r == cwd
    ensures defaultPath.Some? && defaultPath.value != "" ==> r == defaultPath.value
  {
    if defaultPath.None? || defaultPath.value == "" then cwd else defaultPath.value
  }

  /** `file_directory(name, default_path)`. */
  function FileDirectory(name: string, defaultPath: Option<string>, cwd: string, walk: FileHandler.Walker)
    : (r: Result<string>)
    ensures r == FileHandler.FileDirectory(name, SearchRoot(defaultPath, cwd), walk)
  {
    FindIn(walk(SearchRoot(defaultPath, cwd)), name, FileKind, SearchRoot(defaultPath, cwd))
  }

  /** `folder_directory(name, default_path)`. */
  function FolderDirectory(name: string, defaultPath: Option<string>, cwd: string, walk: FileHandler.Walker)
    : (r: Result<string>)
    ensures r == FileHandler.FolderDirectory(name, SearchRoot(defaultPath, cwd), walk)
  {
    FindIn(walk(SearchRoot(defaultPath, cwd)), name, FolderKind, SearchRoot(defaultPath, cwd))
  }

  /** Without a default path the searches are those of utils/filehandler.py. */
  lemma NoDefaultIsWorkingDirectory(name: string, cwd: string, walk: FileHandler.Walker)
    ensures FileDirectory(name, None, cwd, walk) == FileHandler.FileDirectory(name, cwd, walk)
    ensures FolderDirectory(name, Some(""), cwd, walk) == FileHandler.FolderDirectory(name, cwd, walk)
  {
  }

  /** `load(name)`: `file_directory` is called without a default path, so
      this is utils/filehandler.py's `load`. */
  function Load(name: string, cwd: string, walk: FileHandler.Walker,
                parseJson: string -> Result<Value>, parseYaml: string -> Result<Value>): (r: Result<Value>)
    ensures FileDirectory(name, None, cwd, walk).Err? ==> r == Err(FileDirectory(name, None, cwd, walk).error)
    ensures FileDirectory(name, None, cwd, walk).Ok? && Extension(name) == ".json" ==>
              r == parseJson(FileDirectory(name, None, cwd, walk).value)
    ensures FileDirectory(name, None, cwd, walk).Ok? && Extension(name) == ".yml" ==>
              r == parseYaml(FileDirectory(name, None, cwd, walk).value)
    ensures FileDirectory(name, None, cwd, walk).Ok? && Extension(name) != ".json" && Extension(name) != ".yml" ==>
              r == Err(NotImplementedError("File type '" + Extension(name) + "' is unsupported."))
  {
    FileHandler.Load(name, cwd, walk, parseJson, parseYaml)
  }

  /** `get_all_files(foldername, extentions)`: the folder is searched for
      from the working directory. */
  function GetAllFiles(foldername: string, extensions: bool, cwd: string, walk: FileHandler.Walker,
                       listdir: string -> Listing): (r: Result<seq<string>>)
    ensures r.Ok? <==> FolderDirectory(foldername, None, cwd, walk).Ok?
    ensures r.Ok? ==> r.value == AllFiles(listdir(FolderDirectory(foldername, None, cwd, walk).value), extensions)
  {
    var path :- FolderDirectory(foldername, None, cwd, walk);
    Ok(AllFiles(listdir(path), extensions))
  }
}
