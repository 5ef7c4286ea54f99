/** `FileHandler` of utils/filehandler.py: files and folders found by walking
    the working directory, and `.json`/`.yml` files loaded by extension. The
    working directory, the walk from a directory, the listing of a directory
    and the two parsers are parameters. */
module FileHandler {
  import opened Wrappers
  import opened Values
  import opened FileSearch

  /** `os.walk(top)` for every directory `top`. */
  type Walker = string -> seq<WalkStep>

  /** `file_directory(name)`: the first file called `name` under the working
      directory. */
  function FileDirectory(name: string, cwd: string, walk: Walker): (r: Result<string>)
    ensures r.Ok? <==> exists i :: 0 <= i < |walk(cwd)| && name in walk(cwd)[i].files
    ensures r.Err? ==> r.error == NotADirectoryError("File '" + name + "' doesn't exist in " + cwd)
    ensures r.Ok? ==> exists i :: 0 <= i < |walk(cwd)| && name in walk(cwd)[i].files &&
                                  (forall j :: 0 <= j < i ==> name !in walk(cwd)[j].files) &&
                                  r.value == PathJoin(walk(cwd)[i].root, name)
  {
    FindIn(walk(cwd), name, FileKind, cwd)
  }

  /** `folder_directory(name)`: the first directory called `name` under the
      working directory. */
  function FolderDirectory(name: string, cwd: string, walk: Walker): (r: Result<string>)
    ensures r.Ok? <==> exists i :: 0 <= i < |walk(cwd)| && name in walk(cwd)[i].dirs
    ensures r.Err? ==> r.error == NotADirectoryError("Folder '" + name + "' doesn't exist in " + cwd)
    ensures r.Ok? ==> exists i :: 0 <= i < |walk(cwd)| && name in walk(cwd)[i].dirs &&
                                  (forall j :: 0 <= j < i ==> name !in walk(cwd)[j].dirs) &&
                                  r.value == PathJoin(walk(cwd)[i].root, name)
  {
    FindIn(walk(cwd), name, FolderKind, cwd)
  }

  /** `load(name)`: locate the file first, then dispatch on its extension. */
  function Load(name: string, cwd: string, walk: Walker,
                parseJson: string -> Result<Value>, parseYaml: string -> Result<Value>): (r: Result<Value>)
    ensures FileDirectory(name, cwd, walk).Err? ==> r == Err(FileDirectory(name, cwd, walk).error)
    ensures FileDirectory(name, cwd, walk).Ok? && Extension(name) == ".json" ==>
              r == parseJson(FileDirectory(name, cwd, walk).value)
    ensures FileDirectory(name, cwd, walk).Ok? && Extension(name) == ".yml" ==>
              r == parseYaml(FileDirectory(name, cwd, walk).value)
    ensures FileDirectory(name, cwd, walk).Ok? && Extension(name) != ".json" && Extension(name) != ".yml" ==>
              r == Err(NotImplementedError("File type '" + Extension(name) + "' is unsupported."))
  {
    var directory :- FileDirectory(name, cwd, walk);
    var fileType := Extension(name);
    if fileType == ".json" then parseJson(directory)
    else if fileType == ".yml" then parseYaml(directory)
    else Err(NotImplementedError("File type '" + fileType + "' is unsupported."))
  }

  /** A `.json` file that the walk finds is handed to the JSON parser. */
  lemma JsonFileParsed(base: string, cwd: string, walk: Walker,
                       parseJson: string -> Result<Value>, parseYaml: string -> Result<Value>)
    requires |base| > 0 && '.' !in base && '/' !in base
    requires FileDirectory(base + ".json", cwd, walk).Ok?
    ensures Load(base + ".json", cwd, walk, parseJson, parseYaml)
            == parseJson(FileDirectory(base + ".json", cwd, walk).value)
  {
    var name := base + ".json";
    PlainNameExtension(base, ".json");
    assert Extension(name) == ".json";
  }

  /** `get_all_files(foldername, extentions)`: the listing of the first
      folder of that name, filtered. */
  function GetAllFiles(foldername: string, extensions: bool, cwd: string, walk: Walker,
                       listdir: string -> Listing): (r: Result<seq<string>>)
    ensures r.Ok? <==> FolderDirectory(foldername, cwd, walk).Ok?
    ensures r.Ok? ==> r.value == AllFiles(listdir(FolderDirectory(foldername, cwd, walk).value), extensions)
  {
    var path :- FolderDirectory(foldername, cwd, walk);
    Ok(AllFiles(listdir(path), extensions))
  }
}
