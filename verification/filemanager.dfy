/** `FileManager` of utils/filemanager.py: `load` takes a path and splits
    it on '.', `get_all_files` lists a folder given by path, and
    `find_directory` searches for a file or a folder depending on the name. */
module FileManager {
  import opened Wrappers
  import opened Values
  import opened FileSearch
  import Strings

  /** `load(file_dir)` as written: the path must split on '.' into exactly
      two parts, and the part after the dot — which holds no dot — is
      compared with '.json' and '.yml'. Opening the file happens between the
      two steps; `opens` says whether it succeeds. */
  function LoadAsWritten(fileDir: string, opens: string -> bool,
                         parseJson: string -> Result<Value>, parseYaml: string -> Result<Value>): (r: Result<Value>)
    ensures Strings.Count(fileDir, '.') != 1 ==> r.Err? && r.error.ValueError?
    ensures Strings.Count(fileDir, '.') == 1 && !opens(fileDir) ==> r.Err? && r.error.FileNotFoundError?
    ensures Strings.Count(fileDir, '.') == 1 && opens(fileDir) ==> r.Err? && r.error.NotImplementedError?
  {
    var parts := Strings.Split(fileDir, '.');
    Strings.SplitCount(fileDir, '.');
    if |parts| != 2 then
      Err(ValueError(if |parts| < 2 then "not enough values to unpack (expected 2, got 1)"
                     else "too many values to unpack (expected 2)"))
    else
      var fileType := parts[1];
      if !opens(fileDir) then Err(FileNotFoundError(fileDir))
      else if fileType == ".json" then parseJson(fileDir)
      else if fileType == ".yml" then parseYaml(fileDir)
      else Err(NotImplementedError("File type '" + fileType + "' is unsupported."))
  }

  /** `load` as evidently intended: the extension `os.path.splitext` gives,
      dispatched like `FileHandler.load`. */
  function Load(fileDir: string, opens: string -> bool,
                parseJson: string -> Result<Value>, parseYaml: string -> Result<Value>): (r: Result<Value>)
    ensures !opens(fileDir) ==> r == Err(FileNotFoundError(fileDir))
    ensures opens(fileDir) && Extension(fileDir) == ".json" ==> r == parseJson(fileDir)
    ensures opens(fileDir) && Extension(fileDir) == ".yml" ==> r == parseYaml(fileDir)
    ensures opens(fileDir) && Extension(fileDir) != ".json" && Extension(fileDir) != ".yml" ==>
              r.Err? && r.error.NotImplementedError?
  {
    if !opens(fileDir) then Err(FileNotFoundError(fileDir))
    else
      var fileType := Extension(fileDir);
      if fileType == ".json" then parseJson(fileDir)
      else if fileType == ".yml" then parseYaml(fileDir)
      else Err(NotImplementedError("File type '" + fileType + "' is unsupported."))
  }

  /** For `doof.json` the corrected `load` parses where the written one
      fails. */
  lemma JsonPathLoads(base: string, opens: string -> bool,
                      parseJson: string -> Result<Value>, parseYaml: string -> Result<Value>)
    requires |base| > 0 && '.' !in base && '/' !in base && opens(base + ".json")
    ensures LoadAsWritten(base + ".json", opens, parseJson, parseYaml).Err?
    ensures Load(base + ".json", opens, parseJson, parseYaml) == parseJson(base + ".json")
  {
    var name := base + ".json";
    PlainNameExtension(base, ".json");
  }

  /** `get_all_files(folder_dir, extentions)` over the folder's listing. */
  function GetAllFiles(listing: Listing, extensions: bool): (r: seq<string>)
    ensures forall x :: x in r <==> exists i :: 0 <= i < |listing| && Kept(listing[i]) && x == Reported(listing[i].0, extensions)
    ensures !extensions ==> forall x :: x in r ==> '.' !in x
  {
    AllFiles(listing, extensions)
  }

  /** `find_directory(name, base_dir)`: a name with a '.' is looked for
      among files, any other among folders. `base_dir` defaults to the
      working directory at the time the module was imported. */
  function FindDirectory(name: string, baseDir: string, walk: string -> seq<WalkStep>): (r: Result<string>)
    ensures '.' in name ==> r == FindIn(walk(baseDir), name, FileKind, baseDir)
    ensures '.' !in name ==> r == FindIn(walk(baseDir), name, FolderKind, baseDir)
    ensures r.Ok? <==> exists i :: 0 <= i < |walk(baseDir)| &&
                                   name in (if '.' in name then walk(baseDir)[i].files else walk(baseDir)[i].dirs)
  {
    var folder := '.' !in name;
    if folder then FindIn(walk(baseDir), name, FolderKind, baseDir)
    else FindIn(walk(baseDir), name, FileKind, baseDir)
  }
}
