/** What the file helpers of utils/filehandler.py, src/utils/filehandler.py
    and utils/filemanager.py share: the first match in a directory walk,
    `os.path.join`, `os.path.splitext`, and the listing filter of
    `get_all_files`. A walk is the sequence `os.walk` yields, supplied by the
    caller. */
module FileSearch {
  import opened Wrappers
  import Strings

  /** One `(root, dirs, files)` triple of `os.walk`. */
  datatype WalkStep = WalkStep(root: string, dirs: seq<string>, files: seq<string>)

  /** Whether a search looks at the files or the directories of each step. */
  datatype Kind = FileKind | FolderKind

  function Names(step: WalkStep, kind: Kind): seq<string> {
    if kind.FileKind? then step.files else step.dirs
  }

  /** `os.path.join(root, name)` for two parts. */
  function PathJoin(root: string, name: string): (r: string)
    ensures Strings.EndsWith(r, name)
    ensures |name| > 0 && name[0] == '/' ==> r == name
  {
    if |name| > 0 && name[0] == '/' then name
    else if |root| == 0 || root[|root| - 1] == '/' then root + name
    else root + "/" + name
  }

  /** The index of the first step, from `i` on, that lists `name`. */
  function FirstHit(walk: seq<WalkStep>, name: string, kind: Kind, i: nat): (r: Option<nat>)
    requires i <= |walk|
    ensures r.None? ==> forall j :: i <= j < |walk| ==> name !in Names(walk[j], kind)
    ensures r.Some? ==> i <= r.value < |walk| && name in Names(walk[r.value], kind) &&
                        forall j :: i <= j < r.value ==> name !in Names(walk[j], kind)
    decreases |walk| - i
  {
    if i == |walk| then None
    else if name in Names(walk[i], kind) then Some(i)
    else FirstHit(walk, name, kind, i + 1)
  }

  /** The search loop of `file_directory`, `folder_directory` and
      `find_directory`: the path of `name` in the first step that lists it,
      else NotADirectoryError naming the searched `path`. */
  function FindIn(walk: seq<WalkStep>, name: string, kind: Kind, path: string): (r: Result<string>)
    ensures r.Ok? <==> exists i :: 0 <= i < |walk| && name in Names(walk[i], kind)
    ensures r.Ok? ==> exists i :: 0 <= i < |walk| && name in Names(walk[i], kind) &&
                                  (forall j :: 0 <= j < i ==> name !in Names(walk[j], kind)) &&
                                  r.value == PathJoin(walk[i].root, name)
    ensures r.Err? ==> r.error == NotADirectoryError(
                          (if kind.FileKind? then "File '" else "Folder '") + name + "' doesn't exist in " + path)
  {
    match FirstHit(walk, name, kind, 0)
    case None =>
      Err(NotADirectoryError((if kind.FileKind? then "File '" else "Folder '") + name + "' doesn't exist in " + path))
    case Some(i) =>
      Ok(PathJoin(walk[i].root, name))
  }

  /** Steps after the first match do not change where the search stops. */
  lemma {:induction false} FirstHitIgnoresLater(walk: seq<WalkStep>, more: seq<WalkStep>, name: string, kind: Kind, i: nat)
    requires i <= |walk| && FirstHit(walk, name, kind, i).Some?
    ensures FirstHit(walk + more, name, kind, i) == FirstHit(walk, name, kind, i)
    decreases |walk| - i
  {
    assert i < |walk|;
    assert (walk + more)[i] == walk[i];
    if name !in Names(walk[i], kind) {
      FirstHitIgnoresLater(walk, more, name, kind, i + 1);
    }
  }

  /** The first match decides: steps the walk yields after it are never
      looked at. */
  lemma LaterStepsIgnored(walk: seq<WalkStep>, more: seq<WalkStep>, name: string, kind: Kind, path: string)
    requires FindIn(walk, name, kind, path).Ok?
    ensures FindIn(walk + more, name, kind, path) == FindIn(walk, name, kind, path)
  {
    FirstHitIgnoresLater(walk, more, name, kind, 0);
    var i := FirstHit(walk, name, kind, 0).value;
    assert (walk + more)[i] == walk[i];
  }

  /** The index of the last `c` in `s`. */
  function LastIndex(s: string, c: char): (r: Option<nat>)
    ensures r.None? <==> c !in s
    ensures r.Some? ==> r.value < |s| && s[r.value] == c && c !in s[r.value + 1..]
    decreases |s|
  {
    if |s| == 0 then None
    else if s[|s| - 1] == c then Some(|s| - 1)
    else
      var r := LastIndex(s[..|s| - 1], c);
      assert s == s[..|s| - 1] + [s[|s| - 1]];
      r
  }

  /** The second half of `os.path.splitext(p)`: from the last '.' of the
      last path component, provided that component has something other than
      dots before it; otherwise empty. */
  function Extension(p: string): (r: string)
    ensures r == "" || (Strings.EndsWith(p, r) && r[0] == '.' && '.' !in r[1..] && '/' !in r)
  {
    var dot := LastIndex(p, '.');
    var sep := LastIndex(p, '/');
    var start := if sep.Some? then sep.value + 1 else 0;
    if dot.Some? && start <= dot.value && exists j :: start <= j < dot.value && p[j] != '.' then
      assert p[dot.value + 1..] == p[dot.value..][1..];
      assert '/' !in p[dot.value..] by {
        if sep.Some? {
          assert p[dot.value..] == p[sep.value + 1..][dot.value - sep.value - 1..];
        }
      }
      p[dot.value..]
    else ""
  }

  /** A plain file name `base` followed by a one-dot extension `ext` (such
      as ".json") has that extension. */
  lemma PlainNameExtension(base: string, ext: string)
    requires |base| > 0 && '.' !in base && '/' !in base
    requires |ext| > 0 && ext[0] == '.' && '.' !in ext[1..] && '/' !in ext
    ensures Extension(base + ext) == ext
  {
    var p := base + ext;
    assert p[|base|] == '.';
    assert p[|base| + 1..] == ext[1..];
    assert LastIndex(p, '.') == Some(|base|);
    assert forall k :: 0 <= k < |p| ==> p[k] != '/';
    assert p[0] != '.';
    assert p[|base|..] == ext;
  }

  /** A directory listing entry: its name and whether it is a file. */
  type Listing = seq<(string, bool)>

  /** Whether `get_all_files` keeps a listed entry. */
  predicate Kept(entry: (string, bool)) {
    entry.1 && !Strings.StartsWith(entry.0, "_")
  }

  /** The name `get_all_files` reports: the text before the first '.' unless
      extensions are wanted. */
  function Reported(name: string, extensions: bool): (r: string)
    ensures extensions ==> r == name
    ensures !extensions ==> Strings.StartsWith(name, r) && '.' !in r
  {
    if extensions then name else Strings.BeforeFirst(name, '.')
  }

  /** The loop of `get_all_files` over a listing. */
  function AllFiles(listing: Listing, extensions: bool): (r: seq<string>)
    ensures |r| <= |listing|
    ensures forall x :: x in r <==> exists i :: 0 <= i < |listing| && Kept(listing[i]) && x == Reported(listing[i].0, extensions)
    decreases |listing|
  {
    if |listing| == 0 then []
    else
      var rest := AllFiles(listing[1..], extensions);
      assert forall i :: 1 <= i < |listing| ==> listing[1..][i - 1] == listing[i];
      var r := if Kept(listing[0]) then [Reported(listing[0].0, extensions)] + rest else rest;
      assert forall x :: x in r <== exists i :: 0 <= i < |listing| && Kept(listing[i]) && x == Reported(listing[i].0, extensions) by {
        forall x | exists i :: 0 <= i < |listing| && Kept(listing[i]) && x == Reported(listing[i].0, extensions)
          ensures x in r
        {
          var i :| 0 <= i < |listing| && Kept(listing[i]) && x == Reported(listing[i].0, extensions);
          if i > 0 {
            assert listing[1..][i - 1] == listing[i];
          }
        }
      }
      r
  }

  /** The listing is filtered in order: the result for two listings one
      after the other is the two results one after the other. */
  lemma {:induction false} AllFilesKeepsOrder(a: Listing, b: Listing, extensions: bool)
    ensures AllFiles(a + b, extensions) == AllFiles(a, extensions) + AllFiles(b, extensions)
    decreases |a|
  {
    if |a| > 0 {
      assert (a + b)[1..] == a[1..] + b;
      AllFilesKeepsOrder(a[1..], b, extensions);
    } else {
      assert a + b == b;
    }
  }

  /** Names starting with '_' (such as `__init__.py`) never come back with
      extensions on. */
  lemma SunderNamesDropped(listing: Listing, x: string)
    requires Strings.StartsWith(x, "_")
    ensures x !in AllFiles(listing, true)
  {
  }
}
