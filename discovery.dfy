/** Finding the ACES transforms of a release (`get_transforms_info`,
    `get_ODTs_info`, `get_LMTs_info`, `getODTInfo`, `getLMTInfo`): the files
    under the transform directory are filtered by path, each is named by the
    middle dot components of its file name, its directory relative to the
    transform root is found by climbing the path, its header is read, and
    its inverse is recorded when the inverse file exists beside it. The
    file system is given as a list of files with their contents; the walk
    is the part of it below the transform directory. */
module Discovery {
  import opened Py
  import opened PyStr
  import opened CtlHeader
  import Dicts

  /** A walked file: its directory as path components (the walk root's
      included), its base name, and its lines. */
  datatype CtlFile = CtlFile(dir: seq<string>, name: string, lines: seq<string>)

  /** `os.path.join(dir_name, fname)`. */
  function FullPath(f: CtlFile): string
  {
    Join("/", f.dir + [f.name])
  }

  /** How one version's reader behaves. `kind` is 'ODT' or 'LMT';
      `subDirectory` is the directory walked below the release directory;
      `hasSubDirectories` says whether the climb stops at that directory
      and the header path is rebuilt through it; `storesSwitch` says whether
      the switch flag is kept in the entry; `nameErrorOnInverse` is the root
      `getLMTInfo`, which stores the inverse under an undefined variable. */
  datatype Reader = Reader(
    header: CtlHeader.Reader,
    kind: string,
    dropReadme: bool,
    subDirectory: string,
    hasSubDirectories: bool,
    storesSwitch: bool,
    nameErrorOnInverse: bool)

  /** What the parent directory must end with to stop the climb:
      `ctl_sub_directory if has_sub_directories else 'ctl'`. */
  function Target(reader: Reader): string
  {
    if reader.hasSubDirectories then reader.subDirectory else "ctl"
  }

  /** `os.walk(top)`, flattened: the files of the disk below `top`, in the
      order given. */
  function Walk(disk: seq<CtlFile>, top: seq<string>): (r: seq<CtlFile>)
    ensures forall f :: f in r <==> f in disk && top <= f.dir
    decreases |disk|
  {
    if disk == [] then []
    else
      var rest := Walk(disk[1..], top);
      assert forall g :: g in disk <==> g == disk[0] || g in disk[1..];
      if top <= disk[0].dir then [disk[0]] + rest else rest
  }

  // ---------------------------------------------------------------------
  // Path filter
  // ---------------------------------------------------------------------

  /** The filter's first two tests: no 'Inv<kind>' anywhere in the path and,
      where the version checks it, no 'README'. */
  predicate NotExcluded(reader: Reader, f: CtlFile)
  {
    !Contains(FullPath(f), "Inv" + reader.kind) &&
    (!reader.dropReadme || !Contains(FullPath(f), "README"))
  }

  /** A file the transform list keeps: not excluded and not a dotfile. */
  predicate Kept(reader: Reader, f: CtlFile)
  {
    NotExcluded(reader, f) && f.name != [] && f.name[0] != '.'
  }

  /** The list comprehension over the walked paths; the dotfile test reads
      the first character of the base name, so an empty base name that gets
      that far raises IndexError. */
  function Candidates(reader: Reader, files: seq<CtlFile>): (r: Result<seq<CtlFile>>)
    ensures r.Err? <==> exists i :: 0 <= i < |files| && NotExcluded(reader, files[i]) && files[i].name == []
    ensures r.Err? ==> r.error == IndexError
    ensures r.Ok? ==> forall f :: f in r.value <==> f in files && Kept(reader, f)
    ensures r.Ok? ==> |r.value| <= |files|
    decreases |files|
  {
    if files == [] then Ok([])
    else
      var f := files[0];
      if NotExcluded(reader, f) && f.name == [] then Err(IndexError)
      else
        var rest :- Candidates(reader, files[1..]);
        assert forall g :: g in files <==> g == f || g in files[1..];
        Ok(if Kept(reader, f) then [f] + rest else rest)
  }

  // ---------------------------------------------------------------------
  // Names
  // ---------------------------------------------------------------------

  /** `'.'.join(ctl.split('.')[1:-1])`: the dot components between the
      first and the last. */
  function TransformName(fileName: string): string
  {
    var pieces := Split(fileName, '.');
    if |pieces| < 2 then "" else Join(".", pieces[1..|pieces| - 1])
  }

  /** 'ODT.Academy.Rec709_100nits_dim.ctl' is named
      'Academy.Rec709_100nits_dim': the inner dots survive. */
  lemma TransformNameShape(kind: string, name: string)
    requires '.' !in kind
    ensures TransformName(kind + "." + name + ".ctl") == name
  {
    assert kind + "." + name + ".ctl" == kind + ['.'] + (name + ['.'] + "ctl");
    SplitAfterHead(kind, '.', name + ['.'] + "ctl");
    SplitBeforeTail(name, '.', "ctl");
    var pieces := Split(kind + "." + name + ".ctl", '.');
    assert pieces == [kind] + Split(name, '.') + ["ctl"];
    assert pieces[1..|pieces| - 1] == Split(name, '.');
    JoinSplit(name, '.');
  }

  /** The name of the inverse file of a transform. */
  function InverseFileName(kind: string, name: string): string
  {
    "Inv" + kind + "." + name + ".ctl"
  }

  /** `os.path.exists(os.path.join(dir, name))`. */
  predicate FileExists(files: seq<CtlFile>, dir: seq<string>, name: string)
  {
    exists i :: 0 <= i < |files| && files[i].dir == dir && files[i].name == name
  }

  // ---------------------------------------------------------------------
  // The climb to the transform root
  // ---------------------------------------------------------------------

  /** The parent path `dir[..k]` as a string. */
  function Parent(dir: seq<string>, k: nat): string
    requires k <= |dir|
  {
    Join("/", dir[..k])
  }

  /** Where the climb starts: the file's directory is split once, so the
      first parent tested is one level up. */
  function Start(dir: seq<string>): (k: nat)
    ensures k <= |dir| && (dir != [] ==> k == |dir| - 1)
  {
    if dir == [] then 0 else |dir| - 1
  }

  /** The climb from parent level k upwards: the deepest level whose path
      ends in `target`. At the top the path no longer changes and the Python
      `while` never ends. */
  function Climb(dir: seq<string>, k: nat, target: string): (r: Result<nat>)
    requires k <= |dir|
    ensures r.Ok? ==> r.value <= k && LastN(Parent(dir, r.value), 3) == target
    ensures r.Ok? ==> forall j :: r.value < j <= k ==> LastN(Parent(dir, j), 3) != target
    ensures r.Err? ==> r.error == Diverges
    ensures r.Err? ==> forall j :: 0 <= j <= k ==> LastN(Parent(dir, j), 3) != target
    decreases k
  {
    if LastN(Parent(dir, k), 3) == target then Ok(k)
    else if k == 0 then Err(Diverges)
    else Climb(dir, k - 1, target)
  }

  /** The nested-directory loop: climbs while the parent does not end in
      `target`, prepending each directory passed to the relative path; the
      result is the parent's level and the relative path. */
  method ClimbToRoot(dir: seq<string>, target: string) returns (r: Result<(nat, string)>)
    ensures Climb(dir, Start(dir), target).Err? ==> r == Err(Diverges)
    ensures Climb(dir, Start(dir), target).Ok? ==>
              var k := Climb(dir, Start(dir), target).value;
              r == Ok((k, Join("/", dir[k..])))
  {
    var k: nat := Start(dir);
    var relative := if dir == [] then "" else dir[k];
    assert dir != [] ==> dir[k..] == [dir[k]];
    while LastN(Join("/", dir[..k]), 3) != target
      invariant k <= Start(dir)
      invariant Climb(dir, k, target) == Climb(dir, Start(dir), target)
      invariant relative == Join("/", dir[k..])
      decreases k
    {
      if k == 0 {
        return Err(Diverges);
      }
      k := k - 1;
      assert dir[k..] == [dir[k]] + dir[k + 1..];
      JoinCons("/", dir[k], dir[k + 1..]);
      relative := dir[k] + "/" + relative;
    }
    r := Ok((k, relative));
  }

  // ---------------------------------------------------------------------
  // One transform
  // ---------------------------------------------------------------------

  /** The dictionary entry of one transform; flags a version does not store
      are `None`. */
  datatype Entry = Entry(
    ctl: string,
    ctlInverse: Option<string>,
    names: Names,
    fullLegal: Option<bool>,
    ssts: Option<bool>)

  /** The directory `get_transform_info` opens: the release directory, the
      sub-directory where the version joins it in, then the relative path
      the climb found. It is not the walked directory when an inner
      directory also ends in the target. */
  function HeaderDir(reader: Reader, root: seq<string>, f: CtlFile, k: nat): seq<string>
    requires k <= |f.dir|
  {
    root + (if reader.hasSubDirectories then [reader.subDirectory] else []) + f.dir[k..]
  }

  /** `open(path).readlines()`: the lines of the first file at `dir/name`;
      IOError naming the path when there is none. */
  function ReadLines(disk: seq<CtlFile>, dir: seq<string>, name: string): (r: Result<seq<string>>)
    ensures r.Ok? <==> FileExists(disk, dir, name)
    ensures r.Ok? ==> exists i :: 0 <= i < |disk| && disk[i].dir == dir && disk[i].name == name &&
                                  disk[i].lines == r.value &&
                                  forall j :: 0 <= j < i ==> disk[j].dir != dir || disk[j].name != name
    ensures r.Err? ==> r.error == IOError(Join("/", dir + [name]))
    decreases |disk|
  {
    if disk == [] then Err(IOError(Join("/", dir + [name])))
    else if disk[0].dir == dir && disk[0].name == name then Ok(disk[0].lines)
    else
      var r := ReadLines(disk[1..], dir, name);
      FileExistsTail(disk, dir, name);
      if r.Ok? then
        var i :| 0 <= i < |disk[1..]| && disk[1..][i].dir == dir && disk[1..][i].name == name &&
                 disk[1..][i].lines == r.value &&
                 forall j :: 0 <= j < i ==> disk[1..][j].dir != dir || disk[1..][j].name != name;
        FirstMatchTail(disk, dir, name, i);
        r
      else r
  }

  /** A first match among the rest, past a first file that does not match,
      is the first match of the whole list. */
  lemma FirstMatchTail(disk: seq<CtlFile>, dir: seq<string>, name: string, i: nat)
    requires disk != [] && (disk[0].dir != dir || disk[0].name != name)
    requires i < |disk| - 1 && disk[1..][i].dir == dir && disk[1..][i].name == name
    requires forall j :: 0 <= j < i ==> disk[1..][j].dir != dir || disk[1..][j].name != name
    ensures disk[i + 1] == disk[1..][i]
    ensures forall j :: 0 <= j < i + 1 ==> disk[j].dir != dir || disk[j].name != name
  {
    forall j | 0 < j < i + 1
      ensures disk[j].dir != dir || disk[j].name != name
    {
      assert disk[j] == disk[1..][j - 1];
    }
  }

  /** Past a first file that is not at `dir/name`, the file exists iff it
      exists among the rest. */
  lemma FileExistsTail(disk: seq<CtlFile>, dir: seq<string>, name: string)
    requires disk != [] && (disk[0].dir != dir || disk[0].name != name)
    ensures FileExists(disk, dir, name) <==> FileExists(disk[1..], dir, name)
  {
    if FileExists(disk, dir, name) {
      var i :| 0 <= i < |disk| && disk[i].dir == dir && disk[i].name == name;
      assert disk[1..][i - 1] == disk[i];
    }
    if FileExists(disk[1..], dir, name) {
      var i :| 0 <= i < |disk[1..]| && disk[1..][i].dir == dir && disk[1..][i].name == name;
      assert disk[i + 1] == disk[1..][i];
    }
  }

  /** `get_transform_info(transform_ctl_path)`: the header of the file at
      the rebuilt path. */
  function ReadHeader(reader: Reader, root: seq<string>, disk: seq<CtlFile>, f: CtlFile, k: nat): Result<TransformInfo>
    requires k <= |f.dir|
  {
    var lines :- ReadLines(disk, HeaderDir(reader, root, f, k), f.name);
    HeaderInfo(reader.header, lines)
  }

  /** `os.path.join(relative, name)`. */
  function JoinPath(relative: string, name: string): string
  {
    if relative == "" then name else relative + "/" + name
  }

  /** The entry of one kept file of the release at `root`, in the order the
      loop body computes it: climb (Diverges), name, header (IOError,
      IndexError), inverse beside the walked file. */
  function Describe(reader: Reader, root: seq<string>, disk: seq<CtlFile>, f: CtlFile): Result<(string, Entry)>
  {
    var k :- Climb(f.dir, Start(f.dir), Target(reader));
    var relative := Join("/", f.dir[k..]);
    var name := TransformName(f.name);
    var info :- ReadHeader(reader, root, disk, f, k);
    var inverse := InverseFileName(reader.kind, name);
    var found := FileExists(disk, f.dir, inverse);
    if found && reader.nameErrorOnInverse then Err(NameError("odtName"))
    else
      Ok((name, Entry(
        JoinPath(relative, f.name),
        if found then Some(JoinPath(relative, inverse)) else None,
        info.names,
        if reader.storesSwitch && !reader.header.NamesOnly? then Some(info.fullLegal) else None,
        if reader.header.SubstringFlags? then Some(info.ssts) else None)))
  }

  /** The loop body for one file: the header comes from the rebuilt path,
      whose absence is an IOError, and the inverse is looked for beside the
      walked file. */
  method DescribeFile(reader: Reader, root: seq<string>, disk: seq<CtlFile>, f: CtlFile) returns (r: Result<(string, Entry)>)
    ensures r == Describe(reader, root, disk, f)
    ensures r.Ok? ==> r.value.0 == TransformName(f.name)
    ensures r.Ok? ==> (r.value.1.ctlInverse.Some? <==>
                        FileExists(disk, f.dir, InverseFileName(reader.kind, TransformName(f.name))))
    ensures Climb(f.dir, Start(f.dir), Target(reader)).Ok? ==>
              var dir := HeaderDir(reader, root, f, Climb(f.dir, Start(f.dir), Target(reader)).value);
              (!FileExists(disk, dir, f.name) ==> r == Err(IOError(Join("/", dir + [f.name])))) &&
              (r.Ok? ==> exists i :: 0 <= i < |disk| && disk[i].dir == dir && disk[i].name == f.name &&
                                     ParseNames(disk[i].lines).Ok? &&
                                     r.value.1.names == ParseNames(disk[i].lines).value)
  {
    var climbed :- ClimbToRoot(f.dir, Target(reader));
    var (k, relative) := climbed;
    var name := TransformName(f.name);
    var lines :- ReadLines(disk, HeaderDir(reader, root, f, k), f.name);
    var info :- GetTransformInfo(reader.header, lines);
    var inverse := InverseFileName(reader.kind, name);
    var found := FileExists(disk, f.dir, inverse);
    if found && reader.nameErrorOnInverse {
      return Err(NameError("odtName"));
    }
    r := Ok((name, Entry(
      JoinPath(relative, f.name),
      if found then Some(JoinPath(relative, inverse)) else None,
      info.names,
      if reader.storesSwitch && !reader.header.NamesOnly? then Some(info.fullLegal) else None,
      if reader.header.SubstringFlags? then Some(info.ssts) else None)));
  }

  // ---------------------------------------------------------------------
  // All transforms
  // ---------------------------------------------------------------------

  /** The dictionary built from per-file outcomes in order: entries keyed
      by name, a later file with the same name replacing the earlier entry;
      the first failure ends the loop. */
  function Fold<E>(results: seq<Result<(string, E)>>): Result<seq<(string, E)>>
    decreases |results|
  {
    if results == [] then Ok([])
    else
      var n := |results| - 1;
      var before :- Fold(results[..n]);
      var e :- results[n];
      Ok(Dicts.Set(before, e.0, e.1))
  }

  /** The outcome of each kept file. */
  function Described(reader: Reader, root: seq<string>, disk: seq<CtlFile>, kept: seq<CtlFile>): (r: seq<Result<(string, Entry)>>)
    ensures |r| == |kept|
    ensures forall i :: 0 <= i < |kept| ==> r[i] == Describe(reader, root, disk, kept[i])
  {
    seq(|kept|, i requires 0 <= i < |kept| => Describe(reader, root, disk, kept[i]))
  }

  /** The files the reader walks: those below `root/subDirectory`. */
  function Walked(reader: Reader, root: seq<string>, disk: seq<CtlFile>): seq<CtlFile>
  {
    Walk(disk, root + [reader.subDirectory])
  }

  /** The reader of each version over the release directory `root`. */
  method GetTransformsInfo(reader: Reader, root: seq<string>, disk: seq<CtlFile>) returns (r: Result<seq<(string, Entry)>>)
    ensures Candidates(reader, Walked(reader, root, disk)).Err? ==> r == Err(IndexError)
    ensures Candidates(reader, Walked(reader, root, disk)).Ok? ==>
              r == Fold(Described(reader, root, disk, Candidates(reader, Walked(reader, root, disk)).value))
  {
    var kept :- Candidates(reader, Walked(reader, root, disk));
    ghost var results := Described(reader, root, disk, kept);
    var transforms: seq<(string, Entry)> := [];
    for i := 0 to |kept|
      invariant Fold(results[..i]) == Ok(transforms)
    {
      var e := DescribeFile(reader, root, disk, kept[i]);
      assert e == results[i];
      FoldStep(results, i);
      if e.Err? {
        FoldErrExtends(results[..i + 1], results);
        return Err(e.error);
      }
      transforms := Dicts.Set(transforms, e.value.0, e.value.1);
    }
    assert results[..|kept|] == results;
    r := Ok(transforms);
  }

  /** One more outcome: a failure ends the fold, a success is set into the
      dictionary built so far. */
  lemma FoldStep<E>(results: seq<Result<(string, E)>>, i: nat)
    requires i < |results|
    ensures Fold(results[..i + 1]) ==
              if Fold(results[..i]).Err? then Fold(results[..i])
              else if results[i].Err? then Err(results[i].error)
              else Ok(Dicts.Set(Fold(results[..i]).value, results[i].value.0, results[i].value.1))
  {
    assert results[..i + 1][..i] == results[..i];
  }

  /** A failure stays a failure as more files are processed. */
  lemma {:induction false} FoldErrExtends<E>(prefix: seq<Result<(string, E)>>, results: seq<Result<(string, E)>>)
    requires prefix <= results
    requires Fold(prefix).Err?
    ensures Fold(results) == Fold(prefix)
    decreases |results|
  {
    if |results| > |prefix| {
      var n := |results| - 1;
      assert prefix <= results[..n];
      FoldErrExtends(prefix, results[..n]);
      assert Fold(results) == Fold(results[..n]).PropagateFailure();
    } else {
      assert results == prefix;
    }
  }

  /** The dictionary is built exactly when every file succeeds. */
  lemma {:induction false} FoldOk<E>(results: seq<Result<(string, E)>>)
    ensures Fold(results).Ok? <==> forall i :: 0 <= i < |results| ==> results[i].Ok?
    decreases |results|
  {
    if results != [] {
      var n := |results| - 1;
      FoldOk(results[..n]);
      assert forall i :: 0 <= i < n ==> results[..n][i] == results[i];
    }
  }

  /** The dictionary has one entry per distinct name among the outcomes,
      and each entry comes from an outcome with that name. */
  lemma {:induction false} FoldKeys<E>(results: seq<Result<(string, E)>>)
    requires Fold(results).Ok?
    ensures Dicts.UniqueKeys(Fold(results).value)
    ensures forall name :: Dicts.HasKey(Fold(results).value, name) <==> Named(results, name)
    decreases |results|
  {
    if results != [] {
      var n := |results| - 1;
      FoldKeys(results[..n]);
      var before := Fold(results[..n]).value;
      var e := results[n].value;
      Dicts.SetSpec(before, e.0, e.1);
      var after := Dicts.Set(before, e.0, e.1);
      forall name ensures Dicts.HasKey(after, name) <==> Named(results, name) {
        NamedSnoc(results, name);
        assert Dicts.HasKey(after, name) <==> Dicts.Get(after, name).Some?;
        assert Dicts.HasKey(before, name) <==> Dicts.Get(before, name).Some?;
      }
    }
  }

  /** Each entry of the dictionary comes from an outcome with its name. */
  lemma {:induction false} FoldValues<E>(results: seq<Result<(string, E)>>)
    requires Fold(results).Ok?
    ensures forall name, e :: Dicts.Get(Fold(results).value, name) == Some(e) ==>
                           exists i :: 0 <= i < |results| && results[i] == Ok((name, e))
    decreases |results|
  {
    if results != [] {
      var n := |results| - 1;
      FoldValues(results[..n]);
      FoldKeys(results[..n]);
      var before := Fold(results[..n]).value;
      var e := results[n].value;
      Dicts.SetSpec(before, e.0, e.1);
      var after := Dicts.Set(before, e.0, e.1);
      forall name, v | Dicts.Get(after, name) == Some(v)
        ensures exists i :: 0 <= i < |results| && results[i] == Ok((name, v))
      {
        if name == e.0 {
          assert results[n] == Ok((name, v));
        } else {
          var i :| 0 <= i < n && results[..n][i] == Ok((name, v));
          assert results[i] == results[..n][i];
        }
      }
    }
  }

  /** Some outcome is a success keyed by name. */
  predicate Named<E>(results: seq<Result<(string, E)>>, name: string)
  {
    exists i :: 0 <= i < |results| && results[i].Ok? && results[i].value.0 == name
  }

  lemma NamedSnoc<E>(results: seq<Result<(string, E)>>, name: string)
    requires results != [] && results[|results| - 1].Ok?
    ensures Named(results, name) <==>
            Named(results[..|results| - 1], name) || results[|results| - 1].value.0 == name
  {
    var n := |results| - 1;
    if Named(results, name) && results[n].value.0 != name {
      var i :| 0 <= i < |results| && results[i].Ok? && results[i].value.0 == name;
      assert results[..n][i] == results[i];
    }
    if Named(results[..n], name) {
      var i :| 0 <= i < n && results[..n][i].Ok? && results[..n][i].value.0 == name;
      assert results[i] == results[..n][i];
    }
  }

  /** The transform dictionary of a release: one entry per distinct
      transform name among the kept files, each the description of a kept
      file of that name, built exactly when every kept file is described. */
  lemma TransformsByName(reader: Reader, root: seq<string>, disk: seq<CtlFile>, kept: seq<CtlFile>)
    ensures Fold(Described(reader, root, disk, kept)).Ok? <==>
            forall i :: 0 <= i < |kept| ==> Describe(reader, root, disk, kept[i]).Ok?
    ensures Fold(Described(reader, root, disk, kept)).Ok? ==>
            var d := Fold(Described(reader, root, disk, kept)).value;
            Dicts.UniqueKeys(d) &&
            (forall name :: Dicts.HasKey(d, name) <==> exists i :: 0 <= i < |kept| && TransformName(kept[i].name) == name) &&
            (forall name, e :: Dicts.Get(d, name) == Some(e) ==>
                               exists i :: 0 <= i < |kept| && Describe(reader, root, disk, kept[i]) == Ok((name, e)))
  {
    var results := Described(reader, root, disk, kept);
    FoldOk(results);
    if Fold(results).Ok? {
      FoldKeys(results);
      FoldValues(results);
      forall i | 0 <= i < |kept| ensures results[i].Ok? && results[i].value.0 == TransformName(kept[i].name) {
        DescribeName(reader, root, disk, kept[i]);
      }
    }
  }

  /** A described file is keyed by its transform name. */
  lemma DescribeName(reader: Reader, root: seq<string>, disk: seq<CtlFile>, f: CtlFile)
    ensures Describe(reader, root, disk, f).Ok? ==> Describe(reader, root, disk, f).value.0 == TransformName(f.name)
  {
  }

  /** No two files of the disk share a path. */
  predicate UniquePaths(disk: seq<CtlFile>)
  {
    forall i, j :: 0 <= i < j < |disk| ==> disk[i].dir != disk[j].dir || disk[i].name != disk[j].name
  }

  /** When the climb stops at the directory the header path is rebuilt
      from (the release layout), the header read is the walked file's own. */
  lemma WalkedHeaderRead(reader: Reader, root: seq<string>, disk: seq<CtlFile>, f: CtlFile)
    requires f in disk && UniquePaths(disk)
    requires Climb(f.dir, Start(f.dir), Target(reader)).Ok?
    requires var k := Climb(f.dir, Start(f.dir), Target(reader)).value;
             f.dir[..k] == root + (if reader.hasSubDirectories then [reader.subDirectory] else [])
    ensures var k := Climb(f.dir, Start(f.dir), Target(reader)).value;
            ReadLines(disk, HeaderDir(reader, root, f, k), f.name) == Ok(f.lines) &&
            ReadHeader(reader, root, disk, f, k) == HeaderInfo(reader.header, f.lines)
  {
    var k := Climb(f.dir, Start(f.dir), Target(reader)).value;
    assert HeaderDir(reader, root, f, k) == f.dir[..k] + f.dir[k..] == f.dir;
    LinesAtOwnPath(disk, f);
  }

  /** With unique paths, reading a file's own path gives its own lines. */
  lemma LinesAtOwnPath(disk: seq<CtlFile>, f: CtlFile)
    requires f in disk && UniquePaths(disk)
    ensures ReadLines(disk, f.dir, f.name) == Ok(f.lines)
  {
    var j :| 0 <= j < |disk| && disk[j] == f;
    assert FileExists(disk, f.dir, f.name);
    var r := ReadLines(disk, f.dir, f.name);
    var i :| 0 <= i < |disk| && disk[i].dir == f.dir && disk[i].name == f.name && disk[i].lines == r.value &&
             forall m :: 0 <= m < i ==> disk[m].dir != f.dir || disk[m].name != f.name;
    assert !(j < i);
    SamePathSameFile(disk, i, j);
  }

  /** With unique paths, two files at the same path are the same entry. */
  lemma SamePathSameFile(disk: seq<CtlFile>, i: nat, j: nat)
    requires UniquePaths(disk) && i < |disk| && j < |disk|
    requires disk[i].dir == disk[j].dir && disk[i].name == disk[j].name
    ensures i == j
  {
  }

  /** An inner directory that also ends in the target stops the climb
      early: the ODT walked at 'root/odt/aodt/b' has its header read at
      'root/odt/b', which does not exist, so the reader fails with IOError. */
  lemma NestedTargetMissesHeader(lines: seq<string>)
    ensures var f := CtlFile(["root", "odt", "aodt", "b"], "ODT.x.ctl", lines);
            Describe(OdtsV12, ["root"], [f], f) == Err(IOError(Join("/", ["root", "odt", "b", "ODT.x.ctl"])))
  {
    var f := CtlFile(["root", "odt", "aodt", "b"], "ODT.x.ctl", lines);
    NestedClimb(f.dir);
    assert HeaderDir(OdtsV12, ["root"], f, 3) == ["root", "odt", "b"];
    assert !FileExists([f], ["root", "odt", "b"], f.name);
    assert ["root", "odt", "b"] + [f.name] == ["root", "odt", "b", "ODT.x.ctl"];
    assert ReadLines([f], ["root", "odt", "b"], f.name) == Err(IOError(Join("/", ["root", "odt", "b", "ODT.x.ctl"])));
  }

  /** The climb from 'root/odt/aodt/b' stops at 'root/odt/aodt'. */
  lemma NestedClimb(dir: seq<string>)
    requires dir == ["root", "odt", "aodt", "b"]
    ensures Climb(dir, Start(dir), "odt") == Ok(3)
  {
    assert dir[..3] == ["root"] + ["odt", "aodt"];
    JoinCons("/", "root", ["odt", "aodt"]);
    assert ["odt", "aodt"] == ["odt"] + ["aodt"];
    JoinCons("/", "odt", ["aodt"]);
    var p := Parent(dir, 3);
    assert p == "root" + "/" + ("odt" + "/" + "aodt");
    assert p[|p| - 3..] == "odt";
  }

  // ---------------------------------------------------------------------
  // The readers of each version
  // ---------------------------------------------------------------------

  /** 1.1/1.2 `get_transforms_info(dir, 'lmt', False, 'LMT')`. */
  const LmtsV12 := Reader(CtlHeader.SubstringFlags, "LMT", true, "lmt", false, true, false)
  /** 1.1/1.2 `get_transforms_info(dir, 'odt', True, 'ODT')`. */
  const OdtsV12 := Reader(CtlHeader.SubstringFlags, "ODT", true, "odt", true, true, false)
  /** 1.2 `get_transforms_info(dir, 'outputTransforms', False, 'RRTODT')`. */
  const OutputTransformsV12 := Reader(CtlHeader.SubstringFlags, "RRTODT", true, "outputTransforms", false, true, false)
  /** `get_ODTs_info` of 1.0.0 to 1.0.3: no README filter; the header is
      read at 'odt/<relative>/<file>'. */
  const OdtsV10 := Reader(CtlHeader.ExactFlag, "ODT", false, "odt", true, true, false)
  /** `get_LMTs_info` of 1.0.0 to 1.0.3: the switch is read but not kept. */
  const LmtsV10 := Reader(CtlHeader.ExactFlag, "LMT", true, "lmt", false, false, false)
  /** The root script's `getODTInfo`. */
  const OdtsRoot := Reader(CtlHeader.NamesOnly, "ODT", false, "odt", true, false, false)
  /** The root script's `getLMTInfo`, as written. */
  const LmtsRoot := Reader(CtlHeader.NamesOnly, "LMT", true, "lmt", false, false, true)

  /** The 1.0.x ODT reader keeps a README file that the 1.2 reader drops. */
  lemma ReadmeOnlyDroppedFrom12(f: CtlFile)
    requires Contains(FullPath(f), "README") && NotExcluded(OdtsV10, f)
    ensures !NotExcluded(OdtsV12, f)
  {
  }

  /** The root `getLMTInfo` as written: one LMT whose inverse file exists
      beside it is enough for the whole reader to fail, because the entry is
      indexed with `odtName`, which that function never defines. */
  lemma RootLmtInverseNameError(root: seq<string>, disk: seq<CtlFile>, kept: seq<CtlFile>, i: nat)
    requires i < |kept|
    requires Climb(kept[i].dir, Start(kept[i].dir), "ctl").Ok?
    requires ReadHeader(LmtsRoot, root, disk, kept[i], Climb(kept[i].dir, Start(kept[i].dir), "ctl").value).Ok?
    requires FileExists(disk, kept[i].dir, InverseFileName("LMT", TransformName(kept[i].name)))
    ensures Describe(LmtsRoot, root, disk, kept[i]) == Err(NameError("odtName"))
    ensures Fold(Described(LmtsRoot, root, disk, kept)).Err?
  {
    FoldOk(Described(LmtsRoot, root, disk, kept));
  }

  /** The intended reader (the entry indexed by `lmtName`, as in every
      packaged version): the same LMT is described, with its inverse
      recorded beside the forward file. */
  lemma LmtInverseRecorded(root: seq<string>, disk: seq<CtlFile>, f: CtlFile)
    requires Climb(f.dir, Start(f.dir), "ctl").Ok?
    requires ReadHeader(LmtsRoot, root, disk, f, Climb(f.dir, Start(f.dir), "ctl").value).Ok?
    requires FileExists(disk, f.dir, InverseFileName("LMT", TransformName(f.name)))
    ensures var intended := LmtsRoot.(nameErrorOnInverse := false);
            var k := Climb(f.dir, Start(f.dir), "ctl").value;
            Describe(intended, root, disk, f).Ok? &&
            Describe(intended, root, disk, f).value.0 == TransformName(f.name) &&
            Describe(intended, root, disk, f).value.1.ctlInverse ==
              Some(JoinPath(Join("/", f.dir[k..]), InverseFileName("LMT", TransformName(f.name))))
  {
  }
}
