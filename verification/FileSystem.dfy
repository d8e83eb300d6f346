/**
 Lookup in the graph of files, and the system calls that change the graph or a working
 directory.

 Files are numbered and never deleted.  Directories may contain themselves and their
 parents, under "." and ".." or any other name.
 */
module FileSystem {
  import opened Wrappers
  import opened Paths

  datatype Error = ENOTDIR | ENOENT | EISDIR

  datatype Result<+T> = Ok(value: T) | Err(error: Error)

  // A file in flash and one in memory are both of mode Regular.
  datatype File = Directory(entries: map<string, nat>) | Device | Flash | Memory {
    predicate Regular() { Flash? || Memory? }
  }

  // MemoryFileSystem::the().root()
  const ROOT: nat := 0

  ghost predicate Graph(files: seq<File>) {
    && |files| > 0 && files[ROOT].Directory?
    && forall d, name {:trigger files[d].entries[name]} | 0 <= d < |files| && files[d].Directory? && name in files[d].entries ::
         files[d].entries[name] < |files|
  }

  function Walk(files: seq<File>, at: nat, components: seq<string>): (r: Result<nat>)
    requires Graph(files) && at < |files|
    ensures r.Ok? ==> r.value < |files|
    decreases |components|
  {
    if components == [] then Ok(at)
    else if !files[at].Directory? then Err(ENOTDIR)
    else if components[0] !in files[at].entries then Err(ENOENT)
    else Walk(files, files[at].entries[components[0]], components[1..])
  }

  lemma {:induction false} WalkMore(files: seq<File>, at: nat, components: seq<string>, name: string)
    requires Graph(files) && at < |files|
    ensures Walk(files, at, components + [name]) ==
            match Walk(files, at, components)
            case Err(e) => Err(e)
            case Ok(d) =>
              if !files[d].Directory? then Err(ENOTDIR)
              else if name !in files[d].entries then Err(ENOENT)
              else Ok(files[d].entries[name])
    decreases |components|
  {
    var all := components + [name];
    if components == [] {
      assert all[1..] == [];
    } else {
      assert all[1..] == components[1..] + [name];
      if files[at].Directory? && components[0] in files[at].entries {
        WalkMore(files, files[at].entries[components[0]], components[1..], name);
      }
    }
  }

  /** Looking up a path is looking up its front, and the rest from what that leads to. */
  lemma {:induction false} WalkOn(files: seq<File>, at: nat, front: seq<string>, rest: seq<string>)
    requires Graph(files) && at < |files|
    ensures Walk(files, at, front + rest) ==
            match Walk(files, at, front)
            case Err(e) => Err(e)
            case Ok(d) => Walk(files, d, rest)
    decreases |front|
  {
    if front == [] {
      assert front + rest == rest;
    } else {
      assert (front + rest)[1..] == front[1..] + rest;
      if files[at].Directory? && front[0] in files[at].entries {
        WalkOn(files, files[at].entries[front[0]], front[1..], rest);
      }
    }
  }

  // ------------------------------------------------------------------ creation

  // A new file under a new name in directory d
  function Create(files: seq<File>, d: nat, name: string): seq<File>
    requires d < |files| && files[d].Directory?
  {
    files[d := Directory(files[d].entries[name := |files|])] + [Memory]
  }

  lemma CreateGraph(files: seq<File>, d: nat, name: string)
    requires Graph(files) && d < |files| && files[d].Directory?
    ensures Graph(Create(files, d, name))
  {
  }

  /** Every lookup that succeeded gives the same file, wherever it starts. */
  ghost predicate Keeps(files: seq<File>, files': seq<File>)
    requires Graph(files) && Graph(files') && |files'| >= |files|
  {
    && (forall at, cs :: 0 <= at < |files| && Walk(files, at, cs).Ok? ==> Walk(files', at, cs) == Walk(files, at, cs))
    && (forall f | 0 <= f < |files| :: files'[f].Directory? == files[f].Directory?)
  }

  lemma {:induction false} CreateKeepsWalk(files: seq<File>, d: nat, name: string, at: nat, cs: seq<string>)
    requires Graph(files) && d < |files| && files[d].Directory? && name !in files[d].entries
    requires at < |files| && Walk(files, at, cs).Ok?
    ensures Graph(Create(files, d, name)) && Walk(Create(files, d, name), at, cs) == Walk(files, at, cs)
    decreases |cs|
  {
    CreateGraph(files, d, name);
    if cs != [] {
      CreateKeepsWalk(files, d, name, files[at].entries[cs[0]], cs[1..]);
    }
  }

  /**
   When a lookup fails for want of a file and its parent is found, the parent is a directory
   without that name; creating it there makes the lookup succeed.
   */
  lemma CreatedIsFound(files: seq<File>, components: seq<string>)
    requires Graph(files) && Walk(files, ROOT, components) == Err(ENOENT)
    ensures |components| > 0
    ensures var parent, name := components[..|components| - 1], components[|components| - 1];
            Walk(files, ROOT, parent).Ok? ==>
              var d := Walk(files, ROOT, parent).value;
              && files[d].Directory? && name !in files[d].entries
              && Graph(Create(files, d, name))
              && Walk(Create(files, d, name), ROOT, components) == Ok(|files|)
              && Keeps(files, Create(files, d, name)) && Added(files, Create(files, d, name), d, name)
  {
    var parent, name := components[..|components| - 1], components[|components| - 1];
    assert components == parent + [name];
    WalkMore(files, ROOT, parent, name);
    if Walk(files, ROOT, parent).Ok? {
      var d := Walk(files, ROOT, parent).value;
      CreateGraph(files, d, name);
      CreateKeepsWalk(files, d, name, ROOT, parent);
      WalkMore(Create(files, d, name), ROOT, parent, name);
      forall at, cs | 0 <= at < |files| && Walk(files, at, cs).Ok?
        ensures Walk(Create(files, d, name), at, cs) == Walk(files, at, cs)
      {
        CreateKeepsWalk(files, d, name, at, cs);
      }
    }
  }

  lemma KeepsSelf(files: seq<File>)
    requires Graph(files)
    ensures Keeps(files, files)
  {
  }

  lemma KeepsMore(f0: seq<File>, f1: seq<File>, f2: seq<File>)
    requires Graph(f0) && Graph(f1) && Graph(f2) && |f0| <= |f1| <= |f2|
    requires Keeps(f0, f1) && Keeps(f1, f2)
    ensures Keeps(f0, f2)
  {
  }

  // ------------------------------------------------------------------- worlds

  // The files, and m_working_directory of each process
  datatype World = World(files: seq<File>, directories: seq<Path>)

  ghost predicate IsDirectory(files: seq<File>, p: Path)
    requires Graph(files)
  {
    p.absolute && Walk(files, ROOT, p.components).Ok? && files[Walk(files, ROOT, p.components).value].Directory?
  }

  /** Each process is in a directory, under an absolute path. */
  ghost predicate Good(w: World) {
    && Graph(w.files)
    && forall p | 0 <= p < |w.directories| :: IsDirectory(w.files, w.directories[p])
  }

  lemma StillDirectories(files: seq<File>, files': seq<File>, paths: seq<Path>)
    requires Graph(files) && Graph(files') && |files'| >= |files| && Keeps(files, files')
    requires forall p | 0 <= p < |paths| :: IsDirectory(files, paths[p])
    ensures forall p | 0 <= p < |paths| :: IsDirectory(files', paths[p])
  {
  }

  // How a path given to a system call is understood
  function Absolute(w: World, process: nat, pathname: string): Path
    requires process < |w.directories| && |pathname| >= 1
  {
    var p := Parse(pathname);
    if p.absolute then p else Below(w.directories[process], p)
  }

  /** A name without a leading slash is looked up from the directory the process is in. */
  lemma RelativeLookup(w: World, process: nat, s: string)
    requires Good(w) && process < |w.directories| && |s| >= 1 && s[0] != '/'
    ensures var path, here := Absolute(w, process, s), Walk(w.files, ROOT, w.directories[process].components);
            && path.absolute && here.Ok? && w.files[here.value].Directory?
            && Walk(w.files, ROOT, path.components) == Walk(w.files, here.value, Components(s))
            && path.components == w.directories[process].components + Components(s)
  {
    assert IsDirectory(w.files, w.directories[process]);
    WalkOn(w.files, ROOT, w.directories[process].components, Components(s));
  }

  /** One with a leading slash is looked up from the root, whatever the process. */
  lemma AbsoluteLookup(w: World, process: nat, s: string)
    requires Good(w) && process < |w.directories| && |s| >= 1 && s[0] == '/'
    ensures Absolute(w, process, s) == Path(true, Components(s[1..]))
  {
  }

  datatype Flags = Flags(create: bool, directory: bool, truncate: bool)

  // One file was added, in memory and empty-handed, under that name in directory d; nothing else changed.
  ghost predicate Added(files: seq<File>, files': seq<File>, d: nat, name: string) {
    && |files'| == |files| + 1 && files'[|files|].Memory?
    && d < |files| && files[d].Directory? && files'[d].Directory? && name !in files[d].entries
    && (forall f | 0 <= f < |files| && f != d :: files'[f] == files[f])
    && (forall other :: other in files'[d].entries <==> other in files[d].entries || other == name)
    && (forall other | other in files[d].entries :: files'[d].entries[other] == files[d].entries[other])
    && files'[d].entries[name] == |files|
  }

  /** Every VERIFY and ASSERT on the way of sys$open, including those of Path and of truncate */
  ghost predicate OpenChecks(w: World, process: nat, pathname: string, flags: Flags)
    requires Graph(w.files) && process < |w.directories|
  {
    && |pathname| >= 1
    && var path := Absolute(w, process, pathname);
       && path.absolute
       && match Walk(w.files, ROOT, path.components)
          case Err(e) =>
            e == ENOENT && flags.create ==>
              && |path.components| >= 1 && Parent(path).absolute
              && (match Walk(w.files, ROOT, Parent(path).components)
                  case Err(_) => true
                  case Ok(d) => w.files[d].Directory?)   // the cast gives no null pointer
          case Ok(f) =>
            var file := w.files[f];
            if flags.directory && !file.Directory? then true
            else if !flags.truncate then true
            else if !file.Regular() then file.Directory?   // ASSERT
            else !file.Flash?                              // FlashFile::truncate: VERIFY_NOT_REACHED
  }

  /** sys$open fails a check exactly on an empty name and on truncating a device or a flash file. */
  lemma OpenChecksExact(w: World, process: nat, pathname: string, flags: Flags)
    requires Good(w) && process < |w.directories|
    ensures OpenChecks(w, process, pathname, flags) <==>
      && |pathname| >= 1
      && var found := Walk(w.files, ROOT, Absolute(w, process, pathname).components);
         !(&& flags.truncate && !flags.directory && found.Ok?
           && (w.files[found.value].Device? || w.files[found.value].Flash?))
  {
    if |pathname| >= 1 {
      var path := Absolute(w, process, pathname);
      assert IsDirectory(w.files, w.directories[process]);
      if Walk(w.files, ROOT, path.components) == Err(ENOENT) {
        CreatedIsFound(w.files, path.components);
      }
    }
  }

  // The executables that sys$posix_spawn knows by name
  predicate Known(text: string) {
    text == "/bin/Shell.elf" || text == "/bin/Example.elf" || text == "/bin/Editor.elf"
  }

  /** Every check on the way of sys$posix_spawn: lookup, the cast to a flash file, and the table of names */
  ghost predicate SpawnChecks(w: World, process: nat, pathname: string)
    requires Graph(w.files) && process < |w.directories|
  {
    && |pathname| >= 1
    && var path := Absolute(w, process, pathname);
       && path.absolute && Known(Print(path))
       && var found := Walk(w.files, ROOT, path.components);
          found.Ok? && w.files[found.value].Flash?
  }

  // ------------------------------------------------------------- system calls

  datatype Outcome<+T> = Returns(result: Result<T>) | Fails   // a check fails, and the kernel stops

  class Processes {
    var files: seq<File>
    var directories: seq<Path>

    ghost function View(): World
      reads this
    {
      World(files, directories)
    }

    // The file systems after the boot, and the first process
    constructor ()
      ensures View() == Boot() && Good(View())
    {
      files := [
        Directory(map[".":= 0, "..":= 0, "dev" := 1, "bin" := 2, "example.txt" := 3]),
        Directory(map["." := 1, ".." := 0, "tty" := 4]),
        Directory(map["." := 2, ".." := 0, "Shell.elf" := 5, "Example.elf" := 6, "Editor.elf" := 7]),
        Memory, Device, Flash, Flash, Flash ];
      directories := [Path(true, [])];
      new;
      BootGood();
    }

    method TryLookup(path: Path) returns (r: Result<nat>)
      requires Graph(files)
      requires path.absolute   // VERIFY in the source
      ensures r == Walk(files, ROOT, path.components)
    {
      var file: nat := ROOT;
      var i: nat := 0;
      while i < |path.components|
        invariant 0 <= i <= |path.components| && file < |files|
        invariant Walk(files, ROOT, path.components) == Walk(files, file, path.components[i..])
      {
        if !files[file].Directory? {
          return Err(ENOTDIR);
        }
        if path.components[i] !in files[file].entries {
          return Err(ENOENT);
        }
        file := files[file].entries[path.components[i]];
        i := i + 1;
      }
      return Ok(file);
    }

    // FileSystem::lookup: None if an ASSERT fails
    method Lookup(path: Path) returns (r: Option<nat>)
      requires Graph(files)
      requires path.absolute   // VERIFY in the source
      ensures r == (match Walk(files, ROOT, path.components) case Ok(f) => Some(f) case Err(_) => None)
    {
      var file: nat := ROOT;
      var i: nat := 0;
      while i < |path.components|
        invariant 0 <= i <= |path.components| && file < |files|
        invariant Walk(files, ROOT, path.components) == Walk(files, file, path.components[i..])
      {
        if !files[file].Directory? || path.components[i] !in files[file].entries {
          return None;
        }
        file := files[file].entries[path.components[i]];
        i := i + 1;
      }
      return Some(file);
    }

    // sys$open, up to the handle
    method Open(process: nat, pathname: string, flags: Flags) returns (o: Outcome<nat>)
      requires Good(View()) && process < |directories|
      modifies this`files
      ensures Good(View()) && |files| >= |old(files)| && Keeps(old(files), files)
      ensures o.Fails? <==> !OpenChecks(old(View()), process, pathname, flags)
      ensures o.Fails? ==> files == old(files)
      ensures o.Returns? && o.result.Ok? ==>
        Walk(files, ROOT, Absolute(old(View()), process, pathname).components) == o.result
      ensures o.Returns? ==>
        var path := Absolute(old(View()), process, pathname);
        match Walk(old(files), ROOT, path.components)
        case Err(ENOENT) =>
          var last := |path.components| - 1;
          if !flags.create then o.result == Err(ENOENT) && files == old(files)
          else (
            match Walk(old(files), ROOT, path.components[..last])
            case Err(_) => o.result == Err(ENOTDIR) && files == old(files)
            case Ok(d) => o.result == Ok(|old(files)|) && Added(old(files), files, d, path.components[last]))
        case Err(e) => o.result == Err(e) && files == old(files)
        case Ok(f) =>
          && files == old(files)
          && o.result ==
             if flags.directory && !files[f].Directory? then Err(ENOTDIR)
             else if flags.truncate && files[f].Directory? then Err(EISDIR)
             else Ok(f)
      ensures Serve(old(View()), Request.Open(process, pathname, flags)) == if o.Fails? then None else Some(View())
    {
      hide Walk, Keeps, OpenChecks, Parse, IsDirectory, Added, Create;
      ghost var w := View();
      KeepsSelf(files);
      OpenChecksExact(w, process, pathname, flags);
      if |pathname| == 0 {   // VERIFY in the source
        return Fails;
      }
      var path := ParsePath(pathname);
      if !path.absolute {
        path := Below(directories[process], path);
      }
      AbsoluteIs(w, process, pathname);
      var found := TryLookup(path);
      if found.Err? {
        if found.error == ENOENT && flags.create {
          CreatedIsFound(files, path.components);
          var parent := TryLookup(Parent(path));
          if parent.Err? {
            return Returns(Err(ENOTDIR));
          }
          assert files[parent.value].Directory?;
          files := Create(files, parent.value, Filename(path));
          StillDirectories(w.files, files, directories);
          return Returns(Ok(|files| - 1));
        }
        return Returns(found);
      }
      var file := files[found.value];
      if flags.directory && !file.Directory? {
        return Returns(Err(ENOTDIR));
      }
      if flags.truncate {
        if !file.Regular() {
          if !file.Directory? {   // ASSERT in the source
            return Fails;
          }
          return Returns(Err(EISDIR));
        }
        if file.Flash? {   // FlashFile::truncate
          return Fails;
        }
      }
      return Returns(found);
    }

    // sys$chdir
    method ChangeDirectory(process: nat, pathname: string) returns (o: Outcome<()>)
      requires Good(View()) && process < |directories|
      modifies this`directories
      ensures Good(View())
      ensures o.Fails? <==> |pathname| == 0
      ensures o.Fails? ==> directories == old(directories)
      ensures o.Returns? ==>
        var path := Absolute(old(View()), process, pathname);
        match Walk(files, ROOT, path.components)
        case Err(e) => o.result == Err(e) && directories == old(directories)
        case Ok(f) =>
          if files[f].Directory? then o.result == Ok(()) && directories == old(directories)[process := path]
          else o.result == Err(ENOTDIR) && directories == old(directories)
      ensures Serve(old(View()), Request.ChangeDirectory(process, pathname)) == if o.Fails? then None else Some(View())
    {
      if |pathname| == 0 {   // VERIFY in the source
        return Fails;
      }
      var path := ParsePath(pathname);
      if !path.absolute {
        path := Below(directories[process], path);
      }
      AbsoluteIs(View(), process, pathname);
      var found := TryLookup(path);
      if found.Err? {
        return Returns(Err(found.error));
      }
      if !files[found.value].Directory? {
        return Returns(Err(ENOTDIR));
      }
      directories := directories[process := path];
      return Returns(Ok(()));
    }

    // sys$posix_spawn: the new process starts where the old one is.
    method Spawn(process: nat, pathname: string) returns (o: Outcome<nat>)
      requires Good(View()) && process < |directories|
      modifies this`directories
      ensures Good(View())
      ensures o.Fails? <==> !SpawnChecks(old(View()), process, pathname)
      ensures o.Fails? ==> directories == old(directories)
      ensures o.Returns? ==>
        && o.result == Ok(|old(directories)|)
        && directories == old(directories) + [old(directories)[process]]
      ensures Serve(old(View()), Request.Spawn(process, pathname)) == if o.Fails? then None else Some(View())
    {
      if |pathname| == 0 {   // VERIFY in the source
        return Fails;
      }
      var path := ParsePath(pathname);
      if !path.absolute {
        path := Below(directories[process], path);
      }
      AbsoluteIs(View(), process, pathname);
      var found := Lookup(path);
      if found.None? || !files[found.value].Flash? {   // the cast of a reference
        return Fails;
      }
      var text := PrintPath(path);
      if !Known(text) {   // Optional::must
        return Fails;
      }
      var child := |directories|;
      directories := directories + [Path(true, [])];   // "/"
      directories := directories[child := directories[process]];
      return Returns(Ok(child));
    }
  }

  // A working directory is absolute, so every path is.
  lemma AbsoluteIs(w: World, process: nat, pathname: string)
    requires Good(w) && process < |w.directories| && |pathname| >= 1
    ensures Absolute(w, process, pathname).absolute
  {
    assert IsDirectory(w.files, w.directories[process]);
  }

  function Boot(): World {
    World([
      Directory(map[".":= 0, "..":= 0, "dev" := 1, "bin" := 2, "example.txt" := 3]),
      Directory(map["." := 1, ".." := 0, "tty" := 4]),
      Directory(map["." := 2, ".." := 0, "Shell.elf" := 5, "Example.elf" := 6, "Editor.elf" := 7]),
      Memory, Device, Flash, Flash, Flash ],
      [Path(true, [])])
  }

  lemma BootGood()
    ensures Good(Boot())
  {
  }

  /** After the boot "." of each of the three directories is itself, and ".." the root. */
  lemma BootDots(d: nat)
    requires d < 3
    ensures Boot().files[d].Directory? && "." in Boot().files[d].entries && ".." in Boot().files[d].entries
    ensures Boot().files[d].entries["."] == d && Boot().files[d].entries[".."] == ROOT
    ensures d > 0 ==> Boot().files[ROOT].entries[if d == 1 then "dev" else "bin"] == d
  {
  }

  // ------------------------------------------------------------ whole runs

  datatype Request =
    | Open(process: nat, pathname: string, flags: Flags)
    | ChangeDirectory(process: nat, pathname: string)
    | Spawn(process: nat, pathname: string)

  // None: there is no such process, or a check fails
  ghost function Serve(w: World, r: Request): Option<World>
    requires Good(w)
  {
    if r.process >= |w.directories| then None
    else
      match r
      case Open(process, pathname, flags) =>
        if !OpenChecks(w, process, pathname, flags) then None
        else
          var path := Absolute(w, process, pathname);
          if Walk(w.files, ROOT, path.components) == Err(ENOENT) && flags.create then
            (match Walk(w.files, ROOT, Parent(path).components)
             case Err(_) => Some(w)
             case Ok(d) => Some(w.(files := Create(w.files, d, Filename(path)))))
          else Some(w)
      case ChangeDirectory(process, pathname) =>
        if |pathname| == 0 then None
        else
          var path := Absolute(w, process, pathname);
          (match Walk(w.files, ROOT, path.components)
           case Err(_) => Some(w)
           case Ok(f) => Some(if w.files[f].Directory? then w.(directories := w.directories[process := path]) else w))
      case Spawn(process, pathname) =>
        if !SpawnChecks(w, process, pathname) then None
        else Some(w.(directories := w.directories + [w.directories[process]]))
  }

  lemma ServeKeeps(w: World, r: Request)
    requires Good(w)
    ensures Serve(w, r).Some? ==>
      var w' := Serve(w, r).value;
      Good(w') && |w'.files| >= |w.files| && Keeps(w.files, w'.files)
  {
    hide Walk, Keeps;
    KeepsSelf(w.files);
    if r.process < |w.directories| && (r.Open? || r.ChangeDirectory?) && |r.pathname| >= 1 {
      var path := Absolute(w, r.process, r.pathname);
      AbsoluteIs(w, r.process, r.pathname);
      if r.Open? && Walk(w.files, ROOT, path.components) == Err(ENOENT) {
        CreatedIsFound(w.files, path.components);
        if Walk(w.files, ROOT, Parent(path).components).Ok? {
          StillDirectories(w.files, Create(w.files, Walk(w.files, ROOT, Parent(path).components).value, Filename(path)), w.directories);
        }
      }
    }
  }

  ghost function Run(w: World, rs: seq<Request>): Option<World>
    requires Good(w)
    decreases |rs|
  {
    if rs == [] then Some(w)
    else
      match Serve(w, rs[0])
      case None => None
      case Some(w') => ServeKeeps(w, rs[0]); Run(w', rs[1..])
  }

  /**
   After any run of these calls each working directory is absolute and leads to a directory,
   and every lookup that succeeded before the run gives the same file.
   */
  lemma {:induction false} RunKeeps(w: World, rs: seq<Request>)
    requires Good(w)
    ensures Run(w, rs).Some? ==>
      var w' := Run(w, rs).value;
      Good(w') && |w'.files| >= |w.files| && Keeps(w.files, w'.files)
    decreases |rs|
  {
    hide Serve, Keeps, Walk;
    if rs == [] {
      KeepsSelf(w.files);
    } else if Serve(w, rs[0]).Some? {
      var m := Serve(w, rs[0]).value;
      ServeKeeps(w, rs[0]);
      RunKeeps(m, rs[1..]);
      if Run(w, rs).Some? {
        KeepsMore(w.files, m.files, Run(w, rs).value.files);
      }
    }
  }

  /** In particular from the boot on */
  lemma EveryWorkingDirectory(rs: seq<Request>, p: nat)
    ensures Good(Boot())
    ensures Run(Boot(), rs).Some? && p < |Run(Boot(), rs).value.directories| ==>
      var w := Run(Boot(), rs).value;
      Graph(w.files) && IsDirectory(w.files, w.directories[p])
  {
    BootGood();
    RunKeeps(Boot(), rs);
  }

  // ------------------------------------------------- the checks that can fail

  lemma WalkTwo(files: seq<File>, a: string, b: string)
    requires Graph(files) && a in files[ROOT].entries && files[files[ROOT].entries[a]].Directory?
    requires b in files[files[ROOT].entries[a]].entries
    ensures Walk(files, ROOT, [a, b]) == Ok(files[files[ROOT].entries[a]].entries[b])
  {
    var d := files[ROOT].entries[a];
    assert [a, b][1..] == [b] && [b][1..] == [];
    assert Walk(files, files[d].entries[b], []) == Ok(files[d].entries[b]);
    assert Walk(files, d, [b]) == Walk(files, files[d].entries[b], []);
  }

  lemma TruncatingFlashFails()
    ensures Good(Boot()) && !OpenChecks(Boot(), 0, "/bin/Shell.elf", Flags(false, false, true))
  {
    hide Walk, Parse;
    BootGood();
    ParseTwo("bin", "Shell.elf", "/bin/Shell.elf");
    WalkTwo(Boot().files, "bin", "Shell.elf");
  }

  lemma TruncatingDeviceFails()
    ensures Good(Boot()) && !OpenChecks(Boot(), 0, "/dev/tty", Flags(false, false, true))
  {
    hide Walk, Parse;
    BootGood();
    ParseTwo("dev", "tty", "/dev/tty");
    WalkTwo(Boot().files, "dev", "tty");
  }

  // The name of the file is not enough: the path has to be spelled as in the table.
  lemma SpawnByAnotherNameFails()
    ensures Good(Boot()) && SpawnChecks(Boot(), 0, "/bin/Shell.elf") && !SpawnChecks(Boot(), 0, "/./bin/Shell.elf")
    ensures Walk(Boot().files, ROOT, Absolute(Boot(), 0, "/./bin/Shell.elf").components)
            == Walk(Boot().files, ROOT, Absolute(Boot(), 0, "/bin/Shell.elf").components)
  {
    hide Walk, Parse, Print, Known;
    KnownNames();
    BootGood();
    ParseTwo("bin", "Shell.elf", "/bin/Shell.elf");
    WalkTwo(Boot().files, "bin", "Shell.elf");
    ParseDot("bin", "Shell.elf", "/./bin/Shell.elf");
    WalkDot(Boot().files, ["bin", "Shell.elf"]);
    assert ["."] + ["bin", "Shell.elf"] == [".", "bin", "Shell.elf"];
  }

  /** After the boot each of the three executables can be spawned. */
  lemma ThreeSpawn()
    ensures Good(Boot()) && SpawnChecks(Boot(), 0, "/bin/Shell.elf")
    ensures SpawnChecks(Boot(), 0, "/bin/Example.elf") && SpawnChecks(Boot(), 0, "/bin/Editor.elf")
  {
    hide SpawnChecks;
    BootGood();
    SpawnsFromBin("Shell.elf", "/bin/Shell.elf");
    SpawnsFromBin("Example.elf", "/bin/Example.elf");
    SpawnsFromBin("Editor.elf", "/bin/Editor.elf");
  }

  lemma SpawnsFromBin(name: string, s: string)
    requires name == "Shell.elf" || name == "Example.elf" || name == "Editor.elf"
    requires Known(s) && s == "/bin/" + name
    ensures Graph(Boot().files) && |Boot().directories| == 1 && SpawnChecks(Boot(), 0, s)
  {
    hide Walk, Parse, Print, Known;
    BootGood();
    assert "/" + "bin" + "/" + name == s;
    ParseTwo("bin", name, s);
    WalkTwo(Boot().files, "bin", name);
  }

  lemma KnownNames()
    ensures Known("/bin/Shell.elf") && !Known("/./bin/Shell.elf")
  {
    assert "/./bin/Shell.elf"[1] != "/bin/Shell.elf"[1];
  }

  lemma WalkDot(files: seq<File>, components: seq<string>)
    requires Graph(files) && "." in files[ROOT].entries && files[ROOT].entries["."] == ROOT
    ensures Walk(files, ROOT, ["."] + components) == Walk(files, ROOT, components)
  {
    assert (["."] + components)[1..] == components;
  }

  lemma ParseDot(a: string, b: string, s: string)
    requires SLASH !in a && SLASH !in b && b != "" && s == [SLASH] + ("." + [SLASH] + (a + [SLASH] + b))
    ensures Parse(s) == Path(true, [".", a, b]) && Print(Parse(s)) == s
  {
    var p := Path(true, [".", a, b]);
    ParsePrint(p);
    JoinTwo(a, b);
    JoinBoth(["."], [a, b]);
    assert ["."] + [a, b] == p.components && Join(["."]) == ".";
    hide Join, Parse;
  }

  lemma EmptyNameFails(flags: Flags)
    ensures Good(Boot()) && !OpenChecks(Boot(), 0, "", flags)
  {
    BootGood();
  }

  lemma JoinTwo(a: string, b: string)
    ensures Join([a, b]) == a + [SLASH] + b
  {
    assert [a, b][1..] == [b] && Join([b]) == b;
  }

  lemma ParseTwo(a: string, b: string, s: string)
    requires SLASH !in a && SLASH !in b && b != "" && s == "/" + a + "/" + b
    ensures Parse(s) == Path(true, [a, b]) && Print(Parse(s)) == s
  {
    var p := Path(true, [a, b]);
    ParsePrint(p);
    JoinTwo(a, b);
    assert s == [SLASH] + (a + [SLASH] + b);
  }
}
