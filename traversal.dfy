/**
 * `get_folders`: the depth-first walk of a remote folder tree. Each folder's
 * directory is created when absent and entered, its files are listed and
 * handed to the workers, its subfolders are fetched (one page only) and
 * visited in listing order, with `chdir("..")` after each of them.
 */
module Traversal {
  import opened Common
  import Names
  import Endpoints
  import Pagination

  /**
   * A remote folder as the service describes it: the name it is listed
   * under, its key, the pages of its file listing, whether its content reply
   * carries `folder_content` at all, and the first page of its subfolders
   * (a reply without a `folders` key stands for no subfolders).
   */
  datatype Remote = Remote(name: string, key: string, pages: seq<Pagination.Page>,
                           hasContent: bool, children: seq<Remote>)

  /** What the walk does that can be observed, in order. */
  datatype Event =
    | Mkdir(path: seq<string>)
    | Level(path: seq<string>, requests: seq<string>, listing: Pagination.Listing)
    | Request(url: string)

  /**
   * The end of a walk: its events, the directories that then exist, the
   * current directory, and whether it returned normally (`false` when a
   * reply without `folder_content` raised `KeyError`).
   */
  datatype Walked = Walked(events: seq<Event>, dirs: set<seq<string>>, at: seq<string>, ok: bool)

  /** The directories `makedirs(path)` creates: `path` and its ancestors; `[]` is `/`. */
  function Prefixes(path: seq<string>): set<seq<string>>
  {
    set k | 0 <= k <= |path| :: path[..k]
  }

  /** `if not path.exists(p): makedirs(p)`. */
  function MakeDirs(dirs: set<seq<string>>, path: seq<string>): set<seq<string>>
  {
    if path in dirs then dirs else dirs + Prefixes(path)
  }

  /** `chdir("..")`. */
  function Parent(p: seq<string>): seq<string>
  {
    if p == [] then [] else p[..|p| - 1]
  }

  /** The request for a folder's subfolders: first chunk, `get_content`. */
  function ContentUrl(key: string): string
  {
    Endpoints.FolderEndpoint("folders", key, 1, false)
  }

  /** The request for the root folder's own record: `get_info`. */
  function InfoUrl(key: string): string
  {
    Endpoints.FolderEndpoint("folder", key, 1, true)
  }

  /** A folder's own events: the directory, its files, its subfolder request. */
  function Visit(f: Remote, path: seq<string>, dirs: set<seq<string>>): (r: seq<Event>)
  {
    (if path in dirs then [] else [Mkdir(path)])
    + [Level(path, Pagination.ChunkRequests(f.key, Pagination.LastChunk(f.pages, 1)),
             Pagination.ListFrom(f.pages, 1)),
       Request(ContentUrl(f.key))]
  }

  /** The walk of `f` into directory `path`, starting with `dirs` present. */
  function Walk(f: Remote, path: seq<string>, dirs: set<seq<string>>): (w: Walked)
    decreases f, 1
  {
    var own := Visit(f, path, dirs);
    var made := MakeDirs(dirs, path);
    if !f.hasContent then Walked(own, made, path, false)
    else
      var w := WalkChildren(f, |f.children|, path, made);
      Walked(own + w.events, w.dirs, w.at, w.ok)
  }

  /**
   * The walks of the first `n` subfolders of `f`, from directory `path`;
   * each child directory is its name relative to the current directory, and
   * an exception ends the loop.
   */
  function WalkChildren(f: Remote, n: nat, path: seq<string>, dirs: set<seq<string>>): (w: Walked)
    requires n <= |f.children|
    decreases f, 0, n
  {
    if n == 0 then Walked([], dirs, path, true)
    else
      var w := WalkChildren(f, n - 1, path, dirs);
      if !w.ok then w
      else
        var c := f.children[n - 1];
        var v := Walk(c, w.at + [c.name], w.dirs);
        Walked(w.events + v.events, v.dirs, if v.ok then Parent(v.at) else v.at, v.ok)
  }

  /**
   * `get_folders(key, output_path, threads, first=True)`: the root's record
   * is fetched and only the root's name is normalised; `output` is relative
   * to the current directory `cwd`.
   */
  function Root(alnum: char -> bool, f: Remote, infoOk: bool, output: seq<string>,
                cwd: seq<string>, dirs: set<seq<string>>): (w: Walked)
  {
    var info := [Request(InfoUrl(f.key))];
    if !infoOk then Walked(info, dirs, cwd, false)
    else
      var w := Walk(f, cwd + output + [Names.Normalize(alnum, f.name)], dirs);
      Walked(info + w.events, w.dirs, w.at, w.ok)
  }

  /**
   * The process-wide state `get_folders` changes: the current directory,
   * the directories that exist, and what it has done.
   */
  class Mirror {
    var cwd: seq<string>
    var dirs: set<seq<string>>
    var trace: seq<Event>

    constructor (cwd0: seq<string>, dirs0: set<seq<string>>)
      ensures cwd == cwd0 && dirs == dirs0 && trace == []
    {
      cwd := cwd0;
      dirs := dirs0;
      trace := [];
    }

    method GetRootFolders(alnum: char -> bool, f: Remote, infoOk: bool, output: seq<string>)
      returns (ok: bool)
      modifies this
      ensures var w := Root(alnum, f, infoOk, output, old(cwd), old(dirs));
              ok == w.ok && cwd == w.at && dirs == w.dirs && trace == old(trace) + w.events
    {
      trace := trace + [Request(InfoUrl(f.key))];
      if !infoOk {
        return false;
      }
      ghost var before := trace;
      ok := GetFolders(f, output + [Names.Normalize(alnum, f.name)]);
      Regroup(old(trace), [Request(InfoUrl(f.key))], trace[|before|..]);
      assert old(cwd) + (output + [Names.Normalize(alnum, f.name)])
             == old(cwd) + output + [Names.Normalize(alnum, f.name)];
    }

    /** `get_folders(key, name, threads)` with `name` relative to `cwd`. */
    method GetFolders(f: Remote, rel: seq<string>) returns (ok: bool)
      modifies this
      ensures var w := Walk(f, old(cwd) + rel, old(dirs));
              ok == w.ok && cwd == w.at && dirs == w.dirs && trace == old(trace) + w.events
      decreases f, 1
    {
      var path := cwd + rel;
      EnterFolder(f, path);
      if !f.hasContent {
        return false;
      }
      ok := VisitChildren(f, path);
    }

    /**
     * Creates `path` unless it exists, changes into it, lists and hands on
     * its files, then asks for its subfolders.
     */
    method EnterFolder(f: Remote, path: seq<string>)
      modifies this
      ensures cwd == path && dirs == MakeDirs(old(dirs), path)
      ensures trace == old(trace) + Visit(f, path, old(dirs))
    {
      if path !in dirs {
        dirs := dirs + Prefixes(path);
        trace := trace + [Mkdir(path)];
      }
      cwd := path;
      var listing, requested := Pagination.FetchFileListing(f.key, f.pages);
      trace := trace + [Level(cwd, requested, listing), Request(ContentUrl(f.key))];
    }

    /** The loop over the subfolders, from `path`, each followed by `chdir("..")`. */
    method VisitChildren(f: Remote, path: seq<string>) returns (ok: bool)
      requires cwd == path
      modifies this
      ensures var w := WalkChildren(f, |f.children|, path, old(dirs));
              ok == w.ok && cwd == w.at && dirs == w.dirs && trace == old(trace) + w.events
      decreases f, 0
    {
      ghost var base := trace;
      ghost var made := dirs;
      ok := true;
      var i := 0;
      ghost var done: seq<Event> := [];
      while i < |f.children|
        invariant i <= |f.children| && ok
        invariant WalkChildren(f, i, path, made) == Walked(done, dirs, cwd, true)
        invariant trace == base + done
      {
        ghost var step;
        ok, step := VisitChild(f, i, path, made, done);
        Regroup(base, done, step);
        done := done + step;
        if !ok {
          CrashSticks(f, i + 1, |f.children|, path, made);
          return;
        }
        i := i + 1;
      }
    }

    /** One pass of that loop: the walk of child `i`, then `chdir("..")` if it returned. */
    method VisitChild(f: Remote, i: nat, path: seq<string>, ghost made: set<seq<string>>, ghost done: seq<Event>)
      returns (ok: bool, ghost step: seq<Event>)
      requires i < |f.children| && WalkChildren(f, i, path, made) == Walked(done, dirs, cwd, true)
      modifies this
      ensures WalkChildren(f, i + 1, path, made) == Walked(done + step, dirs, cwd, ok)
      ensures trace == old(trace) + step
      decreases f, 0, i
    {
      var c := f.children[i];
      ghost var v := Walk(c, cwd + [c.name], dirs);
      ChildStep(f, i, path, made, Walked(done, dirs, cwd, true), v);
      ok := GetFolders(c, [c.name]);
      step := v.events;
      if ok {
        cwd := Parent(cwd);
      }
    }
  }

  lemma Regroup(a: seq<Event>, b: seq<Event>, c: seq<Event>)
    ensures a + b + c == a + (b + c)
  {
  }

  /** One more child: its walk follows the earlier ones, from their directory. */
  lemma ChildStep(f: Remote, i: nat, path: seq<string>, dirs: set<seq<string>>, w: Walked, v: Walked)
    requires i < |f.children| && w == WalkChildren(f, i, path, dirs) && w.ok
    requires v == Walk(f.children[i], w.at + [f.children[i].name], w.dirs)
    ensures WalkChildren(f, i + 1, path, dirs)
            == Walked(w.events + v.events, v.dirs, if v.ok then Parent(v.at) else v.at, v.ok)
  {
  }

  /** Once a child's walk raises, no later child is visited. */
  lemma {:induction false} CrashSticks(f: Remote, i: nat, n: nat, path: seq<string>, dirs: set<seq<string>>)
    requires i <= n <= |f.children|
    requires !WalkChildren(f, i, path, dirs).ok
    ensures WalkChildren(f, n, path, dirs) == WalkChildren(f, i, path, dirs)
    decreases n
  {
    if n > i {
      CrashSticks(f, i, n - 1, path, dirs);
    }
  }

  /** Every folder of the tree has a content reply with `folder_content`. */
  predicate Completes(f: Remote)
    decreases f
  {
    f.hasContent && forall i :: 0 <= i < |f.children| ==> Completes(f.children[i])
  }

  /**
   * A walk returns normally exactly when no content reply of the tree lacks
   * `folder_content`: a file listing that aborts does not stop it. When it
   * returns, the current directory is the one it started in, so each
   * `chdir("..")` lands back in the parent.
   */
  lemma {:induction false} WalkOk(f: Remote, path: seq<string>, dirs: set<seq<string>>)
    ensures Walk(f, path, dirs).ok <==> Completes(f)
    ensures Walk(f, path, dirs).ok ==> Walk(f, path, dirs).at == path
    decreases f, 1
  {
    if f.hasContent {
      ChildrenOk(f, |f.children|, path, MakeDirs(dirs, path));
    }
  }

  lemma {:induction false} ChildrenOk(f: Remote, n: nat, path: seq<string>, dirs: set<seq<string>>)
    requires n <= |f.children|
    ensures WalkChildren(f, n, path, dirs).ok <==> forall i :: 0 <= i < n ==> Completes(f.children[i])
    ensures WalkChildren(f, n, path, dirs).ok ==> WalkChildren(f, n, path, dirs).at == path
    decreases f, 0, n
  {
    if n > 0 {
      ChildrenOk(f, n - 1, path, dirs);
      var w := WalkChildren(f, n - 1, path, dirs);
      if w.ok {
        var c := f.children[n - 1];
        WalkOk(c, w.at + [c.name], w.dirs);
        assert Parent(path + [c.name]) == path;
      }
    }
  }

  /** The directories of the tree rooted at `f`, entered at `path`. */
  ghost function Tree(f: Remote, path: seq<string>): set<seq<string>>
    decreases f, 1
  {
    {path} + TreeChildren(f, |f.children|, path)
  }

  ghost function TreeChildren(f: Remote, n: nat, path: seq<string>): set<seq<string>>
    requires n <= |f.children|
    decreases f, 0, n
  {
    if n == 0 then {}
    else TreeChildren(f, n - 1, path) + Tree(f.children[n - 1], path + [f.children[n - 1].name])
  }

  /**
   * Directories are never removed, and a walk that returns normally leaves
   * every directory of the tree in place.
   */
  lemma {:induction false} Covers(f: Remote, path: seq<string>, dirs: set<seq<string>>)
    ensures dirs <= Walk(f, path, dirs).dirs
    ensures Walk(f, path, dirs).ok ==> Tree(f, path) <= Walk(f, path, dirs).dirs
    decreases f, 1
  {
    assert path in Prefixes(path) by {
      assert path[..|path|] == path;
    }
    if f.hasContent {
      CoversChildren(f, |f.children|, path, MakeDirs(dirs, path));
    }
  }

  lemma {:induction false} CoversChildren(f: Remote, n: nat, path: seq<string>, dirs: set<seq<string>>)
    requires n <= |f.children|
    ensures dirs <= WalkChildren(f, n, path, dirs).dirs
    ensures WalkChildren(f, n, path, dirs).ok ==> TreeChildren(f, n, path) <= WalkChildren(f, n, path, dirs).dirs
    decreases f, 0, n
  {
    if n > 0 {
      CoversChildren(f, n - 1, path, dirs);
      ChildrenOk(f, n - 1, path, dirs);
      var w := WalkChildren(f, n - 1, path, dirs);
      if w.ok {
        var c := f.children[n - 1];
        Covers(c, path + [c.name], w.dirs);
      }
    }
  }

  /** `makedirs` runs only for a directory that does not exist yet. */
  lemma {:induction false} MkdirOnlyIfAbsent(f: Remote, path: seq<string>, dirs: set<seq<string>>, p: seq<string>)
    requires Mkdir(p) in Walk(f, path, dirs).events
    ensures p !in dirs
    decreases f, 1
  {
    var own := Visit(f, path, dirs);
    if Mkdir(p) !in own {
      MkdirChildren(f, |f.children|, path, MakeDirs(dirs, path), p);
    }
  }

  lemma {:induction false} MkdirChildren(f: Remote, n: nat, path: seq<string>, dirs: set<seq<string>>, p: seq<string>)
    requires n <= |f.children|
    requires Mkdir(p) in WalkChildren(f, n, path, dirs).events
    ensures p !in dirs
    decreases f, 0, n
  {
    var w := WalkChildren(f, n - 1, path, dirs);
    if Mkdir(p) in w.events {
      MkdirChildren(f, n - 1, path, dirs, p);
    } else {
      var c := f.children[n - 1];
      CoversChildren(f, n - 1, path, dirs);
      MkdirOnlyIfAbsent(c, w.at + [c.name], w.dirs, p);
    }
  }

  /** With the whole tree present, a walk creates no directory. */
  lemma {:induction false} NoMkdir(f: Remote, path: seq<string>, dirs: set<seq<string>>)
    requires Tree(f, path) <= dirs
    ensures forall e :: e in Walk(f, path, dirs).events ==> !e.Mkdir?
    decreases f, 1
  {
    if f.hasContent {
      NoMkdirChildren(f, |f.children|, path, MakeDirs(dirs, path));
    }
  }

  lemma {:induction false} NoMkdirChildren(f: Remote, n: nat, path: seq<string>, dirs: set<seq<string>>)
    requires n <= |f.children|
    requires TreeChildren(f, n, path) <= dirs
    ensures forall e :: e in WalkChildren(f, n, path, dirs).events ==> !e.Mkdir?
    decreases f, 0, n
  {
    if n > 0 {
      NoMkdirChildren(f, n - 1, path, dirs);
      var w := WalkChildren(f, n - 1, path, dirs);
      if w.ok {
        var c := f.children[n - 1];
        ChildrenOk(f, n - 1, path, dirs);
        CoversChildren(f, n - 1, path, dirs);
        NoMkdir(c, path + [c.name], w.dirs);
      }
    }
  }

  /**
   * Idempotence of the directory layout: walking the same tree again after
   * a walk that returned normally creates no directory.
   */
  lemma RerunMakesNoDirectory(f: Remote, path: seq<string>, dirs: set<seq<string>>)
    requires Walk(f, path, dirs).ok
    ensures forall e :: e in Walk(f, path, Walk(f, path, dirs).dirs).events ==> !e.Mkdir?
  {
    Covers(f, path, dirs);
    NoMkdir(f, path, Walk(f, path, dirs).dirs);
  }

  /**
   * A folder's own steps, in order: `makedirs` when the directory is absent
   * (and only then), the file listing started in that directory, then the
   * request for its subfolders.
   */
  lemma MadeBeforeListed(f: Remote, path: seq<string>, dirs: set<seq<string>>)
    ensures var ev := Walk(f, path, dirs).events;
            var k := if path in dirs then 0 else 1;
            |ev| >= k + 2
            && (path !in dirs ==> ev[0] == Mkdir(path))
            && (path in dirs ==> Mkdir(path) !in ev)
            && ev[k] == Level(path, Pagination.ChunkRequests(f.key, Pagination.LastChunk(f.pages, 1)),
                              Pagination.ListFrom(f.pages, 1))
            && ev[k + 1] == Request(ContentUrl(f.key))
  {
    if Mkdir(path) in Walk(f, path, dirs).events {
      MkdirOnlyIfAbsent(f, path, dirs, path);
    }
  }

  /** The directories the workers were started in, in order. */
  function LevelPaths(events: seq<Event>): seq<seq<string>>
  {
    if events == [] then []
    else (if events[0].Level? then [events[0].path] else []) + LevelPaths(events[1..])
  }

  lemma {:induction false} LevelPathsAppend(a: seq<Event>, b: seq<Event>)
    ensures LevelPaths(a + b) == LevelPaths(a) + LevelPaths(b)
  {
    if a != [] {
      assert (a + b)[1..] == a[1..] + b;
      LevelPathsAppend(a[1..], b);
    } else {
      assert a + b == b;
    }
  }

  /** The paths of `ps` that are `d` components long, in order. */
  function Tops(ps: seq<seq<string>>, d: nat): seq<seq<string>>
  {
    if ps == [] then []
    else (if |ps[0]| == d then [ps[0]] else []) + Tops(ps[1..], d)
  }

  lemma {:induction false} TopsAppend(a: seq<seq<string>>, b: seq<seq<string>>, d: nat)
    ensures Tops(a + b, d) == Tops(a, d) + Tops(b, d)
  {
    if a != [] {
      assert (a + b)[1..] == a[1..] + b;
      TopsAppend(a[1..], b, d);
    } else {
      assert a + b == b;
    }
  }

  /** `p` lies strictly inside directory `path`. */
  predicate Below(path: seq<string>, p: seq<string>)
  {
    |path| < |p| && p[..|path|] == path
  }

  /** The child directories of `f`'s first `n` subfolders, in listing order. */
  function ChildPaths(f: Remote, n: nat, path: seq<string>): (r: seq<seq<string>>)
    requires n <= |f.children|
    ensures |r| == n
  {
    if n == 0 then [] else ChildPaths(f, n - 1, path) + [path + [f.children[n - 1].name]]
  }

  /** A walk of `q` starts its own files before anything deeper. */
  lemma {:induction false} TopOnlyOwn(q: seq<string>, ps: seq<seq<string>>)
    requires ps != [] && ps[0] == q && forall i :: 0 < i < |ps| ==> Below(q, ps[i])
    ensures Tops(ps, |q|) == [q]
  {
    var rest := ps[1..];
    assert forall i :: 0 <= i < |rest| ==> Below(q, rest[i]);
    TopsDeeper(rest, |q|);
  }

  lemma {:induction false} TopsDeeper(ps: seq<seq<string>>, d: nat)
    requires forall i :: 0 <= i < |ps| ==> |ps[i]| > d
    ensures Tops(ps, d) == []
  {
    if ps != [] {
      assert forall i :: 0 <= i < |ps[1..]| ==> |ps[1..][i]| > d by {
        forall i | 0 <= i < |ps[1..]| ensures |ps[1..][i]| > d {
          assert ps[1..][i] == ps[i + 1];
        }
      }
      TopsDeeper(ps[1..], d);
    }
  }

  /**
   * Order of a walk: the workers of a folder are started in its own
   * directory before those of any subfolder, every later level lies inside
   * it, and its direct subfolders are entered in listing order, under their
   * names as listed; a walk that returns normally enters all of them.
   */
  lemma {:induction false} Levels(f: Remote, path: seq<string>, dirs: set<seq<string>>)
    ensures var ps := LevelPaths(Walk(f, path, dirs).events);
            ps != [] && ps[0] == path && (forall i :: 0 < i < |ps| ==> Below(path, ps[i]))
            && Tops(ps[1..], |path| + 1) <= ChildPaths(f, |f.children|, path)
            && (Walk(f, path, dirs).ok ==> Tops(ps[1..], |path| + 1) == ChildPaths(f, |f.children|, path))
    decreases f, 1
  {
    var own := Visit(f, path, dirs);
    assert LevelPaths(own) == [path] by {
      var lv := [Level(path, Pagination.ChunkRequests(f.key, Pagination.LastChunk(f.pages, 1)),
                       Pagination.ListFrom(f.pages, 1)), Request(ContentUrl(f.key))];
      assert LevelPaths(lv[1..]) == [];
      if path !in dirs {
        assert own[1..] == lv;
      }
    }
    if f.hasContent {
      var w := WalkChildren(f, |f.children|, path, MakeDirs(dirs, path));
      LevelPathsAppend(own, w.events);
      LevelsChildren(f, |f.children|, path, MakeDirs(dirs, path));
      assert LevelPaths(Walk(f, path, dirs).events)[1..] == LevelPaths(w.events);
    } else {
      assert Tops([], |path| + 1) == [];
    }
  }

  lemma {:induction false} LevelsChildren(f: Remote, n: nat, path: seq<string>, dirs: set<seq<string>>)
    requires n <= |f.children|
    ensures var ps := LevelPaths(WalkChildren(f, n, path, dirs).events);
            (forall i :: 0 <= i < |ps| ==> Below(path, ps[i]))
            && Tops(ps, |path| + 1) <= ChildPaths(f, n, path)
            && (WalkChildren(f, n, path, dirs).ok ==> Tops(ps, |path| + 1) == ChildPaths(f, n, path))
    decreases f, 0, n
  {
    if n > 0 {
      LevelsChildren(f, n - 1, path, dirs);
      var w := WalkChildren(f, n - 1, path, dirs);
      var pw := LevelPaths(w.events);
      var prev := ChildPaths(f, n - 1, path);
      var c := f.children[n - 1];
      var q := path + [c.name];
      assert ChildPaths(f, n, path) == prev + [q];
      if w.ok {
        ChildrenOk(f, n - 1, path, dirs);
        var v := Walk(c, q, w.dirs);
        assert WalkChildren(f, n, path, dirs).events == w.events + v.events;
        Levels(c, q, w.dirs);
        var pv := LevelPaths(v.events);
        LevelPathsAppend(w.events, v.events);
        TopOnlyOwn(q, pv);
        TopsAppend(pw, pv, |path| + 1);
        assert Tops(pw + pv, |path| + 1) == prev + [q];
        BelowChild(path, q, pv);
      } else {
        assert WalkChildren(f, n, path, dirs) == w;
      }
    }
  }

  /** What lies below a child directory lies below its parent. */
  lemma BelowChild(path: seq<string>, q: seq<string>, pv: seq<seq<string>>)
    requires |q| == |path| + 1 && q[..|path|] == path
    requires pv != [] && pv[0] == q && forall i :: 0 < i < |pv| ==> Below(q, pv[i])
    ensures forall i :: 0 <= i < |pv| ==> Below(path, pv[i])
  {
    forall i | 0 <= i < |pv| ensures Below(path, pv[i]) {
      if i > 0 {
        assert pv[i][..|path|] == pv[i][..|q|][..|path|];
      }
    }
  }

  /**
   * The root folder's directory is `output` joined with the root's name as
   * normalised, so its last component holds only allowed characters; the
   * directories of its subfolders use their names as listed, unnormalised.
   */
  lemma RootLayout(alnum: char -> bool, f: Remote, output: seq<string>,
                   cwd: seq<string>, dirs: set<seq<string>>)
    ensures var top := cwd + output + [Names.Normalize(alnum, f.name)];
            var ps := LevelPaths(Root(alnum, f, true, output, cwd, dirs).events);
            ps != [] && ps[0] == top
            && (forall c :: c in top[|top| - 1] ==> Names.Allowed(alnum, c))
            && Tops(ps[1..], |top| + 1) <= ChildPaths(f, |f.children|, top)
  {
    var name := Names.Normalize(alnum, f.name);
    var top := cwd + output + [name];
    RootWalks(alnum, f, output, cwd, dirs);
    Levels(f, top, dirs);
    Names.OutputAllowed(alnum, f.name);
    assert forall c :: c in name ==> Names.Allowed(alnum, c);
  }

  /**
   * The root's record is asked for before anything else; when its reply
   * lacks the name, the run ends there, in the directory it started in and
   * with no directory made.
   */
  lemma InfoFirst(alnum: char -> bool, f: Remote, infoOk: bool, output: seq<string>,
                  cwd: seq<string>, dirs: set<seq<string>>)
    ensures var w := Root(alnum, f, infoOk, output, cwd, dirs);
            w.events != [] && w.events[0] == Request(InfoUrl(f.key))
            && (!infoOk ==> w == Walked([Request(InfoUrl(f.key))], dirs, cwd, false))
  {
  }

  lemma RootWalks(alnum: char -> bool, f: Remote, output: seq<string>,
                  cwd: seq<string>, dirs: set<seq<string>>)
    ensures LevelPaths(Root(alnum, f, true, output, cwd, dirs).events)
            == LevelPaths(Walk(f, cwd + output + [Names.Normalize(alnum, f.name)], dirs).events)
  {
    var info := [Request(InfoUrl(f.key))];
    var w := Walk(f, cwd + output + [Names.Normalize(alnum, f.name)], dirs);
    LevelPathsAppend(info, w.events);
    assert LevelPaths(info) == [];
  }
}
