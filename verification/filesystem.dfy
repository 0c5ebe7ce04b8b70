/** The filesystem as the script sees it through `os.path.exists` and
    `os.makedirs`: a set of existing directory paths, and for each path
    that cannot be created the text of the error `os.makedirs` raises. */
module FileSystems {
  import opened Results
  import opened Paths

  /** The error `os.makedirs` raises when its target already exists. */
  const FileExistsError: string := "[Errno 17] File exists"

  /** Whether `os.makedirs(p)` raises, and with what text. */
  function MakeDirsStatus(dirs: set<Path>, refused: map<Path, string>, p: Path): Status
  {
    if p in dirs then Raised(FileExistsError)
    else if p in refused then Raised(refused[p])
    else Done
  }

  /** The directories after a successful `os.makedirs(p)`: `p` and every
      missing ancestor of it. */
  function AfterMakeDirs(dirs: set<Path>, p: Path): set<Path>
  {
    dirs + {p} + Ancestors(p)
  }

  class FileSystem {
    var dirs: set<Path>
    const refused: map<Path, string>

    constructor (dirs: set<Path>, refused: map<Path, string>)
      ensures this.dirs == dirs && this.refused == refused
    {
      this.dirs := dirs;
      this.refused := refused;
    }

    /** `os.path.exists(p)` */
    predicate Exists(p: Path)
      reads this
    {
      p in dirs
    }

    /** `os.makedirs(p)`; the returned status stands for the exception. */
    method MakeDirs(p: Path) returns (s: Status)
      modifies this
      ensures s == MakeDirsStatus(old(dirs), refused, p)
      ensures dirs == if s.Done? then AfterMakeDirs(old(dirs), p) else old(dirs)
    {
      s := MakeDirsStatus(dirs, refused, p);
      if s.Done? {
        dirs := AfterMakeDirs(dirs, p);
      }
    }
  }

  /** The state reached by checking and creating `levels` in order: the
      directories, the paths `os.makedirs` was called on, and the error that
      stopped the walk, if one did. */
  datatype Walked = Walked(dirs: set<Path>, calls: seq<Path>, failure: Status)

  /** For each level in order: skip it if it exists, otherwise create it,
      and stop at the first creation that raises. */
  function Walk(dirs: set<Path>, refused: map<Path, string>, levels: seq<Path>): Walked
    decreases |levels|
  {
    if levels == [] then Walked(dirs, [], Done)
    else
      var p := levels[0];
      if p in dirs then Walk(dirs, refused, levels[1..])
      else match MakeDirsStatus(dirs, refused, p)
        case Raised(e) => Walked(dirs, [p], Raised(e))
        case Done =>
          var w := Walk(AfterMakeDirs(dirs, p), refused, levels[1..]);
          Walked(w.dirs, [p] + w.calls, w.failure)
  }

  /** The levels that do not exist yet, in their order. */
  function Missing(levels: seq<Path>, dirs: set<Path>): (m: seq<Path>)
    ensures forall p :: p in m ==> p in levels && p !in dirs
  {
    if levels == [] then []
    else (if levels[0] in dirs then [] else [levels[0]]) + Missing(levels[1..], dirs)
  }

  /** The levels together with all their ancestors. */
  function Spread(levels: seq<Path>): set<Path>
  {
    if levels == [] then {} else {levels[0]} + Ancestors(levels[0]) + Spread(levels[1..])
  }

  /** Each level is strictly longer than the ones before it. */
  predicate Lengthening(levels: seq<Path>)
  {
    forall i, j :: 0 <= i < j < |levels| ==> |levels[i]| < |levels[j]|
  }

  /** The walk never removes a directory, and adds only levels and their
      ancestors. */
  lemma {:induction false} WalkBounds(dirs: set<Path>, refused: map<Path, string>, levels: seq<Path>)
    ensures dirs <= Walk(dirs, refused, levels).dirs
    ensures Walk(dirs, refused, levels).dirs - dirs <= Spread(levels)
    decreases |levels|
  {
    if levels != [] {
      var p := levels[0];
      if p in dirs {
        WalkBounds(dirs, refused, levels[1..]);
      } else if MakeDirsStatus(dirs, refused, p).Done? {
        WalkBounds(AfterMakeDirs(dirs, p), refused, levels[1..]);
      }
    }
  }

  /** A walk that met no error leaves every level existing. */
  lemma {:induction false} WalkCompletes(dirs: set<Path>, refused: map<Path, string>, levels: seq<Path>)
    ensures Walk(dirs, refused, levels).failure.Done? ==>
      forall i :: 0 <= i < |levels| ==> levels[i] in Walk(dirs, refused, levels).dirs
    decreases |levels|
  {
    if levels != [] {
      var p := levels[0];
      var d' := if p in dirs then dirs else AfterMakeDirs(dirs, p);
      if p in dirs || MakeDirsStatus(dirs, refused, p).Done? {
        WalkCompletes(d', refused, levels[1..]);
        WalkBounds(d', refused, levels[1..]);
        forall i | 1 <= i < |levels| ensures levels[i] == levels[1..][i - 1] { }
      }
    }
  }

  /** Creating a level does not create any later, longer level. */
  lemma {:induction false} MissingAfterCreate(levels: seq<Path>, dirs: set<Path>, p: Path)
    requires forall i :: 0 <= i < |levels| ==> |p| < |levels[i]|
    ensures Missing(levels, AfterMakeDirs(dirs, p)) == Missing(levels, dirs)
    decreases |levels|
  {
    if levels != [] {
      MissingAfterCreate(levels[1..], dirs, p);
    }
  }

  /** `os.makedirs` is called exactly on the missing levels, in order; a
      walk that failed called it on a prefix of them, the failing call last. */
  lemma WalkCalls(dirs: set<Path>, refused: map<Path, string>, levels: seq<Path>)
    requires Lengthening(levels)
    ensures var w := Walk(dirs, refused, levels);
      && (w.failure.Done? ==> w.calls == Missing(levels, dirs))
      && (w.failure.Raised? ==>
            && w.calls != []
            && w.calls <= Missing(levels, dirs)
            && var last := w.calls[|w.calls| - 1];
               last in refused && w.failure.error == refused[last])
  {
    WalkCallsDone(dirs, refused, levels);
    WalkCallsRaised(dirs, refused, levels);
    WalkRaisedLast(dirs, refused, levels);
  }

  lemma {:induction false} WalkCallsDone(dirs: set<Path>, refused: map<Path, string>, levels: seq<Path>)
    requires Lengthening(levels)
    ensures var w := Walk(dirs, refused, levels);
      w.failure.Done? ==> w.calls == Missing(levels, dirs)
    decreases |levels|
  {
    if levels != [] {
      var p, rest := levels[0], levels[1..];
      LengtheningTail(levels);
      WalkStep(dirs, refused, levels);
      assert Missing(levels, dirs) == (if p in dirs then [] else [p]) + Missing(rest, dirs);
      if p in dirs {
        WalkCallsDone(dirs, refused, rest);
      } else if MakeDirsStatus(dirs, refused, p).Done? {
        WalkCallsDone(AfterMakeDirs(dirs, p), refused, rest);
        MissingAfterCreate(rest, dirs, p);
      }
    }
  }

  lemma {:induction false} WalkCallsRaised(dirs: set<Path>, refused: map<Path, string>, levels: seq<Path>)
    requires Lengthening(levels)
    ensures var w := Walk(dirs, refused, levels);
      w.failure.Raised? ==> w.calls != [] && w.calls <= Missing(levels, dirs)
    decreases |levels|
  {
    if levels != [] {
      var p, rest := levels[0], levels[1..];
      LengtheningTail(levels);
      WalkStep(dirs, refused, levels);
      assert Missing(levels, dirs) == (if p in dirs then [] else [p]) + Missing(rest, dirs);
      if p in dirs {
        WalkCallsRaised(dirs, refused, rest);
      } else if MakeDirsStatus(dirs, refused, p).Done? {
        WalkCallsRaised(AfterMakeDirs(dirs, p), refused, rest);
        MissingAfterCreate(rest, dirs, p);
      }
    }
  }

  lemma {:induction false} WalkRaisedLast(dirs: set<Path>, refused: map<Path, string>, levels: seq<Path>)
    ensures var w := Walk(dirs, refused, levels);
      w.failure.Raised? ==>
        && w.calls != []
        && var last := w.calls[|w.calls| - 1];
           last in refused && w.failure.error == refused[last]
    decreases |levels|
  {
    if levels != [] {
      var p := levels[0];
      WalkStep(dirs, refused, levels);
      if p in dirs {
        WalkRaisedLast(dirs, refused, levels[1..]);
      } else if MakeDirsStatus(dirs, refused, p).Done? {
        var w' := Walk(AfterMakeDirs(dirs, p), refused, levels[1..]);
        WalkRaisedLast(AfterMakeDirs(dirs, p), refused, levels[1..]);
        if w'.failure.Raised? {
          assert ([p] + w'.calls)[|w'.calls|] == w'.calls[|w'.calls| - 1];
        }
      }
    }
  }

  /** One step of the walk, for proofs that follow it level by level. */
  lemma WalkStep(dirs: set<Path>, refused: map<Path, string>, levels: seq<Path>)
    requires levels != []
    ensures var p, w := levels[0], Walk(dirs, refused, levels);
      var s := MakeDirsStatus(dirs, refused, p);
      && (p in dirs ==> w == Walk(dirs, refused, levels[1..]))
      && (p !in dirs && s.Raised? ==> w == Walked(dirs, [p], s))
      && (p !in dirs && s.Done? ==>
            var w' := Walk(AfterMakeDirs(dirs, p), refused, levels[1..]);
            w == Walked(w'.dirs, [p] + w'.calls, w'.failure))
  {
  }

  lemma LengtheningTail(levels: seq<Path>)
    requires levels != [] && Lengthening(levels)
    ensures Lengthening(levels[1..])
    ensures forall i :: 0 <= i < |levels[1..]| ==> |levels[0]| < |levels[1..][i]|
  {
    forall i, j | 0 <= i < j < |levels[1..]| ensures |levels[1..][i]| < |levels[1..][j]| {
      assert levels[1..][i] == levels[i + 1] && levels[1..][j] == levels[j + 1];
    }
    forall i | 0 <= i < |levels[1..]| ensures |levels[0]| < |levels[1..][i]| {
      assert levels[1..][i] == levels[i + 1];
    }
  }

  /** When every level exists, the walk calls nothing and changes nothing. */
  lemma {:induction false} WalkIdle(dirs: set<Path>, refused: map<Path, string>, levels: seq<Path>)
    requires forall i :: 0 <= i < |levels| ==> levels[i] in dirs
    ensures Walk(dirs, refused, levels) == Walked(dirs, [], Done)
    decreases |levels|
  {
    if levels != [] {
      WalkIdle(dirs, refused, levels[1..]);
    }
  }

  /** Walking again after a successful walk is a no-op. */
  lemma WalkIdempotent(dirs: set<Path>, refused: map<Path, string>, levels: seq<Path>)
    ensures var w := Walk(dirs, refused, levels);
      w.failure.Done? ==> Walk(w.dirs, refused, levels) == Walked(w.dirs, [], Done)
  {
    WalkCompletes(dirs, refused, levels);
    if Walk(dirs, refused, levels).failure.Done? {
      WalkIdle(Walk(dirs, refused, levels).dirs, refused, levels);
    }
  }
}
