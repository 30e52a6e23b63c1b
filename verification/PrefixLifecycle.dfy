/**
 The target prefix during `create` (libmamba/src/api/create.cpp and the abort path of
 libmamba/src/api/install.cpp).
 */
module PrefixLifecycle {
  import opened Paths

  type Files = set<Path>

  /** Whatever exists lies in directories that exist. */
  ghost predicate Closed(files: Files) {
    forall p, k: nat | p in files && k <= |p| :: p[..k] in files
  }

  function Without(files: Files, dir: Path): Files {
    set p | p in files && !Under(p, dir)
  }

  /** `p` with every directory above it. */
  function Chain(p: Path): set<Path> {
    set k: nat | k <= |p| :: p[..k]
  }

  /** A call of `create`: `storePlatform` says that a platform is set and not by the rc file. */
  datatype Request = Request(
    target: Path, root: Path, dryRun: bool, hasSpecs: bool, lockfile: bool, storePlatform: bool)

  /**
   What the user and the rest of the program do. `installed` are the files a transaction brings, all of them or those
   up to its failure.
   */
  datatype Answers = Answers(
    overwrite: bool, installFails: bool, confirm: bool, executeFails: bool, installed: set<Path>)

  /** Failed: before the question; Broken: in the transaction that was confirmed. */
  datatype Outcome = Refused | Failed | Declined | Broken | Done

  // ---------- The commands on the file system ----------

  class Disk {
    var files: Files

    constructor (files: Files)
      ensures this.files == files
    {
      this.files := files;
    }

    method RemoveAll(dir: Path)
      modifies this
      ensures files == Without(old(files), dir)
    {
      files := set p | p in files && !Under(p, dir);
    }

    method CreateWithDirectories(p: Path)
      modifies this
      ensures files == old(files) + Chain(p)
    {
      files := files + Chain(p);
    }
  }

  function Meta(target: Path): Path {
    target + ["conda-meta"]
  }

  function HistoryOf(target: Path): Path {
    target + ["conda-meta", "history"]
  }

  function PlatformFile(target: Path): Path {
    target + [".mambarc"]
  }

  function InstalledAt(target: Path, installed: set<Path>): Files {
    set p | p in installed :: target + p
  }

  // ---------- What happens to the files ----------

  predicate IsRefused(files: Files, q: Request, a: Answers) {
    !q.dryRun && q.target in files && (q.target == q.root || Meta(q.target) !in files || !a.overwrite)
  }

  /** After the checks, the old environment is gone. */
  function Cleared(files: Files, q: Request): Files {
    if !q.dryRun && q.target in files then Without(files, q.target) else files
  }

  /** After an empty environment or a platform file has been made. */
  function Prepared(files: Files, q: Request): Files {
    var base := if !q.dryRun && !q.hasSpecs then files + Chain(HistoryOf(q.target)) else files;
    if !q.dryRun && q.storePlatform then base + Chain(PlatformFile(q.target)) else base
  }

  predicate RemovesOnAbort(q: Request) {
    !q.dryRun && q.hasSpecs && q.storePlatform
  }

  function Create(files: Files, q: Request, a: Answers): (Outcome, Files) {
    if IsRefused(files, q, a) then (Refused, files)
    else
      var prepared := Prepared(Cleared(files, q), q);
      if !q.lockfile && !q.hasSpecs then (Done, prepared)
      else if a.installFails then (Failed, prepared)
      else if q.dryRun then (Done, prepared)
      else if a.confirm then
        (if a.executeFails then Broken else Done,
         prepared + Chain(HistoryOf(q.target)) + InstalledAt(q.target, a.installed))
      else (Declined, if RemovesOnAbort(q) then Without(prepared, q.target) else prepared)
  }

  method Install(disk: Disk, q: Request, a: Answers, removePrefixOnFailure: bool) returns (r: Outcome)
    modifies disk
    ensures if a.installFails then r == Failed && disk.files == old(disk.files)
            else if q.dryRun then r == Done && disk.files == old(disk.files)
            else if a.confirm then
              && r == (if a.executeFails then Broken else Done)
              && disk.files == old(disk.files) + Chain(HistoryOf(q.target)) + InstalledAt(q.target, a.installed)
            else
              r == Declined
              && disk.files == if removePrefixOnFailure && q.target in old(disk.files)
                               then Without(old(disk.files), q.target) else old(disk.files)
  {
    if a.installFails {
      return Failed;
    }
    if q.dryRun || a.confirm {
      if !q.dryRun {
        disk.CreateWithDirectories(HistoryOf(q.target));
        disk.files := disk.files + InstalledAt(q.target, a.installed);
        if a.executeFails {
          return Broken;
        }
      }
      return Done;
    } else {
      if removePrefixOnFailure && q.target in disk.files {
        disk.RemoveAll(q.target);
      }
      return Declined;
    }
  }

  method StorePlatformConfig(disk: Disk, prefix: Path) returns (removePrefixOnFailure: bool)
    modifies disk
    ensures removePrefixOnFailure <==> prefix !in old(disk.files)
    ensures disk.files == old(disk.files) + if prefix in old(disk.files) then {PlatformFile(prefix)}
                                           else Chain(PlatformFile(prefix))
  {
    removePrefixOnFailure := false;
    if prefix !in disk.files {
      removePrefixOnFailure := true;
      disk.CreateWithDirectories(prefix);
      ChainStep(prefix, ".mambarc");
    }
    disk.files := disk.files + {PlatformFile(prefix)};
  }

  lemma ChainStep(p: Path, name: string)
    ensures Chain(p + [name]) == Chain(p) + {p + [name]}
  {
    forall q ensures q in Chain(p + [name]) <==> q in Chain(p) + {p + [name]} {
      if q in Chain(p + [name]) {
        var k: nat :| k <= |p| + 1 && q == (p + [name])[..k];
        if k <= |p| {
          assert q == p[..k];
        }
      }
      if q in Chain(p) {
        var k: nat :| k <= |p| && q == p[..k];
        assert q == (p + [name])[..k];
      }
      assert (p + [name])[..|p| + 1] == p + [name];
    }
  }

  lemma ChainIn(files: Files, p: Path)
    requires Closed(files) && p in files
    ensures Chain(p) <= files
  {}

  method CreateEnvironment(disk: Disk, q: Request, a: Answers) returns (r: Outcome)
    requires Closed(disk.files)
    modifies disk
    ensures (r, disk.files) == Create(old(disk.files), q, a)
  {
    var removePrefixOnFailure := false;
    if !q.dryRun {
      if q.target in disk.files {
        if q.target == q.root {
          return Refused;
        } else if Meta(q.target) in disk.files {
          if a.overwrite {
            disk.RemoveAll(q.target);
          } else {
            return Refused;
          }
        } else {
          return Refused;
        }
      }
      assert disk.files == Cleared(old(disk.files), q);
      ghost var cleared := disk.files;
      ClearedClosed(old(disk.files), q);
      if !q.hasSpecs {
        disk.CreateWithDirectories(HistoryOf(q.target));
        ChainClosed(cleared, HistoryOf(q.target));
        TargetInChain(q.target);
      }
      if q.storePlatform {
        if q.target in disk.files {
          ChainIn(disk.files, q.target);
          ChainStep(q.target, ".mambarc");
        }
        removePrefixOnFailure := StorePlatformConfig(disk, q.target);
        TargetInChain(q.target);
      }
      assert disk.files == Prepared(cleared, q);
    }
    if q.lockfile || q.hasSpecs {
      r := Install(disk, q, a, removePrefixOnFailure);
    } else {
      r := Done;
    }
  }

  lemma TargetInChain(target: Path)
    ensures target in Chain(HistoryOf(target)) && target in Chain(PlatformFile(target))
  {
    assert target == HistoryOf(target)[..|target|];
    assert target == PlatformFile(target)[..|target|];
  }

  lemma ClearedClosed(files: Files, q: Request)
    requires Closed(files)
    ensures Closed(Cleared(files, q)) && (!q.dryRun ==> q.target !in Cleared(files, q))
  {
    forall p, k: nat | p in Without(files, q.target) && k <= |p| ensures p[..k] in Without(files, q.target) {
      assert Under(p[..k], q.target) ==> Under(p, q.target);
    }
  }

  lemma ChainClosed(files: Files, p: Path)
    requires Closed(files)
    ensures Closed(files + Chain(p))
  {
    forall q, k: nat | q in files + Chain(p) && k <= |q| ensures q[..k] in files + Chain(p) {
      if q in Chain(p) {
        var n: nat :| n <= |p| && q == p[..n];
        assert q[..k] == p[..k];
      }
    }
  }

  // ---------- What the user may rely on ----------

  /**
   A declined transaction leaves no target prefix exactly when there were specs: with a lock file and no specs an
   empty environment was made before the question.
   */
  lemma DeclinedLeavesNothingIffSpecs(files: Files, q: Request, a: Answers)
    requires Closed(files) && Create(files, q, a).0 == Declined
    ensures q.target !in Create(files, q, a).1 <==> q.hasSpecs
  {
    ClearedClosed(files, q);
    TargetInChain(q.target);
  }

  /** An installation that fails before the question leaves the target behind exactly when something was stored in it. */
  lemma FailureLeavesTargetIff(files: Files, q: Request, a: Answers)
    requires Closed(files) && Create(files, q, a).0 == Failed && !q.dryRun
    ensures q.target in Create(files, q, a).1 <==> q.storePlatform || !q.hasSpecs
  {
    ClearedClosed(files, q);
    TargetInChain(q.target);
  }

  /** A transaction that fails after it was confirmed leaves the prefix it made, whatever else there was to undo. */
  lemma BrokenLeavesTarget(files: Files, q: Request, a: Answers)
    requires Create(files, q, a).0 == Broken
    ensures Chain(HistoryOf(q.target)) <= Create(files, q, a).1 && q.target in Create(files, q, a).1
  {
    TargetInChain(q.target);
  }

  /** Only the target goes, and only when it is a conda environment the user gives up. */
  lemma OnlyTargetIsRemoved(files: Files, q: Request, a: Answers, p: Path)
    requires Closed(files) && p in files && p !in Create(files, q, a).1
    ensures !q.dryRun && Under(p, q.target) && q.target != q.root && Meta(q.target) in files && a.overwrite
  {
    if p !in Cleared(files, q) {
      assert q.target in files;
    } else {
      assert Create(files, q, a).0 == Declined && Under(p, q.target);
      TargetAbove(files, q.target, p);
    }
  }

  lemma TargetAbove(files: Files, target: Path, p: Path)
    requires Closed(files) && p in files && Under(p, target)
    ensures target in files
  {
    assert p[..|target|] == target;
  }

  // ---------- The root prefix ----------

  /** The call makes the root prefix again: it is one of the paths of an empty environment. */
  predicate Remade(q: Request) {
    !q.hasSpecs && (q.root == Meta(q.target) || q.root == HistoryOf(q.target)
                    || (q.storePlatform && q.root == PlatformFile(q.target)))
  }

  /** The target is a conda environment above the root prefix. */
  predicate AboveRoot(files: Files, q: Request) {
    q.target != q.root && Under(q.root, q.target) && Meta(q.target) in files
  }

  /**
   Whatever the user answers and whatever fails, an existing root prefix survives the call: exactly when it is a dry
   run, or the target is no environment above the root prefix, or the call makes the root prefix again.
   */
  lemma RootSurvivesIff(files: Files, q: Request)
    requires Closed(files) && q.root in files
    ensures (forall a :: q.root in Create(files, q, a).1) <==> q.dryRun || !AboveRoot(files, q) || Remade(q)
  {
    if q.dryRun || !AboveRoot(files, q) || Remade(q) {
      forall a ensures q.root in Create(files, q, a).1 {
        RootIsKept(files, q, a);
      }
    } else {
      RootIsLost(files, q);
    }
  }

  lemma RootIsKept(files: Files, q: Request, a: Answers)
    requires Closed(files) && q.root in files && (q.dryRun || !AboveRoot(files, q) || Remade(q))
    ensures q.root in Create(files, q, a).1
  {
    if q.root !in Create(files, q, a).1 {
      OnlyTargetIsRemoved(files, q, a, q.root);
      ChainOfHistory(q.target);
      ChainStep(q.target, ".mambarc");
    }
  }

  lemma ChainOfHistory(target: Path)
    ensures Chain(HistoryOf(target)) == Chain(target) + {Meta(target), HistoryOf(target)}
  {
    ChainStep(target, "conda-meta");
    ChainStep(Meta(target), "history");
    assert HistoryOf(target) == Meta(target) + ["history"];
  }

  /** Overwriting, then declining. */
  lemma RootIsLost(files: Files, q: Request)
    requires Closed(files) && q.root in files && !q.dryRun && AboveRoot(files, q) && !Remade(q)
    ensures q.root !in Create(files, q, Answers(true, false, false, false, {})).1
  {
    var a := Answers(true, false, false, false, {});
    TargetAbove(files, q.target, q.root);
    ChainOfHistory(q.target);
    ChainStep(q.target, ".mambarc");
    var cleared := Cleared(files, q);
    assert q.root !in cleared && q.root !in Chain(q.target);
    hide Chain;
    if q.hasSpecs {
      assert q.root !in Create(files, q, a).1;
    }
  }

  // ---------- Every outcome ----------

  /** When a call ends how, by its arguments, the files and the answers. */
  lemma OutcomeIff(files: Files, q: Request, a: Answers)
    ensures var r := Create(files, q, a).0;
            var refused := !q.dryRun && q.target in files
                           && (q.target == q.root || q.target + ["conda-meta"] !in files || !a.overwrite);
            var installs := !refused && (q.lockfile || q.hasSpecs);
            && (r == Refused <==> refused)
            && (r == Failed <==> installs && a.installFails)
            && (r == Declined <==> installs && !a.installFails && !q.dryRun && !a.confirm)
            && (r == Broken <==> installs && !a.installFails && !q.dryRun && a.confirm && a.executeFails)
  {}

  /** A dry run, and a call that is refused, change nothing. */
  lemma NothingChanges(files: Files, q: Request, a: Answers)
    requires q.dryRun || Create(files, q, a).0 == Refused
    ensures Create(files, q, a).1 == files
  {}

  /** The directories a new path needs, and the path. */
  predicate OnTheWay(p: Path, target: Path) {
    p <= target
  }

  lemma ChainIs(target: Path, p: Path)
    ensures p in Chain(target) <==> OnTheWay(p, target)
  {
    assert p <= target ==> target[..|p|] == p;
  }

  /**
   What is there after a call that was not refused and is no dry run: the old files outside a target that was overwritten
   or given up; the history, if the environment was made empty or a transaction was confirmed; the platform file, if one
   is stored; and what a transaction brought. Declining with specs takes the platform file away with the target.
   */
  lemma FilesAre(files: Files, q: Request, a: Answers, p: Path)
    requires Closed(files) && !q.dryRun && Create(files, q, a).0 != Refused
    ensures var (r, after) := Create(files, q, a);
            var confirmed := r == Broken || (r == Done && (q.lockfile || q.hasSpecs));
            var abandoned := r == Declined && q.hasSpecs && q.storePlatform;
            p in after <==>
              || (p in files && !(q.target in files && q.target <= p))
              || ((!q.hasSpecs || confirmed) && p <= q.target + ["conda-meta", "history"])
              || (q.storePlatform && !abandoned && p <= q.target + [".mambarc"])
              || (q.storePlatform && abandoned && p <= q.target && p != q.target)
              || (confirmed && exists x :: x in a.installed && p == q.target + x)
  {
    ClearedClosed(files, q);
    ChainIs(q.target + ["conda-meta", "history"], p);
    ChainIs(q.target + [".mambarc"], p);
    AboveOrIn(q.target, p);
    if p in files && q.target <= p {
      assert p[..|q.target|] == q.target;
    }
    hide Closed, Chain;
  }

  lemma AboveOrIn(target: Path, p: Path)
    ensures p <= target + [".mambarc"] <==> p <= target || p == target + [".mambarc"]
    ensures target <= target + [".mambarc"]
    ensures p <= target && target <= p ==> p == target
  {}
}
