/** Cleaning the package caches (libmamba/src/api/clean.cpp) on a model of the file system. */
module CacheClean {
  import opened Strings
  import opened Paths

  /** What exists; true stands for a directory. */
  type Tree = map<Path, bool>

  /**
   The flags, the writable package caches, the answers to the two questions, and `lockTest`, the test on
   file names that decides whether a `.lock` entry of a cache is a lock.
   */
  datatype Options = Options(
    all: bool, index: bool, pkgs: bool, tarballs: bool, locks: bool, trash: bool, force: bool,
    dryRun: bool, root: Path, caches: seq<Path>, removeTarballs: bool, removePackages: bool, lockTest: Path -> bool)

  function Drop(t: Tree, gone: set<Path>): Tree {
    map p | p in t && p !in gone :: t[p]
  }

  function Below(t: Tree, dir: Path): set<Path> {
    set p | p in t && Under(p, dir)
  }

  /** What a plain remove can take away: no directory that still has something in it. */
  predicate Removable(t: Tree, p: Path) {
    !exists q :: q in t && Under(q, p) && q != p
  }

  // ---------- What each option takes away ----------

  function IndexCache(cache: Path): Path {
    cache + ["cache"]
  }

  /** Lock files directly in a cache, and everywhere in its index cache. */
  function Locks(t: Tree, cache: Path, lockTest: Path -> bool): set<Path> {
    set p | p in t && EndsWith(Name(p), ".lock") && Removable(t, p)
            && ((ChildOf(p, cache) && lockTest(p)) || (Under(p, IndexCache(cache)) && p != IndexCache(cache)))
  }

  predicate IsTrash(p: Path, root: Path) {
    Under(p, root) && p != root && EndsWith(Name(p), ".mamba_trash") && Name(p) != ".mamba_trash"
  }

  function TrashList(root: Path): Path {
    root + ["conda-meta", "mamba_trash.txt"]
  }

  /**
   Trash that can be removed goes. When none stays the list of it goes too, if it can; when some stays the list is
   written, unless its place is taken or there is no directory for it.
   */
  function WithoutTrash(t: Tree, root: Path): Tree {
    var stays := set p | p in t && IsTrash(p, root) && !Removable(t, p);
    var cleaned := Drop(t, set p | p in t && IsTrash(p, root) && Removable(t, p));
    var list, meta := TrashList(root), root + ["conda-meta"];
    if stays == {} then if Removable(cleaned, list) then Drop(cleaned, {list}) else cleaned
    else if list !in t && meta in t && t[meta] then cleaned[list := false]
    else cleaned
  }

  function Tarballs(t: Tree, cache: Path): set<Path> {
    set p | p in t && ChildOf(p, cache) && !t[p] && IsTarball(p)
  }

  predicate IsTarball(p: Path) {
    EndsWith(Name(p), ".tar.bz2") || EndsWith(Name(p), ".conda")
  }

  predicate IsPackage(t: Tree, p: Path) {
    p in t && t[p] && p + ["info", "index.json"] in t
  }

  function Unused(t: Tree, cache: Path, installed: set<string>): set<Path> {
    set p | p in t && ChildOf(p, cache) && IsPackage(t, p) && Name(p) !in installed
  }

  /** The root prefix and the directories of `envs`, where they have a conda-meta. */
  predicate IsEnvironment(t: Tree, root: Path, env: Path) {
    && env + ["conda-meta"] in t
    && (env == root || (ChildOf(env, root + ["envs"]) && env in t && t[env] && root + ["envs"] in t))
  }

  function Environments(t: Tree, root: Path): set<Path> {
    set p | p in t && p != [] && Name(p) == "conda-meta" && IsEnvironment(t, root, p[..|p| - 1]) :: p[..|p| - 1]
  }

  /** The names of the packages recorded in the environments. */
  function Recorded(t: Tree, envs: set<Path>): set<string> {
    set p | p in t && |p| >= 2 && p[..|p| - 2] in envs && p[|p| - 2] == "conda-meta" && EndsWith(Name(p), ".json")
      :: Name(p)[..|Name(p)| - 5]
  }

  // ---------- The whole run ----------

  function WithoutIndex(t: Tree, caches: seq<Path>): Tree {
    if caches == [] then t
    else
      var before := WithoutIndex(t, caches[..|caches| - 1]);
      Drop(before, Below(before, IndexCache(caches[|caches| - 1])))
  }

  function WithoutLocks(t: Tree, caches: seq<Path>, lockTest: Path -> bool): Tree {
    if caches == [] then t
    else
      var before := WithoutLocks(t, caches[..|caches| - 1], lockTest);
      Drop(before, Locks(before, caches[|caches| - 1], lockTest))
  }

  function AllTarballs(t: Tree, caches: seq<Path>): set<Path> {
    if caches == [] then {} else AllTarballs(t, caches[..|caches| - 1]) + Tarballs(t, caches[|caches| - 1])
  }

  function AllUnused(t: Tree, caches: seq<Path>, installed: set<string>): set<Path> {
    if caches == [] then {}
    else AllUnused(t, caches[..|caches| - 1], installed) + Unused(t, caches[|caches| - 1], installed)
  }

  function BelowAny(t: Tree, dirs: set<Path>): set<Path> {
    set p | p in t && exists k: nat :: k <= |p| && p[..k] in dirs
  }

  function WithoutCaches(t: Tree, caches: seq<Path>): Tree {
    if caches == [] then t
    else
      var before := WithoutCaches(t, caches[..|caches| - 1]);
      Drop(before, Below(before, caches[|caches| - 1]))
  }

  function AfterIndex(t: Tree, o: Options): Tree {
    if !o.dryRun && (o.index || o.all) then WithoutIndex(t, o.caches) else t
  }

  function AfterLocks(t: Tree, o: Options): Tree {
    if !o.dryRun && (o.locks || o.all) then WithoutLocks(t, o.caches, o.lockTest) else t
  }

  /** Trash goes even in a dry run. */
  function AfterTrash(t: Tree, o: Options): Tree {
    if o.trash then WithoutTrash(t, o.root) else t
  }

  function AfterTarballs(t: Tree, o: Options): Tree {
    if (o.all || o.tarballs) && !o.dryRun && o.removeTarballs then Drop(t, AllTarballs(t, o.caches)) else t
  }

  function AfterPackages(t: Tree, o: Options, installed: set<string>): Tree {
    if (o.all || o.pkgs) && !o.dryRun && o.removePackages then
      Drop(t, BelowAny(t, AllUnused(t, o.caches, installed)))
    else t
  }

  /** So do, with the force option, the caches. */
  function AfterForce(t: Tree, o: Options): Tree {
    if o.force then WithoutCaches(t, o.caches) else t
  }

  /** The environments are listed before the trash goes, the packages recorded in them after. */
  function Installed(t: Tree, o: Options): set<string> {
    var locked := AfterLocks(AfterIndex(t, o), o);
    Recorded(AfterTrash(locked, o), Environments(locked, o.root))
  }

  function Clean(t: Tree, o: Options): Tree {
    var kept := AfterTrash(AfterLocks(AfterIndex(t, o), o), o);
    AfterForce(AfterPackages(AfterTarballs(kept, o), o, Installed(t, o)), o)
  }

  // ---------- The run, step by step ----------

  class Disk {
    var tree: Tree

    constructor (tree: Tree)
      ensures this.tree == tree
    {
      this.tree := tree;
    }

    method RemoveAll(dir: Path)
      modifies this
      ensures tree == Drop(old(tree), Below(old(tree), dir))
    {
      tree := map p | p in tree && !Under(p, dir) :: tree[p];
    }

    method CleanIndex(caches: seq<Path>)
      modifies this
      ensures tree == WithoutIndex(old(tree), caches)
    {
      for n := 0 to |caches|
        invariant tree == WithoutIndex(old(tree), caches[..n])
      {
        assert caches[..n + 1][..n] == caches[..n];
        RemoveAll(IndexCache(caches[n]));
      }
      assert caches[..|caches|] == caches;
    }

    method CleanLocks(caches: seq<Path>, lockTest: Path -> bool)
      modifies this
      ensures tree == WithoutLocks(old(tree), caches, lockTest)
    {
      for n := 0 to |caches|
        invariant tree == WithoutLocks(old(tree), caches[..n], lockTest)
      {
        assert caches[..n + 1][..n] == caches[..n];
        var locks := Locks(tree, caches[n], lockTest);
        tree := map p | p in tree && p !in locks :: tree[p];
      }
      assert caches[..|caches|] == caches;
    }

    /** The packages recorded in the environments that were found. */
    method CollectInstalled(envs: set<Path>) returns (installed: set<string>)
      ensures installed == Recorded(tree, envs)
    {
      installed := {};
      var todo := tree.Keys;
      while todo != {}
        invariant todo <= tree.Keys
        invariant installed == Recorded(map p | p in tree && p !in todo :: tree[p], envs)
        decreases todo
      {
        var p :| p in todo;
        ghost var seen := map q | q in tree && q !in todo :: tree[q];
        todo := todo - {p};
        ghost var more := map q | q in tree && q !in todo :: tree[q];
        assert more.Keys == seen.Keys + {p};
        RecordedStep(seen, more, p, envs);
        if |p| >= 2 && p[..|p| - 2] in envs && p[|p| - 2] == "conda-meta" && EndsWith(Name(p), ".json") {
          installed := installed + {Name(p)[..|Name(p)| - 5]};
        }
      }
      assert tree == map p | p in tree && p !in todo :: tree[p];
    }

    method CollectTarballs(caches: seq<Path>) returns (found: set<Path>)
      ensures found == AllTarballs(tree, caches)
    {
      found := {};
      for n := 0 to |caches|
        invariant found == AllTarballs(tree, caches[..n])
      {
        assert caches[..n + 1][..n] == caches[..n];
        found := found + Tarballs(tree, caches[n]);
      }
      assert caches[..|caches|] == caches;
    }

    method CollectPackageFolders(caches: seq<Path>, installed: set<string>) returns (found: set<Path>)
      ensures found == AllUnused(tree, caches, installed)
    {
      found := {};
      for n := 0 to |caches|
        invariant found == AllUnused(tree, caches[..n], installed)
      {
        assert caches[..n + 1][..n] == caches[..n];
        found := found + Unused(tree, caches[n], installed);
      }
      assert caches[..|caches|] == caches;
    }

    method RemoveCaches(caches: seq<Path>)
      modifies this
      ensures tree == WithoutCaches(old(tree), caches)
    {
      for n := 0 to |caches|
        invariant tree == WithoutCaches(old(tree), caches[..n])
      {
        assert caches[..n + 1][..n] == caches[..n];
        RemoveAll(caches[n]);
      }
      assert caches[..|caches|] == caches;
    }

    method RemoveTarballs(o: Options)
      modifies this
      ensures tree == AfterTarballs(old(tree), o)
    {
      if o.all || o.tarballs {
        var tarballs := CollectTarballs(o.caches);
        if !o.dryRun && o.removeTarballs {
          tree := map p | p in tree && p !in tarballs :: tree[p];
        }
      }
    }

    method RemovePackages(o: Options, installed: set<string>)
      modifies this
      ensures tree == AfterPackages(old(tree), o, installed)
    {
      if o.all || o.pkgs {
        var folders := CollectPackageFolders(o.caches, installed);
        if !o.dryRun && o.removePackages {
          var gone := BelowAny(tree, folders);
          tree := map p | p in tree && p !in gone :: tree[p];
        }
      }
    }

    method RunClean(o: Options)
      modifies this
      ensures tree == Clean(old(tree), o)
    {
      if !(o.all || o.index || o.pkgs || o.tarballs || o.locks || o.trash || o.force) {
        NothingToDo(tree, o);
        return;
      }
      if !o.dryRun && (o.index || o.all) {
        CleanIndex(o.caches);
      }
      assert tree == AfterIndex(old(tree), o);
      if !o.dryRun && (o.locks || o.all) {
        CleanLocks(o.caches, o.lockTest);
      }
      assert tree == AfterLocks(AfterIndex(old(tree), o), o);
      hide AfterIndex, AfterLocks, WithoutTrash, WithoutCaches, AfterTarballs, AfterPackages, Recorded, Environments;
      var envs := Environments(tree, o.root);
      if o.trash {
        tree := WithoutTrash(tree, o.root);
      }
      var installed := CollectInstalled(envs);
      RemoveTarballs(o);
      RemovePackages(o, installed);
      if o.force {
        RemoveCaches(o.caches);
      }
    }
  }

  lemma NothingToDo(t: Tree, o: Options)
    requires !(o.all || o.index || o.pkgs || o.tarballs || o.locks || o.trash || o.force)
    ensures Clean(t, o) == t
  {}

  lemma RecordedStep(seen: Tree, more: Tree, p: Path, envs: set<Path>)
    requires more.Keys == seen.Keys + {p}
    ensures Recorded(more, envs)
         == Recorded(seen, envs)
            + if |p| >= 2 && p[..|p| - 2] in envs && p[|p| - 2] == "conda-meta" && EndsWith(Name(p), ".json")
              then {Name(p)[..|Name(p)| - 5]} else {}
  {
    hide EndsWith, Name;
  }

  // ---------- What never goes ----------

  predicate InCache(caches: seq<Path>, p: Path) {
    exists i :: 0 <= i < |caches| && ChildOf(p, caches[i])
  }

  predicate OutsideIndex(caches: seq<Path>, p: Path) {
    forall i | 0 <= i < |caches| :: !Under(p, IndexCache(caches[i]))
  }

  lemma {:induction false} IndexKeeps(t: Tree, caches: seq<Path>, p: Path)
    ensures p in WithoutIndex(t, caches) <==> p in t && OutsideIndex(caches, p)
    ensures p in WithoutIndex(t, caches) ==> WithoutIndex(t, caches)[p] == t[p]
  {
    if caches == [] {
    } else {
      var n := |caches| - 1;
      IndexKeeps(t, caches[..n], p);
      hide IndexCache;
      assert OutsideIndex(caches, p) <==> OutsideIndex(caches[..n], p) && !Under(p, IndexCache(caches[n]));
    }
  }

  lemma {:induction false} LocksOnly(t: Tree, caches: seq<Path>, lockTest: Path -> bool, p: Path)
    ensures var after := WithoutLocks(t, caches, lockTest);
            && (p in after ==> p in t && after[p] == t[p])
            && (p in t && !EndsWith(Name(p), ".lock") ==> p in after)
  {
    if caches == [] {
    } else {
      LocksOnly(t, caches[..|caches| - 1], lockTest, p);
    }
  }

  /** A directory with something in it, that is no lock, outlasts the removal of locks. */
  lemma {:induction false} LocksKeepFolders(t: Tree, caches: seq<Path>, lockTest: Path -> bool, p: Path, q: Path)
    requires p in t && q in t && Under(q, p) && q != p && !EndsWith(Name(q), ".lock")
    ensures p in WithoutLocks(t, caches, lockTest)
    decreases |caches|
  {
    if caches == [] {
    } else {
      var before := WithoutLocks(t, caches[..|caches| - 1], lockTest);
      LocksKeepFolders(t, caches[..|caches| - 1], lockTest, p, q);
      LocksOnly(t, caches[..|caches| - 1], lockTest, q);
      assert !Removable(before, p);
    }
  }

  lemma TrashOnly(t: Tree, root: Path, p: Path)
    ensures p in t && !IsTrash(p, root) && p != TrashList(root) ==>
            p in WithoutTrash(t, root) && WithoutTrash(t, root)[p] == t[p]
    ensures p in WithoutTrash(t, root) ==> p in t || p == TrashList(root)
    ensures p in WithoutTrash(t, root) ==> WithoutTrash(t, root)[p] == if p in t then t[p] else false
  {
    hide IsTrash, Removable, TrashList;
  }

  /** A directory with something in it that is no trash outlasts the cleaning of trash. */
  lemma TrashKeepsFolders(t: Tree, root: Path, p: Path, q: Path)
    requires p in t && q in t && Under(q, p) && q != p && !IsTrash(q, root)
    ensures p in WithoutTrash(t, root) && WithoutTrash(t, root)[p] == t[p]
  {
    hide IsTrash, TrashList;
    assert !Removable(t, p);
    var cleaned := Drop(t, set x | x in t && IsTrash(x, root) && Removable(t, x));
    assert q in cleaned && !Removable(cleaned, p);
  }

  lemma {:induction false} TarballsAre(t: Tree, caches: seq<Path>, p: Path)
    ensures p in AllTarballs(t, caches) ==> p in t && !t[p] && IsTarball(p) && InCache(caches, p)
  {
    if caches == [] {
    } else {
      TarballsAre(t, caches[..|caches| - 1], p);
      if InCache(caches[..|caches| - 1], p) {
        var i :| 0 <= i < |caches| - 1 && ChildOf(p, caches[..|caches| - 1][i]);
        assert ChildOf(p, caches[i]);
      }
    }
  }

  lemma {:induction false} UnusedAre(t: Tree, caches: seq<Path>, installed: set<string>, p: Path)
    ensures p in AllUnused(t, caches, installed) ==> IsPackage(t, p) && Name(p) !in installed && InCache(caches, p)
  {
    hide IsPackage;
    if caches == [] {
    } else {
      UnusedAre(t, caches[..|caches| - 1], installed, p);
      if InCache(caches[..|caches| - 1], p) {
        var i :| 0 <= i < |caches| - 1 && ChildOf(p, caches[..|caches| - 1][i]);
        assert ChildOf(p, caches[i]);
      }
    }
  }

  lemma FewerCaches(caches: seq<Path>, n: nat, p: Path)
    requires n <= |caches|
    ensures InCache(caches[..n], p) ==> InCache(caches, p)
  {
    assert forall i | 0 <= i < n :: caches[..n][i] == caches[i];
  }

  lemma {:induction false} LocksSpare(t: Tree, caches: seq<Path>, lockTest: Path -> bool, p: Path)
    requires p in t && OutsideIndex(caches, p) && !InCache(caches, p)
    ensures p in WithoutLocks(t, caches, lockTest)
    decreases |caches|
  {
    if caches == [] {
    } else {
      var n := |caches| - 1;
      assert OutsideIndex(caches[..n], p);
      FewerCaches(caches, n, p);
      LocksSpare(t, caches[..n], lockTest, p);
      assert !ChildOf(p, caches[n]) && !Under(p, IndexCache(caches[n]));
      hide IndexCache, ChildOf, Under, Removable, EndsWith, Name;
    }
  }

  // ---------- Recorded packages ----------

  function Record(env: Path, name: string): Path {
    env + ["conda-meta", name + ".json"]
  }

  lemma SuffixIs(name: string, suffix: string)
    ensures EndsWith(name + suffix, suffix) && (name + suffix)[..|name|] == name
  {}

  lemma SuffixDiffers(s: string, a: string, b: string)
    requires EndsWith(s, a) && a != "" && b != "" && a[|a| - 1] != b[|b| - 1]
    ensures !EndsWith(s, b)
  {
    assert s[|s| - 1] == s[|s| - |a|..][|a| - 1];
    if |b| <= |s| {
      assert s[|s| - 1] == s[|s| - |b|..][|b| - 1];
    }
  }

  lemma RecordName(env: Path, name: string)
    ensures var r := Record(env, name);
            && Name(r) == name + ".json" && EndsWith(Name(r), ".json") && Name(r)[..|Name(r)| - 5] == name
            && !EndsWith(Name(r), ".lock") && !EndsWith(Name(r), ".mamba_trash") && Name(r) != "mamba_trash.txt"
            && r[..|r| - 2] == env && r[|r| - 2] == "conda-meta"
  {
    var r := Record(env, name);
    SuffixIs(name, ".json");
    assert r[..|env|] == env;
    SuffixDiffers(Name(r), ".json", ".lock");
    SuffixDiffers(Name(r), ".json", ".mamba_trash");
    if Name(r) == "mamba_trash.txt" {
      SuffixIs("mamba_trash", ".txt");
      SuffixDiffers(Name(r), ".json", ".txt");
    }
  }

  /** An environment with a record outlasts the cleaning of index and locks. */
  lemma EnvironmentStays(t: Tree, o: Options, env: Path, name: string)
    requires IsEnvironment(t, o.root, env) && Record(env, name) in t && OutsideIndex(o.caches, Record(env, name))
    ensures var locked := AfterLocks(AfterIndex(t, o), o);
            IsEnvironment(locked, o.root, env) && Record(env, name) in locked
  {
    var r := Record(env, name);
    RecordName(env, name);
    var indexed := AfterIndex(t, o);
    var locked := AfterLocks(indexed, o);
    hide EndsWith, Name;
    forall p | p in t && Under(r, p) ensures p in locked && locked[p] == t[p] {
      forall i | 0 <= i < |o.caches| ensures !Under(p, IndexCache(o.caches[i])) {
        assert Under(p, IndexCache(o.caches[i])) ==> Under(r, IndexCache(o.caches[i]));
      }
      IndexKeeps(t, o.caches, p);
      IndexKeeps(t, o.caches, r);
      LocksOnly(indexed, o.caches, o.lockTest, p);
      LocksOnly(indexed, o.caches, o.lockTest, r);
      if p != r {
        LocksKeepFolders(indexed, o.caches, o.lockTest, p, r);
      }
    }
    assert Under(r, env + ["conda-meta"]) && Under(r, env) && (env != o.root ==> Under(r, o.root + ["envs"]));
  }

  lemma RecordedIsInstalled(t: Tree, o: Options, env: Path, name: string)
    requires IsEnvironment(t, o.root, env) && Record(env, name) in t && OutsideIndex(o.caches, Record(env, name))
    ensures name in Installed(t, o)
  {
    EnvironmentStays(t, o, env, name);
    RecordName(env, name);
    var locked := AfterLocks(AfterIndex(t, o), o);
    var kept := AfterTrash(locked, o);
    var r, meta := Record(env, name), env + ["conda-meta"];
    TrashOnly(locked, o.root, r);
    assert r in kept by {
      assert Name(TrashList(o.root)) == "mamba_trash.txt";
    }
    assert env in Environments(locked, o.root) by {
      assert meta[..|meta| - 1] == env && Name(meta) == "conda-meta";
    }
    hide AfterLocks, AfterIndex, AfterTrash, Environments, Record, Name, EndsWith;
    assert r in kept && |r| >= 2;
  }

  lemma MarkName(p: Path)
    ensures Name(p + ["info", "index.json"]) == "index.json" && !EndsWith("index.json", ".lock")
    ensures !EndsWith("index.json", ".mamba_trash")
  {
    SuffixIs("index", ".json");
    SuffixDiffers("index.json", ".json", ".lock");
    SuffixDiffers("index.json", ".json", ".mamba_trash");
  }

  // ---------- Exactly what stays ----------

  /** A record of the package that no cleaning of index caches takes away. */
  predicate HasRecord(t: Tree, root: Path, caches: seq<Path>, name: string) {
    exists p | p in t :: RecordAt(t, root, caches, name, p)
  }

  predicate RecordAt(t: Tree, root: Path, caches: seq<Path>, name: string, p: Path) {
    && |p| >= 2 && p == Record(p[..|p| - 2], name)
    && IsEnvironment(t, root, p[..|p| - 2]) && OutsideIndex(caches, p)
  }

  /**
   Everything but directories named like locks or trash, which go when they happen to be empty, and the list of trash,
   which goes when no trash is left.
   */
  predicate Ordinary(t: Tree, root: Path, q: Path) {
    && q in t
    && (IsPackage(t, q)
        || (q != TrashList(root)
            && if t[q] then !EndsWith(Name(q), ".lock") && !IsTrash(q, root) else Removable(t, q)))
  }

  /** A file that an option takes by its name: trash, and tarballs and locks that stand directly in a cache. */
  predicate TakenByName(t: Tree, root: Path, caches: seq<Path>, q: Path)
    requires q in t
  {
    !t[q] && (IsTrash(q, root) || (InCache(caches, q) && (IsTarball(q) || EndsWith(Name(q), ".lock"))))
  }

  /** Every package folder of a cache that `q` is, or lies in, has its record. */
  predicate AllAboveRecorded(t: Tree, root: Path, caches: seq<Path>, q: Path) {
    forall k | 0 <= k <= |q| && InCache(caches, q[..k]) && IsPackage(t, q[..k]) ::
      HasRecord(t, root, caches, Name(q[..k]))
  }

  /** No run without force takes `q` away, whatever its other options, answers and locks. */
  ghost predicate NeverGoes(t: Tree, root: Path, caches: seq<Path>, q: Path) {
    forall o: Options | o.root == root && o.caches == caches && !o.force :: q in Clean(t, o)
  }

  /**
   A path outlasts every run without force exactly when it lies in no index cache, every package folder of a cache at or
   above it has a record that lies in no index cache, and it is no file that an option takes by its name.
   */
  lemma NeverGoesIff(t: Tree, root: Path, caches: seq<Path>, q: Path)
    requires Ordinary(t, root, q)
    ensures NeverGoes(t, root, caches, q)
       <==> OutsideIndex(caches, q) && AllAboveRecorded(t, root, caches, q) && !TakenByName(t, root, caches, q)
  {
    assert q in t;
    hide Clean, Ordinary, IsPackage, HasRecord, InCache, OutsideIndex, TakenByName;
    if OutsideIndex(caches, q) && AllAboveRecorded(t, root, caches, q) && !TakenByName(t, root, caches, q) {
      forall o: Options | o.root == root && o.caches == caches && !o.force ensures q in Clean(t, o) {
        RecordedAboveStays(t, o, q);
      }
    }
    if !OutsideIndex(caches, q) {
      IndexRunTakes(t, root, caches, q);
    } else if !AllAboveRecorded(t, root, caches, q) {
      var k :| 0 <= k <= |q| && InCache(caches, q[..k]) && IsPackage(t, q[..k])
               && !HasRecord(t, root, caches, Name(q[..k]));
      UnrecordedRunTakes(t, root, caches, q, k);
    } else if TakenByName(t, root, caches, q) {
      NameRunTakes(t, root, caches, q);
    }
  }

  /** A run with one of the options that go by names. */
  function NameRun(root: Path, caches: seq<Path>, tarballs: bool, locks: bool, trash: bool): Options {
    Options(false, false, false, tarballs, locks, trash, false, false, root, caches, true, true, _ => true)
  }

  lemma NameRunTakes(t: Tree, root: Path, caches: seq<Path>, q: Path)
    requires Ordinary(t, root, q) && TakenByName(t, root, caches, q)
    ensures !NeverGoes(t, root, caches, q)
  {
    hide WithoutTrash, WithoutLocks, AllTarballs, IsTrash, TrashList, Removable, IsTarball, EndsWith, InCache;
    if IsTrash(q, root) {
      TrashGoes(t, root, q);
      assert q !in Clean(t, NameRun(root, caches, false, false, true));
    } else if IsTarball(q) {
      TarballGoes(t, caches, q);
      assert q !in Clean(t, NameRun(root, caches, true, false, false));
    } else {
      LockGoes(t, caches, q);
      assert q !in Clean(t, NameRun(root, caches, false, true, false));
    }
  }

  lemma {:induction false} TarballGoes(t: Tree, caches: seq<Path>, q: Path)
    requires q in t && !t[q] && IsTarball(q) && InCache(caches, q)
    ensures q in AllTarballs(t, caches)
    decreases |caches|
  {
    hide IsTarball, ChildOf;
    if caches == [] {
    } else if InCache(caches[..|caches| - 1], q) {
      TarballGoes(t, caches[..|caches| - 1], q);
    }
  }

  lemma {:induction false} LockGoes(t: Tree, caches: seq<Path>, q: Path)
    requires q in t && EndsWith(Name(q), ".lock") && Removable(t, q) && InCache(caches, q)
    ensures q !in WithoutLocks(t, caches, _ => true)
    decreases |caches|
  {
    hide EndsWith, ChildOf, Name;
    var all: Path -> bool := _ => true;
    if caches == [] {
    } else {
      var front := caches[..|caches| - 1];
      var before := WithoutLocks(t, front, _ => true);
      forall p ensures p in before ==> p in t {
        LocksOnly(t, front, _ => true, p);
      }
      if InCache(front, q) {
        LockGoes(t, front, q);
      }
    }
  }

  /** `clean --index-cache --packages`, both questions answered with yes. */
  function PackageRun(root: Path, caches: seq<Path>): Options {
    Options(false, true, true, false, false, false, false, false, root, caches, true, true, _ => true)
  }

  lemma IndexRunTakes(t: Tree, root: Path, caches: seq<Path>, q: Path)
    requires !OutsideIndex(caches, q)
    ensures q !in Clean(t, PackageRun(root, caches))
  {
    hide OutsideIndex, WithoutIndex;
    IndexKeeps(t, caches, q);
  }

  lemma UnrecordedRunTakes(t: Tree, root: Path, caches: seq<Path>, q: Path, k: nat)
    requires k <= |q| && OutsideIndex(caches, q) && InCache(caches, q[..k]) && IsPackage(t, q[..k])
    requires !HasRecord(t, root, caches, Name(q[..k]))
    ensures q !in Clean(t, PackageRun(root, caches))
  {
    hide WithoutIndex, HasRecord, OutsideIndex, IsPackage, AllUnused, Recorded, Environments;
    var o, d := PackageRun(root, caches), q[..k];
    var indexed := WithoutIndex(t, caches);
    var i :| 0 <= i < |caches| && ChildOf(d, caches[i]);
    PackageOutsideIndex(t, caches, q, k);
    InstalledHasRecord(t, root, caches, Name(d));
    UnusedHas(indexed, caches, Installed(t, o), i, d);
  }

  lemma MarkOutsideIndex(caches: seq<Path>, p: Path)
    requires OutsideIndex(caches, p)
    ensures OutsideIndex(caches, p + ["info", "index.json"])
  {
    var mark := p + ["info", "index.json"];
    assert mark[|p|] == "info" && mark[|p| + 1] == "index.json";
    forall i | 0 <= i < |caches| ensures !Under(mark, IndexCache(caches[i])) {
      var c, index := caches[i], IndexCache(caches[i]);
      assert index[|c|] == "cache";
      assert |c| < |p| ==> (Under(mark, index) <==> Under(p, index));
    }
  }

  lemma PackageOutsideIndex(t: Tree, caches: seq<Path>, q: Path, k: nat)
    requires k <= |q| && OutsideIndex(caches, q) && IsPackage(t, q[..k])
    ensures OutsideIndex(caches, q[..k]) && IsPackage(WithoutIndex(t, caches), q[..k])
  {
    var d := q[..k];
    assert OutsideIndex(caches, d) by {
      assert forall i | 0 <= i < |caches| && Under(d, IndexCache(caches[i])) :: Under(q, IndexCache(caches[i]));
    }
    MarkOutsideIndex(caches, d);
    IndexKeeps(t, caches, d);
    IndexKeeps(t, caches, d + ["info", "index.json"]);
  }

  /** What that run finds installed has a record outside the index caches. */
  lemma InstalledHasRecord(t: Tree, root: Path, caches: seq<Path>, name: string)
    ensures name in Installed(t, PackageRun(root, caches)) ==> HasRecord(t, root, caches, name)
  {
    hide WithoutIndex, OutsideIndex;
    var indexed := WithoutIndex(t, caches);
    var envs := Environments(indexed, root);
    if name in Recorded(indexed, envs) {
      var p :| p in indexed && |p| >= 2 && p[..|p| - 2] in envs && p[|p| - 2] == "conda-meta"
               && EndsWith(Name(p), ".json") && Name(p)[..|Name(p)| - 5] == name;
      var env := p[..|p| - 2];
      RecordParts(p, name);
      IndexKeeps(t, caches, p);
      EnvironmentFound(t, root, caches, env);
      assert RecordAt(t, root, caches, name, p);
    }
  }

  lemma RecordParts(p: Path, name: string)
    requires |p| >= 2 && p[|p| - 2] == "conda-meta" && EndsWith(Name(p), ".json") && Name(p)[..|Name(p)| - 5] == name
    ensures p == Record(p[..|p| - 2], name)
  {
    assert p == p[..|p| - 2] + [p[|p| - 2], p[|p| - 1]];
    assert p[|p| - 1] == name + ".json";
  }

  lemma EnvironmentFound(t: Tree, root: Path, caches: seq<Path>, env: Path)
    requires env in Environments(WithoutIndex(t, caches), root)
    ensures IsEnvironment(t, root, env)
  {
    hide WithoutIndex, OutsideIndex;
    forall p ensures p in WithoutIndex(t, caches) ==> p in t && t[p] == WithoutIndex(t, caches)[p] {
      IndexKeeps(t, caches, p);
    }
  }

  lemma RecordedAboveStays(t: Tree, o: Options, q: Path)
    requires Ordinary(t, o.root, q) && !TakenByName(t, o.root, o.caches, q) && !o.force
    requires OutsideIndex(o.caches, q) && AllAboveRecorded(t, o.root, o.caches, q)
    ensures q in Clean(t, o)
  {
    hide AfterIndex, AfterLocks, AfterTrash, AllTarballs, AllUnused, Installed, Ordinary, AllAboveRecorded;
    hide HasRecord, OutsideIndex, IsPackage, InCache;
    var kept := AfterTrash(AfterLocks(AfterIndex(t, o), o), o);
    var packed := AfterTarballs(kept, o);
    OrdinaryReachesTarballs(t, o, q);
    TarballsAre(kept, o.caches, q);
    forall k: nat | k <= |q| ensures q[..k] !in AllUnused(packed, o.caches, Installed(t, o)) {
      RecordedAboveUsed(t, o, q, k);
    }
  }

  lemma RecordedAboveUsed(t: Tree, o: Options, q: Path, k: nat)
    requires k <= |q| && AllAboveRecorded(t, o.root, o.caches, q)
    ensures var packed := AfterTarballs(AfterTrash(AfterLocks(AfterIndex(t, o), o), o), o);
            q[..k] !in AllUnused(packed, o.caches, Installed(t, o))
  {
    hide AfterIndex, AfterLocks, AfterTrash, AfterTarballs, AllUnused, Installed, HasRecord, IsPackage, InCache, Name;
    var d := q[..k];
    var packed := AfterTarballs(AfterTrash(AfterLocks(AfterIndex(t, o), o), o), o);
    UnusedAre(packed, o.caches, Installed(t, o), d);
    PackedIsOld(t, o, d);
    if HasRecord(t, o.root, o.caches, Name(d)) {
      RecordIsInstalled(t, o, Name(d));
    }
  }

  lemma RecordIsInstalled(t: Tree, o: Options, name: string)
    requires HasRecord(t, o.root, o.caches, name)
    ensures name in Installed(t, o)
  {
    hide IsEnvironment, OutsideIndex, Installed;
    var p :| p in t && RecordAt(t, o.root, o.caches, name, p);
    RecordedIsInstalled(t, o, p[..|p| - 2], name);
  }

  /** No phase makes a package folder. */
  lemma PackedIsOld(t: Tree, o: Options, d: Path)
    ensures var packed := AfterTarballs(AfterTrash(AfterLocks(AfterIndex(t, o), o), o), o);
            IsPackage(packed, d) ==> IsPackage(t, d)
  {
    var indexed := AfterIndex(t, o);
    var locked := AfterLocks(indexed, o);
    var mark := d + ["info", "index.json"];
    hide WithoutIndex, WithoutLocks, WithoutTrash, AllTarballs, EndsWith, OutsideIndex;
    forall x | x in [d, mark] ensures x in locked ==> x in t && t[x] == locked[x] {
      IndexKeeps(t, o.caches, x);
      LocksOnly(indexed, o.caches, o.lockTest, x);
    }
    assert d in [d, mark] && mark in [d, mark];
    TrashOnly(locked, o.root, d);
    TrashOnly(locked, o.root, mark);
    assert Name(mark) == "index.json" && Name(TrashList(o.root)) == "mamba_trash.txt";
  }

  lemma OrdinaryReachesTarballs(t: Tree, o: Options, q: Path)
    requires Ordinary(t, o.root, q) && !TakenByName(t, o.root, o.caches, q) && OutsideIndex(o.caches, q)
    ensures var kept := AfterTrash(AfterLocks(AfterIndex(t, o), o), o);
            q in kept && (kept[q] || !IsTarball(q) || !InCache(o.caches, q))
  {
    var indexed := AfterIndex(t, o);
    var locked := AfterLocks(indexed, o);
    hide WithoutIndex, WithoutLocks, WithoutTrash, OutsideIndex, IsTarball, EndsWith, InCache, IsTrash;
    IndexKeeps(t, o.caches, q);
    LocksOnly(indexed, o.caches, o.lockTest, q);
    TrashOnly(locked, o.root, q);
    if IsPackage(t, q) {
      var mark := q + ["info", "index.json"];
      MarkName(q);
      MarkOutsideIndex(o.caches, q);
      IndexKeeps(t, o.caches, mark);
      LocksOnly(indexed, o.caches, o.lockTest, mark);
      LocksKeepFolders(indexed, o.caches, o.lockTest, q, mark);
      MarkIsNoTrash(q, o.root);
      TrashKeepsFolders(locked, o.root, q, mark);
    } else if !InCache(o.caches, q) {
      LocksSpare(indexed, o.caches, o.lockTest, q);
    }
  }

  lemma MarkIsNoTrash(p: Path, root: Path)
    ensures !IsTrash(p + ["info", "index.json"], root)
  {
    MarkName(p);
  }

  // ---------- Recorded packages that go ----------

  /** A cache inside another one, with the mark of a package but no record, takes its packages along. */
  lemma NestedCacheIsLost(t: Tree, root: Path, caches: seq<Path>, i: nat, j: nat, p: Path)
    requires i < |caches| && j < |caches| && ChildOf(caches[j], caches[i]) && ChildOf(p, caches[j]) && IsPackage(t, p)
    requires IsPackage(t, caches[j]) && !HasRecord(t, root, caches, Name(caches[j]))
    ensures !NeverGoes(t, root, caches, p)
  {
    assert Ordinary(t, root, p);
    hide NeverGoes, HasRecord, IsPackage, Ordinary;
    NeverGoesIff(t, root, caches, p);
    assert p[..|caches[j]|] == caches[j];
    assert InCache(caches, caches[j]);
  }

  lemma NotUnderIndex(caches: seq<Path>, p: Path)
    requires forall i | 0 <= i < |caches| && |caches[i]| < |p| :: p[|caches[i]|] != "cache"
    ensures OutsideIndex(caches, p)
  {
    forall i | 0 <= i < |caches| ensures !Under(p, IndexCache(caches[i])) {
      assert IndexCache(caches[i])[|caches[i]|] == "cache";
    }
  }

  /** Whatever exists stands in directories that exist. */
  ghost predicate IsFileSystem(t: Tree) {
    forall p | p in t :: forall k | 0 <= k < |p| :: p[..k] in t && t[p[..k]]
  }

  const NESTED: Tree :=
    map[[] := true, ["r"] := true, ["r", "conda-meta"] := true, ["r", "conda-meta", "p.json"] := false,
        ["c"] := true, ["c", "d"] := true, ["c", "d", "info"] := true, ["c", "d", "info", "index.json"] := false,
        ["c", "d", "p"] := true, ["c", "d", "p", "info"] := true, ["c", "d", "p", "info", "index.json"] := false]

  predicate HasParent(t: Tree, p: Path) {
    p == [] || (p[..|p| - 1] in t && t[p[..|p| - 1]])
  }

  /** Enough to look one step up. */
  lemma ParentsSuffice(t: Tree)
    requires forall p | p in t :: HasParent(t, p)
    ensures IsFileSystem(t)
  {
    forall p, k | p in t && 0 <= k < |p| ensures p[..k] in t && t[p[..k]] {
      ParentIsThere(t, p, k);
    }
  }

  lemma {:induction false} ParentIsThere(t: Tree, p: Path, k: nat)
    requires (forall p | p in t :: HasParent(t, p)) && p in t && k < |p|
    ensures p[..k] in t && t[p[..k]]
    decreases |p|
  {
    assert HasParent(t, p);
    var parent := p[..|p| - 1];
    if k == |p| - 1 {
    } else {
      ParentIsThere(t, parent, k);
      assert parent[..k] == p[..k];
    }
  }

  lemma ParentIs(t: Tree, dir: Path, p: Path)
    requires dir in t && t[dir] && ChildOf(p, dir)
    ensures HasParent(t, p)
  {
    assert p[..|dir|] == dir;
  }

  lemma NestedIsFileSystem()
    ensures IsFileSystem(NESTED)
  {
    var t := NESTED;
    ParentIs(t, [], ["r"]);
    ParentIs(t, ["r"], ["r", "conda-meta"]);
    ParentIs(t, ["r", "conda-meta"], ["r", "conda-meta", "p.json"]);
    ParentIs(t, [], ["c"]);
    ParentIs(t, ["c"], ["c", "d"]);
    ParentIs(t, ["c", "d"], ["c", "d", "info"]);
    ParentIs(t, ["c", "d", "info"], ["c", "d", "info", "index.json"]);
    ParentIs(t, ["c", "d"], ["c", "d", "p"]);
    ParentIs(t, ["c", "d", "p"], ["c", "d", "p", "info"]);
    ParentIs(t, ["c", "d", "p", "info"], ["c", "d", "p", "info", "index.json"]);
    hide HasParent;
    EmptyHasParent(t);
    ParentsSuffice(t);
  }

  lemma EmptyHasParent(t: Tree)
    ensures HasParent(t, [])
  {}

  lemma NestedFacts()
    ensures IsPackage(NESTED, ["c", "d", "p"]) && IsPackage(NESTED, ["c", "d"])
    ensures HasRecord(NESTED, ["r"], [["c"], ["c", "d"]], "p")
  {
    var record: Path := ["r", "conda-meta", "p.json"];
    assert ["c", "d", "p"] + ["info", "index.json"] == ["c", "d", "p", "info", "index.json"];
    assert ["c", "d"] + ["info", "index.json"] == ["c", "d", "info", "index.json"];
    assert ["r"] + ["conda-meta"] == ["r", "conda-meta"];
    assert "p" + ".json" == "p.json" && record == Record(["r"], "p") && record[..1] == ["r"];
    NotUnderIndex([["c"], ["c", "d"]], record);
    assert RecordAt(NESTED, ["r"], [["c"], ["c", "d"]], "p", record);
  }

  lemma NestedHasNoOther()
    ensures !HasRecord(NESTED, ["r"], [["c"], ["c", "d"]], "d")
  {
    assert "d" + ".json" == "d.json";
    forall x | x in NESTED ensures !RecordAt(NESTED, ["r"], [["c"], ["c", "d"]], "d", x) {
      assert Name(x) != "d.json";
    }
  }

  /** The package "p" is recorded in the root prefix; it goes, because its cache looks like an unused package. */
  lemma RecordedPackageIsLost()
    ensures IsFileSystem(NESTED)
    ensures IsPackage(NESTED, ["c", "d", "p"]) && HasRecord(NESTED, ["r"], [["c"], ["c", "d"]], "p")
    ensures ["c", "d", "p"] !in Clean(NESTED, PackageRun(["r"], [["c"], ["c", "d"]]))
  {
    hide IsPackage, HasRecord, Clean, IsFileSystem;
    var caches, p: Path := [["c"], ["c", "d"]], ["c", "d", "p"];
    NestedIsFileSystem();
    NestedFacts();
    NestedHasNoOther();
    NotUnderIndex(caches, p);
    assert p[..2] == ["c", "d"] && ChildOf(p[..2], caches[0]);
    UnrecordedRunTakes(NESTED, ["r"], caches, p, 2);
  }

  const IN_INDEX: Tree :=
    map[[] := true, ["r"] := true, ["r", "envs"] := true, ["r", "envs", "cache"] := true,
        ["r", "envs", "cache", "conda-meta"] := true, ["r", "envs", "cache", "conda-meta", "p.json"] := false,
        ["r", "envs", "p"] := true, ["r", "envs", "p", "info"] := true, ["r", "envs", "p", "info", "index.json"] := false]

  lemma InIndexIsFileSystem()
    ensures IsFileSystem(IN_INDEX)
  {
    var t := IN_INDEX;
    ParentIs(t, [], ["r"]);
    ParentIs(t, ["r"], ["r", "envs"]);
    ParentIs(t, ["r", "envs"], ["r", "envs", "cache"]);
    ParentIs(t, ["r", "envs", "cache"], ["r", "envs", "cache", "conda-meta"]);
    ParentIs(t, ["r", "envs", "cache", "conda-meta"], ["r", "envs", "cache", "conda-meta", "p.json"]);
    ParentIs(t, ["r", "envs"], ["r", "envs", "p"]);
    ParentIs(t, ["r", "envs", "p"], ["r", "envs", "p", "info"]);
    ParentIs(t, ["r", "envs", "p", "info"], ["r", "envs", "p", "info", "index.json"]);
    hide HasParent;
    EmptyHasParent(t);
    ParentsSuffice(t);
  }

  lemma InIndexFacts()
    ensures IsPackage(IN_INDEX, ["r", "envs", "p"]) && IsEnvironment(IN_INDEX, ["r"], ["r", "envs", "cache"])
    ensures Record(["r", "envs", "cache"], "p") in IN_INDEX
  {
    var env: Path := ["r", "envs", "cache"];
    assert ["r", "envs", "p"] + ["info", "index.json"] == ["r", "envs", "p", "info", "index.json"];
    assert env + ["conda-meta"] == ["r", "envs", "cache", "conda-meta"];
    assert "p" + ".json" == "p.json" && Record(env, "p") == ["r", "envs", "cache", "conda-meta", "p.json"];
    assert ["r"] + ["envs"] == ["r", "envs"];
  }

  lemma InIndexHasNoOther()
    ensures !HasRecord(IN_INDEX, ["r"], [["r", "envs"]], "p")
  {
    var caches: seq<Path>, index: Path := [["r", "envs"]], ["r", "envs", "cache"];
    assert "p" + ".json" == "p.json" && IndexCache(caches[0]) == index;
    forall x | x in IN_INDEX ensures !RecordAt(IN_INDEX, ["r"], caches, "p", x) {
      assert Under(x, index) || Name(x) != "p.json";
      assert OutsideIndex(caches, x) ==> !Under(x, IndexCache(caches[0]));
    }
  }

  /** With `envs` as a cache, its environment "cache" is an index cache: its records go, and its packages with them. */
  lemma RecordInIndexIsLost()
    ensures IsFileSystem(IN_INDEX)
    ensures IsPackage(IN_INDEX, ["r", "envs", "p"]) && IsEnvironment(IN_INDEX, ["r"], ["r", "envs", "cache"])
    ensures Record(["r", "envs", "cache"], "p") in IN_INDEX
    ensures ["r", "envs", "p"] !in Clean(IN_INDEX, PackageRun(["r"], [["r", "envs"]]))
  {
    hide IsPackage, HasRecord, Clean, IsEnvironment, Record, IsFileSystem;
    var caches, p: Path := [["r", "envs"]], ["r", "envs", "p"];
    InIndexIsFileSystem();
    InIndexFacts();
    InIndexHasNoOther();
    NotUnderIndex(caches, p);
    assert p[..3] == p && ChildOf(p, caches[0]);
    UnrecordedRunTakes(IN_INDEX, ["r"], caches, p, 3);
  }

  lemma {:induction false} UnusedHas(t: Tree, caches: seq<Path>, installed: set<string>, i: nat, d: Path)
    requires i < |caches| && ChildOf(d, caches[i]) && IsPackage(t, d) && Name(d) !in installed
    ensures d in AllUnused(t, caches, installed)
    decreases |caches|
  {
    if i < |caches| - 1 {
      UnusedHas(t, caches[..|caches| - 1], installed, i, d);
    }
  }

  // ---------- Nothing else changes ----------

  lemma {:induction false} CachesOnly(t: Tree, caches: seq<Path>, p: Path)
    ensures p in WithoutCaches(t, caches) ==> p in t
    ensures p in t && (forall i | 0 <= i < |caches| :: !Under(p, caches[i])) ==> p in WithoutCaches(t, caches)
    decreases |caches|
  {
    if caches == [] {
    } else {
      CachesOnly(t, caches[..|caches| - 1], p);
      hide Under;
    }
  }

  /** Without trash cleaning, whatever lies in no cache stays, whatever the other options; and nothing is added. */
  lemma OutsideCachesStays(t: Tree, o: Options, q: Path)
    requires !o.trash
    ensures q in Clean(t, o) ==> q in t
    ensures q in t && (forall i | 0 <= i < |o.caches| :: !Under(q, o.caches[i])) ==> q in Clean(t, o)
  {
    var indexed := AfterIndex(t, o);
    var locked := AfterLocks(indexed, o);
    var packed := AfterTarballs(locked, o);
    var installed := Installed(t, o);
    var unused := AfterPackages(packed, o, installed);
    IndexKeeps(t, o.caches, q);
    LocksOnly(indexed, o.caches, o.lockTest, q);
    CachesOnly(unused, o.caches, q);
    if q in t && forall i | 0 <= i < |o.caches| :: !Under(q, o.caches[i]) {
      NotInCache(o.caches, q);
      LocksSpare(indexed, o.caches, o.lockTest, q);
      TarballsAre(locked, o.caches, q);
      OutsideIsNotUnused(packed, o.caches, installed, q);
    }
  }

  lemma UnderCache(q: Path, cache: Path)
    ensures Under(q, IndexCache(cache)) || ChildOf(q, cache) ==> Under(q, cache)
  {}

  lemma CacheAbove(caches: seq<Path>, q: Path, k: nat)
    requires k <= |q| && InCache(caches, q[..k])
    ensures exists i :: 0 <= i < |caches| && Under(q, caches[i])
  {
    var j :| 0 <= j < |caches| && ChildOf(q[..k], caches[j]);
    assert Under(q, caches[j]);
  }

  lemma NotInCache(caches: seq<Path>, q: Path)
    requires forall i | 0 <= i < |caches| :: !Under(q, caches[i])
    ensures OutsideIndex(caches, q) && !InCache(caches, q)
  {
    forall i | 0 <= i < |caches| ensures !Under(q, IndexCache(caches[i])) && !ChildOf(q, caches[i]) {
      UnderCache(q, caches[i]);
    }
  }

  lemma OutsideIsNotUnused(t: Tree, caches: seq<Path>, installed: set<string>, q: Path)
    requires q in t && forall i | 0 <= i < |caches| :: !Under(q, caches[i])
    ensures q !in BelowAny(t, AllUnused(t, caches, installed))
  {
    if q in BelowAny(t, AllUnused(t, caches, installed)) {
      var k: nat :| k <= |q| && q[..k] in AllUnused(t, caches, installed);
      UnusedAre(t, caches, installed, q[..k]);
      CacheAbove(caches, q, k);
    }
  }

  // ---------- Dry runs ----------

  predicate UnderCaches(caches: seq<Path>, p: Path) {
    exists i :: 0 <= i < |caches| && Under(p, caches[i])
  }

  /** Some trash has to stay. */
  predicate TrashStays(t: Tree, root: Path) {
    exists p | p in t :: IsTrash(p, root) && !Removable(t, p)
  }

  /** Cleaning trash finds nothing to do, or nothing that the force option does not undo. */
  predicate TrashAtRest(t: Tree, o: Options) {
    var list, meta := TrashList(o.root), o.root + ["conda-meta"];
    && (forall p | p in t :: IsTrash(p, o.root) ==> !Removable(t, p))
    && if list in t then TrashStays(t, o.root) || !Removable(t, list)
       else !TrashStays(t, o.root) || meta !in t || !t[meta] || (o.force && UnderCaches(o.caches, list))
  }

  lemma TrashCleaned(t: Tree, o: Options)
    requires forall p | p in t :: IsTrash(p, o.root) ==> !Removable(t, p)
    ensures var list, meta := TrashList(o.root), o.root + ["conda-meta"];
            WithoutTrash(t, o.root)
            == if !TrashStays(t, o.root) && Removable(t, list) then Drop(t, {list})
               else if TrashStays(t, o.root) && list !in t && meta in t && t[meta] then t[list := false] else t
  {
    hide IsTrash, Removable, TrashList;
    var stays := set p | p in t && IsTrash(p, o.root) && !Removable(t, p);
    var goes := set p | p in t && IsTrash(p, o.root) && Removable(t, p);
    assert goes == {} && Drop(t, goes) == t;
    assert stays == {} <==> !TrashStays(t, o.root);
  }

  lemma TrashGoes(t: Tree, root: Path, p: Path)
    requires p in t && IsTrash(p, root) && Removable(t, p)
    ensures p !in WithoutTrash(t, root)
  {
    hide IsTrash, Removable, TrashList;
    ListIsNoTrash(root);
  }

  lemma ListIsNoTrash(root: Path)
    ensures !IsTrash(TrashList(root), root)
  {
    var name := "mamba_trash" + ".txt";
    SuffixIs("mamba_trash", ".txt");
    SuffixDiffers(name, ".txt", ".mamba_trash");
    assert Name(TrashList(root)) == name;
    hide EndsWith;
  }

  lemma {:induction false} CachesKeepRest(t: Tree, caches: seq<Path>)
    requires forall p | p in t :: !UnderCaches(caches, p)
    ensures WithoutCaches(t, caches) == t
  {
    hide WithoutCaches;
    forall p | p in t ensures p in WithoutCaches(t, caches) {
      CachesOnly(t, caches, p);
    }
    CachesOnlyValues(t, caches);
  }

  lemma {:induction false} CachesOnlyValues(t: Tree, caches: seq<Path>)
    ensures forall p | p in WithoutCaches(t, caches) :: p in t && WithoutCaches(t, caches)[p] == t[p]
  {
    if caches == [] {
    } else {
      CachesOnlyValues(t, caches[..|caches| - 1]);
    }
  }

  /** A dry run changes nothing exactly when the two options that ignore it find nothing to take or write. */
  lemma DryRunKeepsAllIff(t: Tree, o: Options)
    requires o.dryRun
    ensures Clean(t, o) == t
       <==> (o.force ==> forall p | p in t :: !UnderCaches(o.caches, p)) && (o.trash ==> TrashAtRest(t, o))
  {
    hide Removable, IsTrash, TrashList, WithoutTrash, WithoutCaches, Under;
    var cleaned := AfterTrash(t, o);
    assert Clean(t, o) == AfterForce(cleaned, o);
    CachesOnlyValues(cleaned, o.caches);
    if o.force && exists p | p in t :: UnderCaches(o.caches, p) {
      var p :| p in t && UnderCaches(o.caches, p);
      var i :| 0 <= i < |o.caches| && Under(p, o.caches[i]);
      CacheGoes(cleaned, o.caches, i, p);
    } else if o.trash && exists p | p in t :: IsTrash(p, o.root) && Removable(t, p) {
      var p :| p in t && IsTrash(p, o.root) && Removable(t, p);
      TrashGoes(t, o.root, p);
    } else if o.trash {
      DryTrashIff(t, o);
    } else if o.force {
      CachesKeepRest(t, o.caches);
    }
  }

  lemma DryTrashIff(t: Tree, o: Options)
    requires forall p | p in t :: IsTrash(p, o.root) ==> !Removable(t, p)
    requires o.force ==> forall p | p in t :: !UnderCaches(o.caches, p)
    ensures AfterForce(WithoutTrash(t, o.root), o) == t <==> TrashAtRest(t, o)
  {
    hide Removable, IsTrash, TrashList, WithoutTrash, WithoutCaches, Under, UnderCaches;
    var list := TrashList(o.root);
    var cleaned := WithoutTrash(t, o.root);
    TrashCleaned(t, o);
    CachesOnlyValues(cleaned, o.caches);
    if o.force {
      if list in cleaned && list !in t && UnderCaches(o.caches, list) {
        ListGoesAgain(t, o.caches, list);
      } else {
        forall p | p in cleaned ensures !UnderCaches(o.caches, p) {}
        CachesKeepRest(cleaned, o.caches);
      }
    }
  }

  lemma ListGoesAgain(t: Tree, caches: seq<Path>, list: Path)
    requires list !in t && UnderCaches(caches, list) && forall p | p in t :: !UnderCaches(caches, p)
    ensures WithoutCaches(t[list := false], caches) == t
  {
    hide WithoutCaches, Under;
    var i :| 0 <= i < |caches| && Under(list, caches[i]);
    CacheGoes(t[list := false], caches, i, list);
    CachesOnlyValues(t[list := false], caches);
    forall p | p in t ensures p in WithoutCaches(t[list := false], caches) {
      CachesOnly(t[list := false], caches, p);
    }
  }

  /** With force it removes every cache all the same. */
  lemma DryRunForces(t: Tree, o: Options, i: nat, q: Path)
    requires o.dryRun && o.force && i < |o.caches| && Under(q, o.caches[i])
    ensures q !in Clean(t, o)
  {
    CacheGoes(AfterTrash(t, o), o.caches, i, q);
  }

  lemma {:induction false} CacheGoes(t: Tree, caches: seq<Path>, i: nat, q: Path)
    requires i < |caches| && Under(q, caches[i])
    ensures q !in WithoutCaches(t, caches)
    decreases |caches|
  {
    if i < |caches| - 1 {
      CacheGoes(t, caches[..|caches| - 1], i, q);
    }
  }
}
