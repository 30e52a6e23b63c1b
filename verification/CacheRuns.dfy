/** What one run of the cleaning takes, flag by flag (libmamba/src/api/clean.cpp:49-321). */
module CacheRuns {
  import opened Strings
  import opened Paths
  import opened CacheClean

  /** With both questions answered no, and no other option, nothing goes. */
  lemma RefusedRunKeepsAll(t: Tree, o: Options)
    requires !o.index && !o.locks && !o.all && !o.trash && !o.force && !o.removeTarballs && !o.removePackages
    ensures Clean(t, o) == t
  {}

  // ---------- Files ----------

  predicate InIndexCache(caches: seq<Path>, q: Path) {
    exists i :: 0 <= i < |caches| && Under(q, caches[i] + ["cache"])
  }

  /** Below an index cache, not that directory itself. */
  predicate InsideIndexCache(caches: seq<Path>, q: Path) {
    exists i :: 0 <= i < |caches| && Under(q, caches[i] + ["cache"]) && q != caches[i] + ["cache"]
  }

  predicate DirectlyInCache(caches: seq<Path>, q: Path) {
    exists i :: 0 <= i < |caches| && ChildOf(q, caches[i])
  }

  predicate NoPackageAbove(t: Tree, caches: seq<Path>, q: Path) {
    forall k | 0 <= k <= |q| && DirectlyInCache(caches, q[..k]) ::
      q[..k] !in t || !t[q[..k]] || q[..k] + ["info", "index.json"] !in t
  }

  lemma {:induction false} LocksTakeIff(t: Tree, caches: seq<Path>, lockTest: Path -> bool, q: Path)
    requires q in t && Removable(t, q)
    ensures q !in WithoutLocks(t, caches, lockTest) <==>
            EndsWith(Name(q), ".lock") && ((lockTest(q) && DirectlyInCache(caches, q)) || InsideIndexCache(caches, q))
    decreases |caches|
  {
    hide EndsWith, Name;
    if caches == [] {
    } else {
      var n := |caches| - 1;
      var front := caches[..n];
      var before := WithoutLocks(t, front, lockTest);
      LocksTakeIff(t, front, lockTest, q);
      forall p ensures p in before ==> p in t {
        LocksOnly(t, front, lockTest, p);
      }
      assert q in before ==> Removable(before, q);
      OneCacheMore(caches, q);
    }
  }

  lemma OneCacheMore(caches: seq<Path>, q: Path)
    requires caches != []
    ensures var n := |caches| - 1; var c := caches[n];
            && (DirectlyInCache(caches, q) <==> DirectlyInCache(caches[..n], q) || ChildOf(q, c))
            && (InIndexCache(caches, q) <==> InIndexCache(caches[..n], q) || Under(q, c + ["cache"]))
            && (InsideIndexCache(caches, q)
                <==> InsideIndexCache(caches[..n], q) || (Under(q, c + ["cache"]) && q != c + ["cache"]))
  {
    hide ChildOf, Under;
    var n := |caches| - 1;
    assert forall i | 0 <= i < n :: caches[..n][i] == caches[i];
  }

  lemma OutsideIndexIs(caches: seq<Path>, q: Path)
    ensures OutsideIndex(caches, q) <==> !InIndexCache(caches, q)
    ensures InCache(caches, q) <==> DirectlyInCache(caches, q)
  {
    hide Under, ChildOf;
  }

  /** Trash that can be removed goes, any other path stays, but for the list of it. */
  lemma TrashTakesIff(t: Tree, root: Path, q: Path)
    requires q in t && Removable(t, q) && q != TrashList(root)
    ensures q !in WithoutTrash(t, root) <==>
            Under(q, root) && q != root && EndsWith(Name(q), ".mamba_trash") && Name(q) != ".mamba_trash"
  {
    TrashOnly(t, root, q);
    if IsTrash(q, root) {
      TrashGoes(t, root, q);
    }
    hide WithoutTrash;
  }

  lemma TarballsTakeIff(t: Tree, caches: seq<Path>, q: Path)
    requires q in t && !t[q]
    ensures q in AllTarballs(t, caches) <==>
            DirectlyInCache(caches, q) && (EndsWith(Name(q), ".tar.bz2") || EndsWith(Name(q), ".conda"))
  {
    hide AllTarballs, EndsWith, Name;
    TarballsAre(t, caches, q);
    OutsideIndexIs(caches, q);
    if IsTarball(q) && DirectlyInCache(caches, q) {
      TarballGoes(t, caches, q);
    }
  }

  /**
   A file under no package folder, other than the list of trash: a run without force takes it exactly when one of its
   options is for files of this kind, and, but for trash, it is no dry run; a tarball only if the question was answered
   with yes.
   */
  lemma FileGoesIff(t: Tree, o: Options, q: Path)
    requires q in t && !t[q] && Removable(t, q) && q != o.root + ["conda-meta", "mamba_trash.txt"]
    requires NoPackageAbove(t, o.caches, q) && !o.force
    ensures q !in Clean(t, o) <==>
            || (!o.dryRun && (o.index || o.all) && InIndexCache(o.caches, q))
            || (!o.dryRun && (o.locks || o.all) && EndsWith(Name(q), ".lock")
                && ((o.lockTest(q) && DirectlyInCache(o.caches, q)) || InsideIndexCache(o.caches, q)))
            || (o.trash && Under(q, o.root) && q != o.root
                && EndsWith(Name(q), ".mamba_trash") && Name(q) != ".mamba_trash")
            || (!o.dryRun && (o.tarballs || o.all) && o.removeTarballs && DirectlyInCache(o.caches, q)
                && (EndsWith(Name(q), ".tar.bz2") || EndsWith(Name(q), ".conda")))
  {
    hide WithoutIndex, WithoutLocks, WithoutTrash, AllTarballs, AllUnused, Installed, EndsWith, Name;
    hide NoPackageAbove, InIndexCache, InsideIndexCache, DirectlyInCache, OutsideIndex;
    var indexed := AfterIndex(t, o);
    var locked := AfterLocks(indexed, o);
    var kept := AfterTrash(locked, o);
    var packed := AfterTarballs(kept, o);
    IndexKeeps(t, o.caches, q);
    OutsideIndexIs(o.caches, q);
    FewerPathsRemovable(t, o, q);
    NothingComesBack(t, o, q);
    if q in indexed {
      LocksTakeIff(indexed, o.caches, o.lockTest, q);
      LocksOnly(indexed, o.caches, o.lockTest, q);
    }
    if q in locked {
      TrashTakesIff(locked, o.root, q);
      TrashOnly(locked, o.root, q);
    }
    if q in kept {
      TarballsTakeIff(kept, o.caches, q);
    }
    NotInUnused(t, o, q);
  }

  lemma FewerPathsRemovable(t: Tree, o: Options, q: Path)
    requires Removable(t, q)
    ensures Removable(AfterIndex(t, o), q) && Removable(AfterLocks(AfterIndex(t, o), o), q)
  {
    hide WithoutIndex, WithoutLocks, EndsWith;
    var indexed := AfterIndex(t, o);
    forall p ensures p in indexed ==> p in t {
      IndexKeeps(t, o.caches, p);
    }
    forall p ensures p in AfterLocks(indexed, o) ==> p in indexed {
      LocksOnly(indexed, o.caches, o.lockTest, p);
    }
  }

  lemma NotInUnused(t: Tree, o: Options, q: Path)
    requires NoPackageAbove(t, o.caches, q)
    ensures var packed := AfterTarballs(AfterTrash(AfterLocks(AfterIndex(t, o), o), o), o);
            q !in BelowAny(packed, AllUnused(packed, o.caches, Installed(t, o)))
  {
    hide AfterIndex, AfterLocks, AfterTrash, AfterTarballs, AllUnused, Installed, Name;
    var packed := AfterTarballs(AfterTrash(AfterLocks(AfterIndex(t, o), o), o), o);
    forall k: nat | k <= |q| ensures q[..k] !in AllUnused(packed, o.caches, Installed(t, o)) {
      UnusedAre(packed, o.caches, Installed(t, o), q[..k]);
      PackedIsOld(t, o, q[..k]);
      OutsideIndexIs(o.caches, q[..k]);
    }
  }

  /** No phase but the cleaning of trash makes a path, and that only the list of it. */
  lemma NothingComesBack(t: Tree, o: Options, q: Path)
    requires q != TrashList(o.root)
    ensures var indexed := AfterIndex(t, o);
            var locked := AfterLocks(indexed, o);
            (q in indexed ==> q in t) && (q in locked ==> q in indexed) && (q in AfterTrash(locked, o) ==> q in locked)
  {
    hide WithoutIndex, WithoutLocks, WithoutTrash, EndsWith, OutsideIndex;
    IndexKeeps(t, o.caches, q);
    LocksOnly(AfterIndex(t, o), o.caches, o.lockTest, q);
    TrashOnly(AfterLocks(AfterIndex(t, o), o), o.root, q);
  }

  /** Everything in an index cache goes when that is asked for, and no other option brings it back. */
  lemma IndexTakesAll(t: Tree, o: Options, q: Path)
    requires !o.dryRun && (o.index || o.all) && InIndexCache(o.caches, q) && q != o.root + ["conda-meta", "mamba_trash.txt"]
    ensures q !in Clean(t, o)
  {
    hide WithoutIndex, WithoutLocks, WithoutTrash, AllTarballs, AllUnused, Installed, WithoutCaches, InIndexCache;
    hide OutsideIndex;
    IndexKeeps(t, o.caches, q);
    OutsideIndexIs(o.caches, q);
    NothingComesBack(t, o, q);
    var kept := AfterTrash(AfterLocks(AfterIndex(t, o), o), o);
    CachesOnly(AfterPackages(AfterTarballs(kept, o), o, Installed(t, o)), o.caches, q);
  }

  // ---------- Package folders ----------

  /** A package folder outside the index caches is one up to the last step. */
  lemma PackageStaysPackage(t: Tree, o: Options, p: Path)
    requires IsPackage(t, p) && OutsideIndex(o.caches, p)
    ensures var packed := AfterTarballs(AfterTrash(AfterLocks(AfterIndex(t, o), o), o), o); IsPackage(packed, p)
  {
    var indexed := AfterIndex(t, o);
    var locked := AfterLocks(indexed, o);
    var kept := AfterTrash(locked, o);
    var mark := p + ["info", "index.json"];
    MarkName(p);
    MarkIsNoTarball(p);
    MarkIsNoTrash(p, o.root);
    MarkOutsideIndex(o.caches, p);
    hide WithoutIndex, WithoutLocks, WithoutTrash, AllTarballs, OutsideIndex, IsTarball, IsTrash, InCache, EndsWith;
    IndexKeeps(t, o.caches, p);
    IndexKeeps(t, o.caches, mark);
    LocksOnly(indexed, o.caches, o.lockTest, p);
    LocksOnly(indexed, o.caches, o.lockTest, mark);
    LocksKeepFolders(indexed, o.caches, o.lockTest, p, mark);
    TrashKeepsFolders(locked, o.root, p, mark);
    assert Name(mark) == "index.json" && Name(TrashList(o.root)) == "mamba_trash.txt";
    TrashOnly(locked, o.root, mark);
    TarballsAre(kept, o.caches, p);
    TarballsAre(kept, o.caches, mark);
  }

  lemma MarkIsNoTarball(p: Path)
    ensures !IsTarball(p + ["info", "index.json"])
  {
    MarkName(p);
    SuffixIs("index", ".json");
    SuffixDiffers("index.json", ".json", ".tar.bz2");
    SuffixDiffers("index.json", ".json", ".conda");
  }

  /** Some environment records the name: the root prefix, or a directory of its `envs`. */
  ghost predicate RecordedIn(t: Tree, root: Path, name: string) {
    || root + ["conda-meta", name + ".json"] in t
    || exists e: string :: root + ["envs", e, "conda-meta", name + ".json"] in t
  }

  /** Whatever a run takes for installed is recorded. */
  lemma InstalledIsRecorded(t: Tree, o: Options, name: string)
    ensures name in Installed(t, o) ==> RecordedIn(t, o.root, name)
  {
    var locked := AfterLocks(AfterIndex(t, o), o);
    hide AfterIndex, AfterLocks, AfterTrash, Environments;
    if name in Installed(t, o) {
      var env := RecordOf(AfterTrash(locked, o), Environments(locked, o.root), name);
      var p := Record(env, name);
      RecordName(env, name);
      assert p != TrashList(o.root) by {
        assert Name(TrashList(o.root)) == "mamba_trash.txt";
      }
      NothingComesBack(t, o, p);
      EnvironmentIs(locked, o.root, env);
      hide EndsWith, Name;
      if env != o.root {
        var e := env[|env| - 1];
        assert p == o.root + ["envs", e, "conda-meta", name + ".json"];
      }
    }
  }

  lemma RecordOf(t: Tree, envs: set<Path>, name: string) returns (env: Path)
    requires name in Recorded(t, envs)
    ensures env in envs && Record(env, name) in t
  {
    var p :| p in t && |p| >= 2 && p[..|p| - 2] in envs && p[|p| - 2] == "conda-meta"
             && EndsWith(Name(p), ".json") && Name(p)[..|Name(p)| - 5] == name;
    env := p[..|p| - 2];
    RecordParts(p, name);
  }

  lemma EnvironmentIs(t: Tree, root: Path, env: Path)
    requires env in Environments(t, root)
    ensures env == root || (|env| > 0 && env == root + ["envs", env[|env| - 1]])
  {
    assert env != root ==> env == env[..|env| - 1] + [env[|env| - 1]];
  }

  /** On a file system a run that cleans no index, locks or trash takes exactly the recorded names for installed. */
  lemma InstalledIff(t: Tree, o: Options, name: string)
    requires IsFileSystem(t) && (o.dryRun || !(o.index || o.locks || o.all)) && !o.trash
    ensures name in Installed(t, o) <==> RecordedIn(t, o.root, name)
  {
    hide IsFileSystem, Recorded, Environments, RecordedIn;
    assert Installed(t, o) == Recorded(t, Environments(t, o.root));
    if name in Installed(t, o) {
      InstalledIsRecorded(t, o, name);
    }
    if RecordedIn(t, o.root, name) {
      RecordIsFound(t, o.root, name);
    }
  }

  lemma RecordIsFound(t: Tree, root: Path, name: string)
    requires IsFileSystem(t) && RecordedIn(t, root, name)
    ensures name in Recorded(t, Environments(t, root))
  {
    hide IsFileSystem, Recorded, Environments;
    if root + ["conda-meta", name + ".json"] in t {
      EnvironmentThere(t, root, root, name);
    } else {
      var e: string :| root + ["envs", e, "conda-meta", name + ".json"] in t;
      var env := root + ["envs", e];
      assert env + ["conda-meta", name + ".json"] == root + ["envs", e, "conda-meta", name + ".json"];
      EnvironmentThere(t, root, env, name);
    }
  }

  lemma EnvironmentThere(t: Tree, root: Path, env: Path, name: string)
    requires IsFileSystem(t) && env + ["conda-meta", name + ".json"] in t
    requires env == root || ChildOf(env, root + ["envs"])
    ensures name in Recorded(t, Environments(t, root))
  {
    var p, meta := env + ["conda-meta", name + ".json"], env + ["conda-meta"];
    RecordName(env, name);
    assert p[..|env|] == env && p[..|env| + 1] == meta && (env != root ==> p[..|root| + 1] == root + ["envs"]);
    assert meta[..|meta| - 1] == env && Name(meta) == "conda-meta";
    assert env in Environments(t, root);
    hide Environments, EndsWith, Name, IsFileSystem;
    assert p in t && p[..|p| - 2] == env && p[|p| - 2] == "conda-meta";
  }

  /**
   A package folder of a cache, outside the index caches, that no environment records: a run without force takes it
   exactly when it is to clean packages, is no dry run, and the question was answered with yes.
   */
  lemma UnusedPackageGoesIff(t: Tree, o: Options, p: Path)
    requires DirectlyInCache(o.caches, p) && p in t && t[p] && p + ["info", "index.json"] in t
    requires !InIndexCache(o.caches, p) && !RecordedIn(t, o.root, Name(p)) && !o.force
    ensures p !in Clean(t, o) <==> (o.pkgs || o.all) && !o.dryRun && o.removePackages
  {
    hide AfterIndex, AfterLocks, AfterTrash, AllTarballs, AllUnused, Installed, RecordedIn, InIndexCache;
    var kept := AfterTrash(AfterLocks(AfterIndex(t, o), o), o);
    var packed := AfterTarballs(kept, o);
    OutsideIndexIs(o.caches, p);
    PackageStaysPackage(t, o, p);
    if Name(p) in Installed(t, o) {
      InstalledIsRecorded(t, o, Name(p));
    }
    var i :| 0 <= i < |o.caches| && ChildOf(p, o.caches[i]);
    UnusedHas(packed, o.caches, Installed(t, o), i, p);
    assert p[..|p|] == p;
  }

  /** With force every cache goes, whatever else is set. */
  lemma ForceTakesCaches(t: Tree, o: Options, i: nat, q: Path)
    requires o.force && i < |o.caches| && Under(q, o.caches[i])
    ensures q !in Clean(t, o)
  {
    hide WithoutCaches, AfterIndex, AfterLocks, AfterTrash, AfterTarballs, AfterPackages, Installed;
    var kept := AfterTrash(AfterLocks(AfterIndex(t, o), o), o);
    CacheGoes(AfterPackages(AfterTarballs(kept, o), o, Installed(t, o)), o.caches, i, q);
  }
}
