/**
 Loading the channels of a context into the package database, with one retry when a cached
 repodata.json does not parse (libmamba/src/api/channel_loader.cpp).
 */
module ChannelLoader {
  import opened Outcomes
  import opened Strings
  import opened Lists
  import opened ChannelPriority

  datatype Download = Fine | Failed | Interrupted

  /**
   What the outside does during one attempt: `create(k)` for the k-th creation of a subdirectory,
   `loaded(i)` and `parses(i)` for the i-th one created.
   */
  datatype World = World(create: nat -> bool, download: Download, loaded: nat -> bool, parses: nat -> bool)

  datatype Error =
    | CreateFailed(tried: nat) | DownloadError | NotLoaded(index: nat) | NotParsed(index: nat) | CacheCorrupted

  datatype Event =
    | Started(isRetry: bool) | Added(subdir: Subdir, priority: int) | Cleared(subdir: Subdir)

  type Mirrors = map<string, seq<string>>

  // ---------- What an attempt does ----------

  function CreateErrors(n: nat, ok: nat -> bool): seq<Error> {
    if n == 0 then [] else CreateErrors(n - 1, ok) + if ok(n - 1) then [] else [CreateFailed(n - 1)]
  }

  function Made(config: Config, w: World): seq<Subdir> {
    Created(Tried(Visited(config)), w.create)
  }

  function EarlyErrors(config: Config, w: World): seq<Error> {
    CreateErrors(|Tried(Visited(config))|, w.create) + if w.download == Fine then [] else [DownloadError]
  }

  function LoadErrors(config: Config, made: seq<Subdir>, w: World, isRetry: bool, n: nat): seq<Error>
    requires n <= |made|
  {
    if n == 0 then []
    else
      LoadErrors(config, made, w, isRetry, n - 1)
      + if !w.loaded(n - 1) then (if !config.offline && made[n - 1].platform == "noarch" then [NotLoaded(n - 1)] else [])
        else if !w.parses(n - 1) && isRetry then [NotParsed(n - 1)] else []
  }

  function LoadEvents(config: Config, made: seq<Subdir>, w: World, isRetry: bool, n: nat): seq<Event>
    requires n <= |made|
  {
    if n == 0 then []
    else
      LoadEvents(config, made, w, isRetry, n - 1)
      + if !w.loaded(n - 1) then []
        else if w.parses(n - 1) then [Added(made[n - 1], Priorities(config, made)[n - 1])]
        else if isRetry then [] else [Cleared(made[n - 1])]
  }

  /** A loaded subdirectory among the first `n` whose repodata does not parse. */
  predicate Malformed(w: World, n: nat) {
    exists i :: 0 <= i < n && w.loaded(i) && !w.parses(i)
  }

  /** `second` is what the outside does should there be another attempt. */
  function Load(config: Config, w: World, second: World, isRetry: bool): (Result<(), seq<Error>>, seq<Event>)
    decreases !isRetry
  {
    var made := Made(config, w);
    var early := EarlyErrors(config, w);
    if w.download == Interrupted then (Err(early), [Started(isRetry)])
    else
      var errors := early + LoadErrors(config, made, w, isRetry, |made|);
      var events := [Started(isRetry)] + LoadEvents(config, made, w, isRetry, |made|);
      if Malformed(w, |made|) && !isRetry then
        if config.offline then (Err(errors + [CacheCorrupted]), events)
        else
          var again := Load(config, second, second, true);
          (again.0, events + again.1)
      else (if errors == [] then Ok(()) else Err(errors), events)
  }

  // ---------- Mirrors ----------

  function AddUnique(have: seq<string>, urls: seq<string>): seq<string>
    decreases |urls|
  {
    if urls == [] then have
    else AddUnique(if urls[0] in have then have else have + [urls[0]], urls[1..])
  }

  function AddMirrors(mirrors: Mirrors, channel: Channel): Mirrors {
    if (channel.id in mirrors && mirrors[channel.id] != []) || channel.mirrorUrls == [] then mirrors
    else mirrors[channel.id := AddUnique([], channel.mirrorUrls)]
  }

  function AddAllMirrors(mirrors: Mirrors, channels: seq<Channel>): Mirrors {
    if channels == [] then mirrors
    else AddMirrors(AddAllMirrors(mirrors, channels[..|channels| - 1]), channels[|channels| - 1])
  }

  lemma AddUniqueKeeps(have: seq<string>, urls: seq<string>)
    ensures have <= AddUnique(have, urls)
    ensures urls != [] ==> AddUnique(have, urls) != []
    decreases |urls|
  {}

  lemma {:induction false} MirrorsPresent(mirrors: Mirrors, channels: seq<Channel>, i: nat)
    requires i < |channels| && channels[i].mirrorUrls != []
    ensures var after := AddAllMirrors(mirrors, channels); channels[i].id in after && after[channels[i].id] != []
  {
    var n := |channels| - 1;
    AddUniqueKeeps([], channels[n].mirrorUrls);
    if i < n {
      MirrorsPresent(mirrors, channels[..n], i);
    }
  }

  lemma {:induction false} NothingToAdd(mirrors: Mirrors, channels: seq<Channel>)
    requires forall i | 0 <= i < |channels| ::
               channels[i].mirrorUrls != [] ==> channels[i].id in mirrors && mirrors[channels[i].id] != []
    ensures AddAllMirrors(mirrors, channels) == mirrors
  {
    if channels == [] {
    } else {
      NothingToAdd(mirrors, channels[..|channels| - 1]);
    }
  }

  /** Going through the same channels again, in a retry or a later call, changes no mirror. */
  lemma MirrorsIdempotent(mirrors: Mirrors, channels: seq<Channel>)
    ensures AddAllMirrors(AddAllMirrors(mirrors, channels), channels) == AddAllMirrors(mirrors, channels)
  {
    forall i | 0 <= i < |channels| && channels[i].mirrorUrls != []
      ensures channels[i].id in AddAllMirrors(mirrors, channels)
              && AddAllMirrors(mirrors, channels)[channels[i].id] != []
    {
      MirrorsPresent(mirrors, channels, i);
    }
    NothingToAdd(AddAllMirrors(mirrors, channels), channels);
  }

  lemma {:induction false} AddUniqueAre(have: seq<string>, urls: seq<string>)
    requires NoDup(have)
    ensures AddUnique(have, urls) == Dedup(have + urls)
    decreases |urls|
  {
    hide Dedup;
    if urls == [] {
      assert have + urls == have;
      DedupUnchangedIff(have);
    } else {
      var more := have + [urls[0]];
      assert have + urls == more + urls[1..];
      if urls[0] in have {
        AddUniqueAre(have, urls[1..]);
        RepeatIsLost(have, urls[0], urls[1..]);
      } else {
        AddUniqueAre(more, urls[1..]);
      }
    }
  }

  lemma {:induction false} RepeatIsLost(have: seq<string>, x: string, more: seq<string>)
    requires x in have
    ensures Dedup(have + [x] + more) == Dedup(have + more)
  {
    hide Dedup;
    if more == [] {
      assert have + [x] + more == have + [x] && have + more == have;
      DedupStep(have, x);
      DedupElements(have, x);
    } else {
      var n := |more| - 1;
      RepeatIsLost(have, x, more[..n]);
      assert have + [x] + more == have + [x] + more[..n] + [more[n]];
      assert have + more == have + more[..n] + [more[n]];
      DedupStep(have + [x] + more[..n], more[n]);
      DedupStep(have + more[..n], more[n]);
    }
  }

  /** A name gets the mirrors of the first of its channels that has any, each URL once; later ones add nothing. */
  lemma {:induction false} FirstMirrorsWin(mirrors: Mirrors, channels: seq<Channel>, i: nat)
    requires i < |channels| && channels[i].mirrorUrls != [] && channels[i].id !in mirrors
    requires forall k | 0 <= k < i && channels[k].id == channels[i].id :: channels[k].mirrorUrls == []
    ensures var after := AddAllMirrors(mirrors, channels);
            channels[i].id in after && after[channels[i].id] == Dedup(channels[i].mirrorUrls)
  {
    hide Dedup, AddUnique;
    var n, id := |channels| - 1, channels[i].id;
    if i == n {
      NoMirrorsYet(mirrors, channels[..n], id);
      AddUniqueAre([], channels[i].mirrorUrls);
      assert [] + channels[i].mirrorUrls == channels[i].mirrorUrls;
    } else {
      FirstMirrorsWin(mirrors, channels[..n], i);
      DedupKeepsSome(channels[i].mirrorUrls);
    }
  }

  lemma DedupKeepsSome(xs: seq<string>)
    requires xs != []
    ensures Dedup(xs) != []
  {
    DedupElements(xs, xs[0]);
  }

  lemma {:induction false} NoMirrorsYet(mirrors: Mirrors, channels: seq<Channel>, id: string)
    requires id !in mirrors && forall k | 0 <= k < |channels| && channels[k].id == id :: channels[k].mirrorUrls == []
    ensures id !in AddAllMirrors(mirrors, channels)
  {
    if channels == [] {
    } else {
      NoMirrorsYet(mirrors, channels[..|channels| - 1], id);
    }
  }

  // ---------- The loader, step by step ----------

  /** The vectors and counters that one call of load_channels_impl threads through its loops. */
  class Attempt {
    const config: Config
    const world: World
    var mirrors: Mirrors
    var subdirs: seq<Subdir>
    var priorities: seq<int>
    var errors: seq<Error>
    var maxPrio: int
    var prevUrl: string
    var tries: nat
    ghost var tried: seq<Subdir>
    ghost var visited: seq<Channel>
    ghost const mirrorsBefore: Mirrors

    ghost predicate Valid()
      reads this
    {
      && tries == |tried|
      && subdirs == Created(tried, world.create)
      && priorities == Priorities(config, subdirs)
      && errors == CreateErrors(tries, world.create)
      && (!config.priorityDisabled ==>
            maxPrio == |config.channels| - Runs(Urls(subdirs), |subdirs|) && prevUrl == LastUrl(Urls(subdirs)))
    }

    /** The tries and the mirrors are those of the channels visited so far. */
    ghost predicate Consistent()
      reads this
    {
      tried == Tried(visited) && mirrors == AddAllMirrors(mirrorsBefore, visited)
    }

    constructor (config: Config, world: World, mirrors: Mirrors)
      ensures Valid() && tried == [] && Consistent() && visited == []
      ensures mirrorsBefore == mirrors && this.config == config && this.world == world
    {
      this.config, this.world, this.mirrors, mirrorsBefore := config, world, mirrors, mirrors;
      subdirs, priorities, errors, tries, tried, visited := [], [], [], 0, [], [];
      maxPrio, prevUrl := |config.channels|, "";
      new;
      RunsNone(Urls([]));
    }

    method CreateSubdirs(channel: Channel)
      requires Valid()
      modifies this
      ensures Valid() && mirrors == old(mirrors) && visited == old(visited)
      ensures tried == old(tried) + PlatformSubdirs(channel, |channel.platforms|)
      ensures |tried| == |old(tried)| + |channel.platforms|
      ensures forall k | 0 <= k < |channel.platforms| :: tried[|old(tried)| + k] == Subdir(channel, channel.platforms[k])
    {
      PlatformsInOrder(channel, |channel.platforms|);
      for n := 0 to |channel.platforms|
        invariant Valid() && mirrors == old(mirrors) && visited == old(visited)
        invariant tried == old(tried) + PlatformSubdirs(channel, n)
      {
        TryCreate(Subdir(channel, channel.platforms[n]));
      }
    }

    /** One turn of the platform loop. */
    method TryCreate(s: Subdir)
      requires Valid()
      modifies this
      ensures Valid() && mirrors == old(mirrors) && visited == old(visited) && tried == old(tried) + [s]
    {
      hide Created, Runs, Urls, Priorities;
      var k := tries;
      CreatedStep(tried, world.create, s);
      tries := tries + 1;
      tried := tried + [s];
      if !world.create(k) {
        errors := errors + [CreateFailed(k)];
        return;
      }
      PrioritiesStep(config, subdirs, s);
      subdirs := subdirs + [s];
      if config.priorityDisabled {
        priorities := priorities + [0];
      } else {
        if s.channel.url != prevUrl {
          maxPrio := maxPrio - 1;
          prevUrl := s.channel.url;
        }
        priorities := priorities + [maxPrio];
      }
    }

    method CreateMirrors(channel: Channel)
      modifies this`mirrors
      ensures mirrors == AddMirrors(old(mirrors), channel)
    {
      var id, urls := channel.id, channel.mirrorUrls;
      if id !in mirrors || mirrors[id] == [] {
        for n := 0 to |urls|
          invariant n == 0 ==> mirrors == old(mirrors)
          invariant n > 0 ==> id in mirrors && mirrors == old(mirrors)[id := mirrors[id]]
          invariant AddUnique(if n == 0 then [] else mirrors[id], urls[n..]) == AddUnique([], urls)
        {
          assert urls[n..][1..] == urls[n + 1..];
          var have := if id in mirrors then mirrors[id] else [];
          if urls[n] !in have {
            mirrors := mirrors[id := have + [urls[n]]];
          }
        }
      }
    }

    method Visit(channel: Channel)
      requires Valid() && Consistent()
      modifies this
      ensures Valid() && Consistent() && visited == old(visited) + [channel]
    {
      hide PlatformSubdirs, Tried, AddMirrors, AddAllMirrors, Created, Runs;
      VisitStep(mirrorsBefore, visited, channel);
      CreateMirrors(channel);
      CreateSubdirs(channel);
      visited := visited + [channel];
    }

    method VisitMirrored(mirror: (string, seq<string>))
      requires Valid() && Consistent()
      modifies this
      ensures Valid() && Consistent()
      ensures visited == old(visited) + config.resolveMirrored(mirror.0, mirror.1)
    {
      hide Valid, Consistent;
      var channels := config.resolveMirrored(mirror.0, mirror.1);
      for i := 0 to |channels|
        invariant Valid() && Consistent() && visited == old(visited) + channels[..i]
      {
        Visit(channels[i]);
        assert channels[..i + 1] == channels[..i] + [channels[i]];
      }
      assert channels[..|channels|] == channels;
    }

    /** A mirrored location has been visited before; a package is no channel. */
    method VisitLocation(location: string)
      requires Valid() && Consistent()
      modifies this
      ensures Valid() && Consistent()
      ensures visited == old(visited)
                         + if IsMirrored(config, location) then [] else NoPackages(config.resolve(location))
    {
      hide Valid, Consistent, IsMirrored;
      if !IsMirrored(config, location) {
        var channels := config.resolve(location);
        for i := 0 to |channels|
          invariant Valid() && Consistent() && visited == old(visited) + NoPackages(channels[..i])
        {
          assert channels[..i + 1][..i] == channels[..i];
          if !channels[i].isPackage {
            Visit(channels[i]);
          }
        }
        assert channels[..|channels|] == channels;
      }
    }

    method CreateAll()
      requires Valid() && Consistent() && visited == []
      modifies this
      ensures Valid() && Consistent() && visited == Visited(config)
    {
      hide Valid, Consistent, NoPackages, IsMirrored;
      for m := 0 to |config.mirrored|
        invariant Valid() && Consistent() && visited == MirroredChannels(config, m)
      {
        VisitMirrored(config.mirrored[m]);
      }
      ghost var mirrored := visited;
      for n := 0 to |config.channels|
        invariant Valid() && Consistent() && visited == mirrored + PlainChannels(config, n)
      {
        VisitLocation(config.channels[n]);
      }
    }
  }

  lemma VisitStep(mirrors: Mirrors, visited: seq<Channel>, channel: Channel)
    ensures Tried(visited + [channel]) == Tried(visited) + PlatformSubdirs(channel, |channel.platforms|)
    ensures AddAllMirrors(mirrors, visited + [channel]) == AddMirrors(AddAllMirrors(mirrors, visited), channel)
  {
    hide PlatformSubdirs, AddMirrors;
    assert (visited + [channel])[..|visited|] == visited;
  }

  lemma PrioritiesStep(config: Config, subdirs: seq<Subdir>, s: Subdir)
    ensures Urls(subdirs + [s]) == Urls(subdirs) + [s.channel.url]
    ensures Runs(Urls(subdirs + [s]), |subdirs| + 1)
         == Runs(Urls(subdirs), |subdirs|) + if s.channel.url != LastUrl(Urls(subdirs)) then 1 else 0
    ensures Priorities(config, subdirs + [s])
         == Priorities(config, subdirs)
            + [if config.priorityDisabled then 0
               else |config.channels| - Runs(Urls(subdirs + [s]), |subdirs| + 1)]
  {
    hide Runs;
    UrlsAppend(subdirs, s);
    RunsAppend(Urls(subdirs), s.channel.url);
    forall i | 0 <= i < |subdirs| ensures Priorities(config, subdirs + [s])[i] == Priorities(config, subdirs)[i] {
      RunsPrefix(Urls(subdirs), [s.channel.url], i + 1);
    }
  }

  class Session {
    const config: Config
    var mirrors: Mirrors
    /** What happened to the database and the caches. */
    var log: seq<Event>

    constructor (config: Config, mirrors: Mirrors)
      ensures this.config == config && this.mirrors == mirrors && log == []
    {
      this.config, this.mirrors, log := config, mirrors, [];
    }

    /** The loop over the subdirectories; `priorities` goes by the same index. */
    method LoadAll(subdirs: seq<Subdir>, priorities: seq<int>, w: World, isRetry: bool)
      returns (errors: seq<Error>, events: seq<Event>, loadingFailed: bool)
      requires priorities == Priorities(config, subdirs)
      ensures errors == LoadErrors(config, subdirs, w, isRetry, |subdirs|)
      ensures events == LoadEvents(config, subdirs, w, isRetry, |subdirs|)
      ensures loadingFailed <==> Malformed(w, |subdirs|) && !isRetry
    {
      hide Priorities;
      errors, events, loadingFailed := [], [], false;
      for i := 0 to |subdirs|
        invariant errors == LoadErrors(config, subdirs, w, isRetry, i)
        invariant events == LoadEvents(config, subdirs, w, isRetry, i)
        invariant loadingFailed <==> Malformed(w, i) && !isRetry
      {
        assert Malformed(w, i + 1) <==> Malformed(w, i) || (w.loaded(i) && !w.parses(i));
        if !w.loaded(i) {
          if !config.offline && subdirs[i].platform == "noarch" {
            errors := errors + [NotLoaded(i)];
          }
        } else if w.parses(i) {
          events := events + [Added(subdirs[i], priorities[i])];
        } else if isRetry {
          errors := errors + [NotParsed(i)];
        } else {
          events := events + [Cleared(subdirs[i])];
          loadingFailed := true;
        }
      }
    }

    /** load_channels_impl: creates, downloads and loads, and calls itself once when a cache was malformed. */
    method LoadChannels(w: World, second: World, isRetry: bool) returns (r: Result<(), seq<Error>>)
      modifies this
      ensures r == Load(config, w, second, isRetry).0
      ensures log == old(log) + Load(config, w, second, isRetry).1
      ensures mirrors == AddAllMirrors(old(mirrors), Visited(config))
      decreases !isRetry
    {
      hide Created, Tried, Visited, Priorities, CreateErrors, AddAllMirrors;
      var attempt := new Attempt(config, w, mirrors);
      attempt.CreateAll();
      assert attempt.tried == Tried(Visited(config));
      mirrors := attempt.mirrors;
      var subdirs, priorities, errors := attempt.subdirs, attempt.priorities, attempt.errors;
      assert subdirs == Made(config, w);
      log := log + [Started(isRetry)];
      if w.download != Fine {
        errors := errors + [DownloadError];
        if w.download == Interrupted {
          return Err(errors);
        }
      }
      assert errors == EarlyErrors(config, w);
      var loadErrors, loadEvents, loadingFailed := LoadAll(subdirs, priorities, w, isRetry);
      errors := errors + loadErrors;
      log := log + loadEvents;
      SeqAssoc(old(log), [Started(isRetry)], loadEvents);
      if loadingFailed {
        if !config.offline && !isRetry {
          MirrorsIdempotent(old(mirrors), Visited(config));
          ghost var events := [Started(isRetry)] + loadEvents;
          SeqAssoc(old(log), events, Load(config, second, second, true).1);
          r := LoadChannels(second, second, true);
          return;
        }
        errors := errors + [CacheCorrupted];
      }
      return if errors == [] then Ok(()) else Err(errors);
    }
  }

  // ---------- When loading succeeds ----------

  /** Everything created, downloaded, present and readable. */
  predicate Clean(config: Config, w: World) {
    && (forall k | 0 <= k < |Tried(Visited(config))| :: w.create(k))
    && w.download == Fine
    && forall i | 0 <= i < |Made(config, w)| ::
         if w.loaded(i) then w.parses(i) else config.offline || Made(config, w)[i].platform != "noarch"
  }

  lemma {:induction false} NoCreateErrors(n: nat, ok: nat -> bool)
    ensures CreateErrors(n, ok) == [] <==> forall k | 0 <= k < n :: ok(k)
  {
    if n == 0 {
    } else {
      NoCreateErrors(n - 1, ok);
    }
  }

  lemma {:induction false} NoLoadErrors(config: Config, made: seq<Subdir>, w: World, isRetry: bool, n: nat)
    requires n <= |made|
    ensures LoadErrors(config, made, w, isRetry, n) == [] <==>
            forall i | 0 <= i < n ::
              if w.loaded(i) then w.parses(i) || !isRetry else config.offline || made[i].platform != "noarch"
  {
    if n == 0 {
    } else {
      NoLoadErrors(config, made, w, isRetry, n - 1);
    }
  }

  /**
   Loading succeeds exactly when the last attempt is clean. There is a second attempt exactly when the first one,
   online and not interrupted, meets a malformed cache; its errors are then forgotten.
   */
  lemma LoadSucceedsIff(config: Config, w: World, second: World)
    ensures var retried := Malformed(w, |Made(config, w)|) && !config.offline && w.download != Interrupted;
            Load(config, w, second, false).0.Ok? <==> Clean(config, if retried then second else w)
  {
    AttemptSucceedsIff(config, w, second, false);
    AttemptSucceedsIff(config, second, second, true);
  }

  lemma AttemptSucceedsIff(config: Config, w: World, second: World, isRetry: bool)
    ensures isRetry || !Malformed(w, |Made(config, w)|) || config.offline || w.download == Interrupted ==>
            (Load(config, w, second, isRetry).0.Ok? <==> Clean(config, w))
    ensures !isRetry && Malformed(w, |Made(config, w)|) && !config.offline && w.download != Interrupted ==>
            Load(config, w, second, isRetry).0 == Load(config, second, second, true).0
  {
    hide Made, Tried, Visited, CreateErrors, LoadErrors, LoadEvents;
    NoCreateErrors(|Tried(Visited(config))|, w.create);
    NoLoadErrors(config, Made(config, w), w, isRetry, |Made(config, w)|);
  }

  // ---------- What is in the log ----------

  /** Subdirectory `i` causes the event. */
  ghost predicate Causes(config: Config, made: seq<Subdir>, w: World, isRetry: bool, i: nat, e: Event)
    requires i < |made|
  {
    && w.loaded(i) && (w.parses(i) || !isRetry)
    && e == if w.parses(i) then Added(made[i], Priorities(config, made)[i]) else Cleared(made[i])
  }

  lemma {:induction false} LoadEventsOnly(config: Config, made: seq<Subdir>, w: World, isRetry: bool, n: nat, e: Event)
    requires n <= |made|
    ensures e in LoadEvents(config, made, w, isRetry, n) <==>
            exists i :: 0 <= i < n && Causes(config, made, w, isRetry, i, e)
  {
    if n == 0 {
    } else {
      LoadEventsOnly(config, made, w, isRetry, n - 1, e);
      assert e in LoadEvents(config, made, w, isRetry, n) <==>
             e in LoadEvents(config, made, w, isRetry, n - 1) || Causes(config, made, w, isRetry, n - 1, e) by {
        hide Priorities;
      }
      hide Causes, LoadEvents;
    }
  }

  /**
   The log of a load is one attempt, or two with the retry second. Each repository enters the database with the
   priority at its own index, and whatever did not parse has its cache cleared in the first attempt, so before the
   second one starts.
   */
  lemma LogOfLoad(config: Config, w: World, second: World)
    requires w.download != Interrupted
    ensures var made, log := Made(config, w), Load(config, w, second, false).1;
            var first := LoadEvents(config, made, w, false, |made|);
            && (forall i | 0 <= i < |made| && w.loaded(i) && !w.parses(i) :: Cleared(made[i]) in first)
            && (forall i | 0 <= i < |made| && w.loaded(i) && w.parses(i) ::
                  Added(made[i], Priorities(config, made)[i]) in first)
            && (log == [Started(false)] + first
                || (Malformed(w, |made|) && !config.offline
                    && log == [Started(false)] + first + Load(config, second, second, true).1))
  {
    hide Made, Priorities, LoadErrors, EarlyErrors;
    var made := Made(config, w);
    forall i | 0 <= i < |made| && w.loaded(i) && !w.parses(i)
      ensures Cleared(made[i]) in LoadEvents(config, made, w, false, |made|)
    {
      assert Causes(config, made, w, false, i, Cleared(made[i]));
      LoadEventsOnly(config, made, w, false, |made|, Cleared(made[i]));
    }
    forall i | 0 <= i < |made| && w.loaded(i) && w.parses(i)
      ensures Added(made[i], Priorities(config, made)[i]) in LoadEvents(config, made, w, false, |made|)
    {
      assert Causes(config, made, w, false, i, Added(made[i], Priorities(config, made)[i]));
      LoadEventsOnly(config, made, w, false, |made|, Added(made[i], Priorities(config, made)[i]));
    }
  }

  /** The second attempt clears no cache and starts no third one. */
  lemma RetryIsLast(config: Config, w: World, e: Event)
    ensures var log := Load(config, w, w, true).1;
            e in log ==> e == Started(true) || e.Added?
    ensures var log := Load(config, w, w, true).1; forall i | 1 <= i < |log| :: !log[i].Started?
  {
    var made := Made(config, w);
    hide Made, LoadErrors, EarlyErrors, Priorities;
    var events := LoadEvents(config, made, w, true, |made|);
    forall d | d in events ensures d.Added? {
      LoadEventsOnly(config, made, w, true, |made|, d);
    }
    var log := Load(config, w, w, true).1;
    forall i | 1 <= i < |log| ensures !log[i].Started? {
      assert log[i] == events[i - 1];
      assert log[i] in events;
    }
  }

  /** With every creation successful a load asks for each visited channel on each of its platforms, in order, once. */
  lemma LoadsEveryPlatform(config: Config, w: World)
    requires forall k :: w.create(k)
    ensures var channels := Flatten(OfMirrored(config)) + Flatten(OfLocations(config));
            Made(config, w) == Flatten(seq(|channels|, i requires 0 <= i < |channels| => EveryPlatform(channels[i])))
  {
    VisitedAre(config);
    TriedAre(Visited(config));
    EveryCreation(Tried(Visited(config)), w.create);
    hide Flatten, Tried, Visited, Created;
  }

  lemma {:induction false} EveryCreation(tried: seq<Subdir>, ok: nat -> bool)
    requires forall k :: ok(k)
    ensures Created(tried, ok) == tried
  {
    if tried == [] {
    } else {
      EveryCreation(tried[..|tried| - 1], ok);
      assert tried == tried[..|tried| - 1] + [tried[|tried| - 1]];
    }
  }

  /** When everything goes well each of them enters the database, in that order and with its own priority. */
  lemma GoodLoad(config: Config, w: World, second: World)
    requires w.download == Fine && forall k :: w.create(k) && w.loaded(k) && w.parses(k)
    ensures var made := Made(config, w);
            Load(config, w, second, false)
            == (Ok(()), [Started(false)] + seq(|made|, i requires 0 <= i < |made| =>
                                                Added(made[i], Priorities(config, made)[i])))
  {
    hide Made, Priorities, Tried, Visited;
    NoCreateErrors(|Tried(Visited(config))|, w.create);
    GoodEvents(config, Made(config, w), w, |Made(config, w)|);
  }

  lemma {:induction false} GoodEvents(config: Config, made: seq<Subdir>, w: World, n: nat)
    requires n <= |made| && forall k :: w.loaded(k) && w.parses(k)
    ensures LoadErrors(config, made, w, false, n) == []
    ensures LoadEvents(config, made, w, false, n)
         == seq(n, i requires 0 <= i < n => Added(made[i], Priorities(config, made)[i]))
  {
    hide Priorities;
    if n == 0 {
    } else {
      GoodEvents(config, made, w, n - 1);
    }
  }

  /** A download that is interrupted ends the call before anything is loaded. */
  lemma InterruptedLoadsNothing(config: Config, w: World, second: World, isRetry: bool)
    requires w.download == Interrupted
    ensures Load(config, w, second, isRetry).0.Err? && Load(config, w, second, isRetry).1 == [Started(isRetry)]
  {}

  lemma {:induction false} CreateErrorsAre(n: nat, ok: nat -> bool, e: Error)
    ensures e in CreateErrors(n, ok) <==> exists k: nat :: k < n && !ok(k) && e == CreateFailed(k)
  {
    if n == 0 {
    } else {
      CreateErrorsAre(n - 1, ok, e);
    }
  }

  /** Online, a missing noarch subdirectory; in a retry, one that still does not parse. */
  ghost predicate IsLoadError(config: Config, made: seq<Subdir>, w: World, isRetry: bool, n: nat, e: Error)
    requires n <= |made|
  {
    exists i: nat :: i < n &&
      if w.loaded(i) then e == NotParsed(i) && !w.parses(i) && isRetry
      else e == NotLoaded(i) && !config.offline && made[i].platform == "noarch"
  }

  lemma {:induction false} LoadErrorsAre(config: Config, made: seq<Subdir>, w: World, isRetry: bool, n: nat, e: Error)
    requires n <= |made|
    ensures e in LoadErrors(config, made, w, isRetry, n) <==> IsLoadError(config, made, w, isRetry, n, e)
  {
    if n == 0 {
    } else {
      LoadErrorsAre(config, made, w, isRetry, n - 1, e);
    }
  }

  /** Every error an attempt without another one behind it reports. */
  lemma ReportedErrors(config: Config, w: World, second: World, isRetry: bool, e: Error)
    requires Load(config, w, second, isRetry).0.Err?
    requires isRetry || config.offline || !Malformed(w, |Made(config, w)|)
    ensures e in Load(config, w, second, isRetry).0.error <==>
            || (exists k: nat :: k < |Tried(Visited(config))| && !w.create(k) && e == CreateFailed(k))
            || (w.download != Fine && e == DownloadError)
            || (w.download != Interrupted && IsLoadError(config, Made(config, w), w, isRetry, |Made(config, w)|, e))
            || (w.download != Interrupted && !isRetry && Malformed(w, |Made(config, w)|) && e == CacheCorrupted)
  {
    hide Made, Tried, Visited, CreateErrors, LoadErrors, LoadEvents, Malformed;
    CreateErrorsAre(|Tried(Visited(config))|, w.create, e);
    LoadErrorsAre(config, Made(config, w), w, isRetry, |Made(config, w)|, e);
  }
}
