/**
 Which subdirectories a load creates and which priority each gets
 (libmamba/src/api/channel_loader.cpp, create_subdirs and the loops that call it).
 */
module ChannelPriority {
  import opened Strings
  import opened Lists

  /** `url` stands for the channel's main URL; the default-constructed one is "". */
  datatype Channel = Channel(
    id: string, url: string, platforms: seq<string>, isPackage: bool, mirrorUrls: seq<string>)

  datatype Subdir = Subdir(channel: Channel, platform: string)

  /**
   What the loader reads of the context: the mirrored channels in the order of their map, and how a
   location is resolved into channels.
   */
  datatype Config = Config(
    channels: seq<string>, mirrored: seq<(string, seq<string>)>, priorityDisabled: bool, offline: bool,
    resolve: string -> seq<Channel>, resolveMirrored: (string, seq<string>) -> seq<Channel>)

  predicate IsMirrored(config: Config, location: string) {
    exists i :: 0 <= i < |config.mirrored| && config.mirrored[i].0 == location
  }

  // ---------- Which subdirectories are asked for ----------

  function MirroredChannels(config: Config, n: nat): seq<Channel>
    requires n <= |config.mirrored|
  {
    if n == 0 then []
    else MirroredChannels(config, n - 1) + config.resolveMirrored(config.mirrored[n - 1].0, config.mirrored[n - 1].1)
  }

  function NoPackages(channels: seq<Channel>): seq<Channel> {
    if channels == [] then []
    else NoPackages(channels[..|channels| - 1])
         + if channels[|channels| - 1].isPackage then [] else [channels[|channels| - 1]]
  }

  /** Channels of the first `n` locations that are not mirrored. */
  function PlainChannels(config: Config, n: nat): seq<Channel>
    requires n <= |config.channels|
  {
    if n == 0 then []
    else PlainChannels(config, n - 1)
         + if IsMirrored(config, config.channels[n - 1]) then [] else NoPackages(config.resolve(config.channels[n - 1]))
  }

  function Visited(config: Config): seq<Channel> {
    MirroredChannels(config, |config.mirrored|) + PlainChannels(config, |config.channels|)
  }

  function PlatformSubdirs(channel: Channel, n: nat): seq<Subdir>
    requires n <= |channel.platforms|
  {
    if n == 0 then [] else PlatformSubdirs(channel, n - 1) + [Subdir(channel, channel.platforms[n - 1])]
  }

  /** Every subdirectory creation that is tried, in order. */
  function Tried(channels: seq<Channel>): seq<Subdir> {
    if channels == [] then []
    else
      var last := channels[|channels| - 1];
      Tried(channels[..|channels| - 1]) + PlatformSubdirs(last, |last.platforms|)
  }

  /** Those whose creation succeeds: `ok(k)` is the outcome of the k-th try. */
  function Created(tried: seq<Subdir>, ok: nat -> bool): seq<Subdir> {
    if tried == [] then []
    else Created(tried[..|tried| - 1], ok) + if ok(|tried| - 1) then [tried[|tried| - 1]] else []
  }

  function Urls(subdirs: seq<Subdir>): (r: seq<string>)
    ensures |r| == |subdirs| && forall i | 0 <= i < |subdirs| :: r[i] == subdirs[i].channel.url
  {
    seq(|subdirs|, i requires 0 <= i < |subdirs| => subdirs[i].channel.url)
  }

  // ---------- Every platform of every channel ----------

  /** The subdirectory of each platform, in the order the channel lists them. */
  lemma {:induction false} PlatformsInOrder(channel: Channel, n: nat)
    requires n <= |channel.platforms|
    ensures |PlatformSubdirs(channel, n)| == n
    ensures forall k | 0 <= k < n :: PlatformSubdirs(channel, n)[k] == Subdir(channel, channel.platforms[k])
  {
    if n == 0 {
    } else {
      PlatformsInOrder(channel, n - 1);
    }
  }

  function EveryPlatform(channel: Channel): seq<Subdir> {
    seq(|channel.platforms|, k requires 0 <= k < |channel.platforms| => Subdir(channel, channel.platforms[k]))
  }

  /** A channel that is asked for: every channel of a mirrored name; of a location, none if it has a mirror, no packages. */
  function OfMirrored(config: Config): seq<seq<Channel>> {
    seq(|config.mirrored|, m requires 0 <= m < |config.mirrored| =>
      config.resolveMirrored(config.mirrored[m].0, config.mirrored[m].1))
  }

  function OfLocations(config: Config): seq<seq<Channel>> {
    seq(|config.channels|, j requires 0 <= j < |config.channels| =>
      if exists m :: 0 <= m < |config.mirrored| && config.mirrored[m].0 == config.channels[j] then []
      else Flatten(NonPackages(config.resolve(config.channels[j]))))
  }

  function NonPackages(channels: seq<Channel>): seq<seq<Channel>> {
    seq(|channels|, i requires 0 <= i < |channels| => if channels[i].isPackage then [] else [channels[i]])
  }

  lemma {:induction false} NoPackagesAre(channels: seq<Channel>)
    ensures NoPackages(channels) == Flatten(NonPackages(channels))
  {
    if channels == [] {
    } else {
      var n := |channels| - 1;
      NoPackagesAre(channels[..n]);
      assert NonPackages(channels)[..n] == NonPackages(channels[..n]);
    }
  }

  lemma {:induction false} MirroredAre(config: Config, n: nat)
    requires n <= |config.mirrored|
    ensures MirroredChannels(config, n) == Flatten(OfMirrored(config)[..n])
  {
    if n == 0 {
    } else {
      MirroredAre(config, n - 1);
      FlattenStep(OfMirrored(config), n - 1);
    }
  }

  lemma {:induction false} PlainAre(config: Config, n: nat)
    requires n <= |config.channels|
    ensures PlainChannels(config, n) == Flatten(OfLocations(config)[..n])
  {
    hide NoPackages, Flatten;
    if n == 0 {
      NothingFlat();
    } else {
      PlainAre(config, n - 1);
      FlattenStep(OfLocations(config), n - 1);
      NoPackagesAre(config.resolve(config.channels[n - 1]));
    }
  }

  lemma NothingFlat()
    ensures Flatten<Channel>([]) == []
  {}

  /** First the mirrored names, then the locations without a mirror, each in its order. */
  lemma VisitedAre(config: Config)
    ensures Visited(config) == Flatten(OfMirrored(config)) + Flatten(OfLocations(config))
  {
    hide MirroredChannels, PlainChannels, Flatten;
    MirroredAre(config, |config.mirrored|);
    PlainAre(config, |config.channels|);
    assert OfMirrored(config)[..|config.mirrored|] == OfMirrored(config);
    assert OfLocations(config)[..|config.channels|] == OfLocations(config);
  }

  lemma {:induction false} TriedAre(channels: seq<Channel>)
    ensures Tried(channels) == Flatten(seq(|channels|, i requires 0 <= i < |channels| => EveryPlatform(channels[i])))
  {
    hide PlatformSubdirs;
    if channels == [] {
    } else {
      var n := |channels| - 1;
      var parts := seq(|channels|, i requires 0 <= i < |channels| => EveryPlatform(channels[i]));
      var front := channels[..n];
      TriedAre(front);
      assert parts[..n] == seq(|front|, i requires 0 <= i < |front| => EveryPlatform(front[i]));
      PlatformsInOrder(channels[n], |channels[n].platforms|);
      assert PlatformSubdirs(channels[n], |channels[n].platforms|) == EveryPlatform(channels[n]);
    }
  }

  lemma {:induction false} CreatedAre(tried: seq<Subdir>, ok: nat -> bool)
    ensures Created(tried, ok)
         == Flatten(seq(|tried|, k requires 0 <= k < |tried| => if ok(k) then [tried[k]] else []))
  {
    if tried == [] {
    } else {
      var n := |tried| - 1;
      var parts := seq(|tried|, k requires 0 <= k < |tried| => if ok(k) then [tried[k]] else []);
      CreatedAre(tried[..n], ok);
      assert parts[..n] == seq(n, k requires 0 <= k < n => if ok(k) then [tried[..n][k]] else []);
    }
  }

  // ---------- Priorities ----------

  /** Entry `j` starts a new run of equal URLs; before the first stands the empty URL. */
  predicate StartsRun(urls: seq<string>, j: nat)
    requires j < |urls|
  {
    urls[j] != if j == 0 then "" else urls[j - 1]
  }

  /** The number of runs among the first `n` URLs. */
  function Runs(urls: seq<string>, n: nat): nat
    requires n <= |urls|
  {
    |set j: nat | j < n && StartsRun(urls, j)|
  }

  lemma RunsStep(urls: seq<string>, n: nat)
    requires n < |urls|
    ensures Runs(urls, n + 1) == Runs(urls, n) + if StartsRun(urls, n) then 1 else 0
  {
    var before := set j: nat | j < n && StartsRun(urls, j);
    var after := set j: nat | j < n + 1 && StartsRun(urls, j);
    assert after == before + if StartsRun(urls, n) then {n} else {};
  }

  /** The runs of a list do not depend on what comes behind it. */
  lemma RunsPrefix(urls: seq<string>, more: seq<string>, n: nat)
    requires n <= |urls|
    ensures Runs(urls + more, n) == Runs(urls, n)
  {
    assert (set j: nat | j < n && StartsRun(urls + more, j)) == set j: nat | j < n && StartsRun(urls, j);
  }

  /** With `total` channels configured, entry `i` gets the total less the runs up to it. */
  function PriorityAt(total: int, urls: seq<string>, i: nat): int
    requires i < |urls|
  {
    total - Runs(urls, i + 1)
  }

  function Priorities(config: Config, subdirs: seq<Subdir>): (r: seq<int>)
    ensures |r| == |subdirs|
    ensures forall i | 0 <= i < |subdirs| ::
              r[i] == if config.priorityDisabled then 0 else PriorityAt(|config.channels|, Urls(subdirs), i)
  {
    seq(|subdirs|, i requires 0 <= i < |subdirs| =>
      if config.priorityDisabled then 0 else PriorityAt(|config.channels|, Urls(subdirs), i))
  }

  /** The first subdirectory has one less than there are channels; without priorities all have none. */
  lemma FirstPriority(config: Config, subdirs: seq<Subdir>)
    requires subdirs != [] && subdirs[0].channel.url != ""
    ensures !config.priorityDisabled ==> Priorities(config, subdirs)[0] == |config.channels| - 1
    ensures config.priorityDisabled ==> forall i | 0 <= i < |subdirs| :: Priorities(config, subdirs)[i] == 0
  {
    var urls := Urls(subdirs);
    assert (set j: nat | j < 1 && StartsRun(urls, j)) == {0};
  }

  /** Priorities never rise, and drop by one exactly where the URL changes. */
  lemma PriorityDropsWithUrl(config: Config, subdirs: seq<Subdir>, i: nat)
    requires !config.priorityDisabled && i + 1 < |subdirs|
    ensures Priorities(config, subdirs)[i + 1]
         == Priorities(config, subdirs)[i] - if subdirs[i].channel.url != subdirs[i + 1].channel.url then 1 else 0
  {
    RunsStep(Urls(subdirs), i + 1);
  }

  lemma {:induction false} PriorityOrder(config: Config, subdirs: seq<Subdir>, i: nat, j: nat)
    requires !config.priorityDisabled && i <= j < |subdirs|
    ensures Priorities(config, subdirs)[j] <= Priorities(config, subdirs)[i]
    ensures Priorities(config, subdirs)[j] == Priorities(config, subdirs)[i] <==>
            forall k | i <= k < j :: subdirs[k].channel.url == subdirs[k + 1].channel.url
    decreases j
  {
    hide Runs, Urls;
    if i < j {
      PriorityOrder(config, subdirs, i, j - 1);
      PriorityDropsWithUrl(config, subdirs, j - 1);
    }
  }

  // ---------- The priorities stay above zero ----------

  lemma CreatedStep(tried: seq<Subdir>, ok: nat -> bool, s: Subdir)
    ensures Created(tried + [s], ok) == Created(tried, ok) + if ok(|tried|) then [s] else []
  {
    assert (tried + [s])[..|tried|] == tried;
  }

  function LastUrl(urls: seq<string>): string {
    if urls == [] then "" else urls[|urls| - 1]
  }

  lemma RunsAppend(urls: seq<string>, u: string)
    ensures Runs(urls + [u], |urls| + 1) == Runs(urls, |urls|) + if u != LastUrl(urls) then 1 else 0
  {
    RunsStep(urls + [u], |urls|);
    RunsPrefix(urls, [u], |urls|);
  }

  lemma UrlsAppend(subdirs: seq<Subdir>, s: Subdir)
    ensures Urls(subdirs + [s]) == Urls(subdirs) + [s.channel.url]
  {}

  /** The list that leaves something out has at most the runs of the full one, and one less if its end differs. */
  predicate FewerRuns(made: seq<string>, all: seq<string>) {
    Runs(made, |made|) + (if LastUrl(made) != LastUrl(all) then 1 else 0) <= Runs(all, |all|)
  }

  lemma FewerRunsStep(made: seq<string>, all: seq<string>, u: string)
    requires FewerRuns(made, all)
    ensures FewerRuns(made + [u], all + [u]) && FewerRuns(made, all + [u])
  {
    hide Runs;
    RunsAppend(all, u);
    RunsAppend(made, u);
  }

  lemma RunsNone(urls: seq<string>)
    ensures Runs(urls, 0) == 0
  {}

  /**
   Leaving subdirectories out merges runs, and never splits one: a failed creation costs no priority.
   */
  lemma {:induction false} FailuresMakeNoRuns(tried: seq<Subdir>, ok: nat -> bool)
    ensures FewerRuns(Urls(Created(tried, ok)), Urls(tried))
    decreases |tried|
  {
    if tried == [] {
      RunsNone([]);
      assert Urls([]) == [];
    } else {
      hide Created, FewerRuns;
      var n := |tried| - 1;
      var before, s := tried[..n], tried[n];
      FailuresMakeNoRuns(before, ok);
      assert tried == before + [s];
      CreatedStep(before, ok, s);
      UrlsAppend(before, s);
      UrlsAppend(Created(before, ok), s);
      FewerRunsStep(Urls(Created(before, ok)), Urls(before), s.channel.url);
      if ok(n) {
        assert Created(tried, ok) == Created(before, ok) + [s];
      } else {
        assert Created(tried, ok) == Created(before, ok);
      }
    }
  }

  function AllOk(): nat -> bool {
    _ => true
  }

  lemma AllCreated(tried: seq<Subdir>)
    ensures Created(tried, AllOk()) == tried
  {
    if tried == [] {
    } else {
      AllCreated(tried[..|tried| - 1]);
    }
  }

  predicate NoNegative(config: Config, subdirs: seq<Subdir>) {
    forall i | 0 <= i < |subdirs| :: Priorities(config, subdirs)[i] >= 0
  }

  lemma NoNegativeIffRuns(config: Config, subdirs: seq<Subdir>)
    requires !config.priorityDisabled
    ensures NoNegative(config, subdirs) <==> Runs(Urls(subdirs), |subdirs|) <= |config.channels|
  {
    var urls, total := Urls(subdirs), |config.channels|;
    if subdirs == [] {
      RunsNone(urls);
    } else {
      hide Runs;
      var last := |subdirs| - 1;
      assert Priorities(config, subdirs)[last] == total - Runs(urls, last + 1);
      forall i | 0 <= i < |subdirs| ensures Priorities(config, subdirs)[i] >= Priorities(config, subdirs)[last] {
        PriorityOrder(config, subdirs, i, last);
      }
    }
  }

  ghost predicate NeverNegative(config: Config) {
    forall ok: nat -> bool :: NoNegative(config, Created(Tried(Visited(config)), ok))
  }

  /**
   No priority is negative, whichever creations fail, exactly when the resolved list of subdirectories has
   no more runs of equal URLs than there are configured channels.
   */
  lemma NeverNegativeIff(config: Config)
    requires !config.priorityDisabled
    ensures var urls := Urls(Tried(Visited(config))); NeverNegative(config) <==> Runs(urls, |urls|) <= |config.channels|
  {
    hide Tried, Visited, Runs, Created;
    var tried := Tried(Visited(config));
    AllCreated(tried);
    NoNegativeIffRuns(config, tried);
    assert NeverNegative(config) ==> NoNegative(config, Created(tried, AllOk()));
    if Runs(Urls(tried), |tried|) <= |config.channels| {
      forall ok: nat -> bool ensures NoNegative(config, Created(tried, ok)) {
        FailuresMakeNoRuns(tried, ok);
        NoNegativeIffRuns(config, Created(tried, ok));
      }
    }
  }

  /** A location "defaults" that stands for the channels `a` and `b`. */
  function MultiChannel(a: Channel, b: Channel): Config {
    Config(["defaults"], [], false, false, _ => [a, b], (_, _) => [])
  }

  lemma MultiChannelTried(a: Channel, b: Channel)
    requires a.platforms == b.platforms == ["noarch"] && !a.isPackage && !b.isPackage
    ensures Tried(Visited(MultiChannel(a, b))) == [Subdir(a, "noarch"), Subdir(b, "noarch")]
  {
    var config := MultiChannel(a, b);
    assert [a, b][..1] == [a] && [a][..0] == [];
    assert NoPackages([a]) == NoPackages([]) + [a];
    assert NoPackages([a, b]) == NoPackages([a]) + [b];
    assert !IsMirrored(config, "defaults");
    assert PlainChannels(config, 1) == PlainChannels(config, 0) + [a, b];
    assert Visited(config) == [a, b];
    assert PlatformSubdirs(a, 1) == [Subdir(a, "noarch")] && PlatformSubdirs(b, 1) == [Subdir(b, "noarch")];
    assert Tried([a]) == Tried([]) + [Subdir(a, "noarch")];
  }

  /** One multi-channel of two URLs is enough for a priority below zero. */
  lemma MultiChannelGoesNegative(a: Channel, b: Channel)
    requires a.platforms == b.platforms == ["noarch"] && !a.isPackage && !b.isPackage
    requires a.url != b.url && a.url != ""
    ensures var config := MultiChannel(a, b);
            Priorities(config, Created(Tried(Visited(config)), AllOk())) == [0, -1]
  {
    hide Tried, Visited, Created, Runs;
    MultiChannelTried(a, b);
    var subdirs := [Subdir(a, "noarch"), Subdir(b, "noarch")];
    AllCreated(subdirs);
    var urls := Urls(subdirs);
    RunsNone(urls);
    RunsStep(urls, 0);
    RunsStep(urls, 1);
  }

  // ---------- Enough priorities when each location is one channel ----------

  lemma {:induction false} PlatformsAddOneRun(tried: seq<Subdir>, c: Channel, k: nat)
    requires k <= |c.platforms|
    ensures var urls := Urls(tried + PlatformSubdirs(c, k));
            Runs(urls, |urls|) <= Runs(Urls(tried), |tried|) + (if k > 0 then 1 else 0)
            && (k > 0 ==> LastUrl(urls) == c.url)
  {
    if k == 0 {
      assert tried + PlatformSubdirs(c, 0) == tried;
    } else {
      hide Runs;
      PlatformsAddOneRun(tried, c, k - 1);
      var before, s := tried + PlatformSubdirs(c, k - 1), Subdir(c, c.platforms[k - 1]);
      assert tried + PlatformSubdirs(c, k) == before + [s];
      UrlsAppend(before, s);
      RunsAppend(Urls(before), c.url);
      if k == 1 {
        assert before == tried;
      }
    }
  }

  lemma {:induction false} RunsAtMostChannels(channels: seq<Channel>)
    ensures var urls := Urls(Tried(channels)); Runs(urls, |urls|) <= |channels|
  {
    if channels == [] {
      RunsNone([]);
      assert Urls([]) == [];
    } else {
      hide Runs, Urls;
      var n := |channels| - 1;
      RunsAtMostChannels(channels[..n]);
      PlatformsAddOneRun(Tried(channels[..n]), channels[n], |channels[n].platforms|);
      assert |Urls(Tried(channels[..n]))| == |Tried(channels[..n])|;
    }
  }

  /** Positions whose location is one of the first `m` mirrored channels. */
  ghost function MirroredPositions(config: Config, m: nat, n: nat): set<nat>
    requires m <= |config.mirrored| && n <= |config.channels|
  {
    set j: nat | j < n && exists i :: 0 <= i < m && config.mirrored[i].0 == config.channels[j]
  }

  predicate OneChannelEach(config: Config) {
    && (forall i | 0 <= i < |config.mirrored| :: |config.resolveMirrored(config.mirrored[i].0, config.mirrored[i].1)| <= 1)
    && (forall j | 0 <= j < |config.channels| :: |config.resolve(config.channels[j])| <= 1)
  }

  /** The keys of a map are distinct, and each is the name of a configured channel. */
  predicate MirroredConfigured(config: Config) {
    && (forall i, k | 0 <= i < k < |config.mirrored| :: config.mirrored[i].0 != config.mirrored[k].0)
    && (forall i | 0 <= i < |config.mirrored| :: config.mirrored[i].0 in config.channels)
  }

  lemma {:induction false} EveryMirrorHasPosition(config: Config, m: nat)
    requires MirroredConfigured(config) && m <= |config.mirrored|
    ensures |MirroredPositions(config, m, |config.channels|)| >= m
  {
    if m == 0 {
    } else {
      EveryMirrorHasPosition(config, m - 1);
      var n := |config.channels|;
      var before, after := MirroredPositions(config, m - 1, n), MirroredPositions(config, m, n);
      var key := config.mirrored[m - 1].0;
      assert key in config.channels;
      var j :| 0 <= j < n && config.channels[j] == key;
      assert j !in before;
      assert before + {j} <= after;
      SubsetSize(before + {j}, after);
    }
  }

  lemma SubsetSize(a: set<nat>, b: set<nat>)
    requires a <= b
    ensures |a| <= |b|
  {
    assert b == a + (b - a);
  }

  lemma {:induction false} MirroredCount(config: Config, n: nat)
    requires OneChannelEach(config) && n <= |config.mirrored|
    ensures |MirroredChannels(config, n)| <= n
  {
    if n == 0 {
    } else {
      MirroredCount(config, n - 1);
    }
  }

  lemma NoPackagesShrinks(channels: seq<Channel>)
    ensures |NoPackages(channels)| <= |channels|
  {}

  lemma OnePositionMore(config: Config, n: nat)
    requires 0 < n <= |config.channels|
    ensures |MirroredPositions(config, |config.mirrored|, n)|
         == |MirroredPositions(config, |config.mirrored|, n - 1)|
            + if IsMirrored(config, config.channels[n - 1]) then 1 else 0
  {
    var all := |config.mirrored|;
    var before, after := MirroredPositions(config, all, n - 1), MirroredPositions(config, all, n);
    assert after == before + if IsMirrored(config, config.channels[n - 1]) then {n - 1} else {};
  }

  lemma {:induction false} PlainCount(config: Config, n: nat)
    requires OneChannelEach(config) && n <= |config.channels|
    ensures |PlainChannels(config, n)| + |MirroredPositions(config, |config.mirrored|, n)| <= n
  {
    var all := |config.mirrored|;
    if n == 0 {
      assert MirroredPositions(config, all, 0) == {};
    } else {
      hide NoPackages, MirroredPositions, IsMirrored;
      PlainCount(config, n - 1);
      OnePositionMore(config, n);
      NoPackagesShrinks(config.resolve(config.channels[n - 1]));
    }
  }

  /** With one channel for each location and every mirrored channel configured, no priority is negative. */
  lemma SingleChannelsNeverNegative(config: Config)
    requires !config.priorityDisabled && OneChannelEach(config) && MirroredConfigured(config)
    ensures NeverNegative(config)
  {
    hide Runs, Urls, Tried, NeverNegative, MirroredPositions, OneChannelEach, MirroredConfigured;
    RunsAtMostChannels(Visited(config));
    MirroredCount(config, |config.mirrored|);
    PlainCount(config, |config.channels|);
    EveryMirrorHasPosition(config, |config.mirrored|);
    NeverNegativeIff(config);
  }

  // ---------- A second attempt with the spec channels pushed again ----------

  lemma TriedStep(channels: seq<Channel>, last: Channel)
    ensures Tried(channels + [last]) == Tried(channels) + PlatformSubdirs(last, |last.platforms|)
  {
    hide PlatformSubdirs;
    assert (channels + [last])[..|channels|] == channels;
  }

  lemma {:induction false} TriedConcat(a: seq<Channel>, b: seq<Channel>)
    ensures Tried(a + b) == Tried(a) + Tried(b)
  {
    hide Tried, PlatformSubdirs;
    if b == [] {
      assert a + b == a;
      TriedNothing();
    } else {
      var n := |b| - 1;
      TriedConcat(a, b[..n]);
      assert a + b == a + b[..n] + [b[n]] && b == b[..n] + [b[n]];
      TriedStep(a + b[..n], b[n]);
      TriedStep(b[..n], b[n]);
      SeqAssoc(Tried(a), Tried(b[..n]), PlatformSubdirs(b[n], |b[n].platforms|));
    }
  }

  lemma TriedNothing()
    ensures Tried([]) == []
  {}

  lemma {:induction false} CreatedPrefix(a: seq<Subdir>, b: seq<Subdir>, ok: nat -> bool)
    ensures Created(a, ok) <= Created(a + b, ok)
  {
    if b == [] {
      assert a + b == a;
    } else {
      var n := |b| - 1;
      CreatedPrefix(a, b[..n], ok);
      assert (a + b)[..|a| + n] == a + b[..n];
    }
  }

  lemma {:induction false} PlainChannelsPrefix(config: Config, more: seq<string>, n: nat)
    requires n <= |config.channels|
    ensures PlainChannels(config.(channels := config.channels + more), n) == PlainChannels(config, n)
  {
    hide NoPackages;
    if n == 0 {
    } else {
      PlainChannelsPrefix(config, more, n - 1);
      SameMirrored(config, more, config.channels[n - 1]);
      hide IsMirrored;
    }
  }

  lemma SameMirrored(config: Config, more: seq<string>, location: string)
    ensures IsMirrored(config.(channels := config.channels + more), location) == IsMirrored(config, location)
  {}

  lemma {:induction false} MirroredChannelsSame(config: Config, more: seq<string>, n: nat)
    requires n <= |config.mirrored|
    ensures MirroredChannels(config.(channels := config.channels + more), n) == MirroredChannels(config, n)
  {
    if n == 0 {
    } else {
      MirroredChannelsSame(config, more, n - 1);
    }
  }

  lemma {:induction false} PlainChannelsGrow(config: Config, n: nat)
    requires n <= |config.channels|
    ensures PlainChannels(config, n) <= PlainChannels(config, |config.channels|)
    decreases |config.channels| - n
  {
    hide PlainChannels;
    if n == |config.channels| {
    } else {
      OneLocationMore(config, n);
      PlainChannelsGrow(config, n + 1);
    }
  }

  lemma OneLocationMore(config: Config, n: nat)
    requires n < |config.channels|
    ensures PlainChannels(config, n) <= PlainChannels(config, n + 1)
  {
    hide NoPackages, IsMirrored;
  }

  /** More channels at the end of the list only add channels at the end of the visit. */
  lemma VisitedGrows(config: Config, more: seq<string>)
    ensures Visited(config) <= Visited(config.(channels := config.channels + more))
  {
    var wider := config.(channels := config.channels + more);
    PlainChannelsPrefix(config, more, |config.channels|);
    MirroredChannelsSame(config, more, |config.mirrored|);
    PlainChannelsGrow(wider, |config.channels|);
  }

  /**
   When the same channels are pushed again and the creations turn out as before, every subdirectory of the first
   load is there again at the same index, with its priority raised by the number of channels pushed.
   */
  lemma RetryShiftsPriorities(config: Config, more: seq<string>, ok: nat -> bool)
    requires !config.priorityDisabled
    ensures var wider := config.(channels := config.channels + more);
            var first, second := Created(Tried(Visited(config)), ok), Created(Tried(Visited(wider)), ok);
            && first <= second
            && forall i | 0 <= i < |first| :: Priorities(wider, second)[i] == Priorities(config, first)[i] + |more|
  {
    hide Visited, Tried, Created, Runs;
    var wider := config.(channels := config.channels + more);
    VisitedGrows(config, more);
    var a, b := Visited(config), Visited(wider)[|Visited(config)|..];
    assert Visited(wider) == a + b;
    TriedConcat(a, b);
    CreatedPrefix(Tried(a), Tried(b), ok);
    var first, second := Created(Tried(a), ok), Created(Tried(a + b), ok);
    forall i | 0 <= i < |first| ensures Priorities(wider, second)[i] == Priorities(config, first)[i] + |more| {
      assert Urls(second) == Urls(first) + Urls(second[|first|..]);
      RunsPrefix(Urls(first), Urls(second[|first|..]), i + 1);
    }
  }
}
