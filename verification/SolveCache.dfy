/**
 The solve service of micromamba/src/server.cpp: a time-limited cache of package pools, keyed by the
 joined channel names and the platform.
 */
module SolveCache {
  import opened Outcomes
  import opened Strings
  import opened Lists
  import opened MatchSpecs

  /** Thirty minutes in nanoseconds. */
  const LIMIT: int := 30 * 60 * 1_000_000_000

  datatype Error = LoadFailed | PrepareFailed | SolveFailed

  /**
   A parsed request with what the outside does while it is served: the clock when the entry's age is tested and
   when a new entry is stamped, and whether loading, preparing the virtual packages, or solving raises.
   */
  datatype Request = Request(
    specs: seq<string>, channels: seq<string>, platform: string,
    testedAt: int, stampedAt: int, loadFails: bool, prepareFails: bool, solveFails: bool)

  /** The channels asked for, then those the specs carry. */
  function AllChannels(q: Request, channelOf: string -> Option<string>): seq<string> {
    q.channels + SpecChannels(q.specs, channelOf)
  }

  function Key(channels: seq<string>, platform: string): string {
    Join(channels, ", ") + ", " + platform
  }

  // ---------- What a request does ----------

  /** A cached pool as seen from outside; `leaks` counts the temporary installed repos left in it. */
  datatype View = View(channels: seq<string>, platform: string, loadedAt: int, leaks: nat)

  type Cache = map<string, View>

  predicate NeedsLoad(cache: Cache, key: string, now: int) {
    key !in cache || now - cache[key].loadedAt > LIMIT
  }

  function Loaded(cache: Cache, key: string, channels: seq<string>, q: Request): View {
    if NeedsLoad(cache, key, q.testedAt) then View(channels, q.platform, q.stampedAt, 0) else cache[key]
  }

  function Answer(cache: Cache, key: string, channels: seq<string>, q: Request): (Result<View, Error>, Cache) {
    if NeedsLoad(cache, key, q.testedAt) && q.loadFails then (Err(LoadFailed), cache)
    else
      var view := Loaded(cache, key, channels, q);
      if q.prepareFails then (Err(PrepareFailed), cache[key := view])
      else if q.solveFails then (Err(SolveFailed), cache[key := view.(leaks := view.leaks + 1)])
      else (Ok(view), cache[key := view])
  }

  function Serve(cache: Cache, q: Request, channelOf: string -> Option<string>): (Result<View, Error>, Cache) {
    var channels := AllChannels(q, channelOf);
    Answer(cache, Key(channels, q.platform), channels, q)
  }

  // ---------- The service, step by step ----------

  class Pool {
    const channels: seq<string>
    const platform: string
    var repos: set<nat>
    var nextId: nat

    ghost predicate Valid()
      reads this
    {
      forall id | id in repos :: id < nextId
    }

    constructor (channels: seq<string>, platform: string)
      ensures Valid() && this.channels == channels && this.platform == platform && repos == {}
    {
      this.channels, this.platform, repos, nextId := channels, platform, {}, 0;
    }

    /** The repo of installed packages that one request brings, under a number of its own. */
    method AddInstalled() returns (id: nat)
      requires Valid()
      modifies this
      ensures Valid() && id !in old(repos) && repos == old(repos) + {id}
    {
      id := nextId;
      repos := repos + {id};
      nextId := nextId + 1;
    }

    method RemoveRepo(id: nat)
      requires Valid()
      modifies this
      ensures Valid() && repos == old(repos) - {id}
    {
      repos := repos - {id};
    }
  }

  /** The pool itself is shared: what a request leaves in it, later requests find. */
  datatype Entry = Entry(pool: Pool, lastUpdate: int)

  /** The program-wide context, which every request overwrites. */
  class Context {
    var channels: seq<string>
    var platform: string

    constructor ()
    {
      channels, platform := [], "";
    }
  }

  class Service {
    var entries: map<string, Entry>

    ghost function Pools(): set<Pool>
      reads this
    {
      set key | key in entries :: entries[key].pool
    }

    ghost predicate Valid()
      reads this, Pools()
    {
      && (forall key | key in entries :: entries[key].pool.Valid())
      && forall k, l | k in entries && l in entries && k != l :: entries[k].pool != entries[l].pool
    }

    ghost function ViewOf(e: Entry): View
      reads e.pool
    {
      View(e.pool.channels, e.pool.platform, e.lastUpdate, |e.pool.repos|)
    }

    ghost function Views(): Cache
      reads this, Pools()
    {
      map key | key in entries :: ViewOf(entries[key])
    }

    constructor ()
      ensures Valid() && Views() == map[]
    {
      entries := map[];
    }

    /** insert_or_assign of a freshly loaded pool. */
    method Reload(key: string, channels: seq<string>, platform: string, now: int)
      requires Valid()
      modifies this`entries
      ensures Valid() && key in entries && fresh(entries[key].pool) && entries == old(entries)[key := entries[key]]
      ensures Views() == old(Views())[key := View(channels, platform, now, 0)]
    {
      var pool := new Pool(channels, platform);
      entries := entries[key := Entry(pool, now)];
    }

    /** Solving on the shared pool of an entry. */
    method Solve(key: string, q: Request) returns (ok: bool)
      requires Valid() && key in entries
      modifies entries[key].pool
      ensures Valid() && ok == !q.solveFails && ViewOf(entries[key]) == Views()[key]
      ensures !q.solveFails ==> Views() == old(Views())
      ensures q.solveFails ==>
                Views() == old(Views())[key := old(Views())[key].(leaks := old(Views())[key].leaks + 1)]
    {
      var pool := entries[key].pool;
      var installed := pool.AddInstalled();
      if q.solveFails {
        return false;
      }
      pool.RemoveRepo(installed);
      assert pool.repos == old(pool.repos);
      return true;
    }

    /** The entry under the key, loaded anew when there is none or it is too old. */
    method Obtain(key: string, channels: seq<string>, q: Request)
      requires Valid() && (NeedsLoad(Views(), key, q.testedAt) ==> !q.loadFails)
      modifies this`entries
      ensures Valid() && key in entries && (entries[key].pool in old(Pools()) || fresh(entries[key].pool))
      ensures Views() == old(Views())[key := Loaded(old(Views()), key, channels, q)]
    {
      if key !in entries || q.testedAt - entries[key].lastUpdate > LIMIT {
        Reload(key, channels, q.platform, q.stampedAt);
      }
    }

    method Respond(key: string, channels: seq<string>, q: Request) returns (r: Result<Entry, Error>)
      requires Valid() && (NeedsLoad(Views(), key, q.testedAt) ==> !q.loadFails)
      modifies this, Pools()
      ensures Valid() && Views() == Answer(old(Views()), key, channels, q).1
      ensures if q.prepareFails then r == Err(PrepareFailed)
              else if q.solveFails then r == Err(SolveFailed)
              else r.Ok? && ViewOf(r.value) == Loaded(old(Views()), key, channels, q)
    {
      hide Loaded;
      ghost var before := Views();
      Obtain(key, channels, q);
      if q.prepareFails {
        return Err(PrepareFailed);
      }
      ghost var view := Views()[key];
      UpdateTwice(before, key, view, view.(leaks := view.leaks + 1));
      var solved := Solve(key, q);
      if !solved {
        return Err(SolveFailed);
      }
      return Ok(entries[key]);
    }

    method Handle(context: Context, q: Request, channelOf: string -> Option<string>) returns (r: Result<Entry, Error>)
      requires Valid()
      modifies context, this, Pools()
      ensures Valid() && context.platform == q.platform
      ensures context.channels == if NeedsLoad(old(Views()), Key(AllChannels(q, channelOf), q.platform), q.testedAt)
                                  then AllChannels(q, channelOf) else old(context.channels)
      ensures var (answer, cache) := Serve(old(Views()), q, channelOf);
              && Views() == cache
              && (if answer.Ok? then r.Ok? && ViewOf(r.value) == answer.value else r == Err(answer.error))
    {
      hide Key, AllChannels, Loaded, Valid;
      context.platform := q.platform;
      var channels := CollectChannels(q, channelOf);
      var key := Key(channels, q.platform);
      if key !in entries || q.testedAt - entries[key].lastUpdate > LIMIT {
        context.channels := channels;
        if q.loadFails {
          return Err(LoadFailed);
        }
      }
      r := Respond(key, channels, q);
    }

    method CollectChannels(q: Request, channelOf: string -> Option<string>) returns (channels: seq<string>)
      ensures channels == AllChannels(q, channelOf)
    {
      channels := q.channels;
      for n := 0 to |q.specs|
        invariant channels == q.channels + SpecChannels(q.specs[..n], channelOf)
      {
        assert q.specs[..n + 1][..n] == q.specs[..n];
        match channelOf(q.specs[n])
        case None =>
        case Some(c) => channels := channels + [c];
      }
      assert q.specs[..|q.specs|] == q.specs;
    }
  }

  lemma UpdateTwice(cache: Cache, key: string, v: View, w: View)
    ensures cache[key := v][key := w] == cache[key := w] && cache[key := v][key] == v
  {}

  // ---------- Keys ----------

  /** A name that does not look like two joined names. */
  predicate PlainName(name: string) {
    !Contains(name, ", ")
  }

  predicate PlainNames(channels: seq<string>, platform: string) {
    PlainName(platform) && forall i | 0 <= i < |channels| :: PlainName(channels[i])
  }

  /** The two lists that no key tells apart: none, and one with an empty name. */
  function Listed(channels: seq<string>): seq<string> {
    if channels == [] then [""] else channels
  }

  lemma KeyIsJoin(channels: seq<string>, platform: string)
    ensures Key(channels, platform) == Join(Listed(channels) + [platform], ", ")
  {
    JoinConcat(Listed(channels), [platform], ", ");
    assert Join([], ", ") == Join([""], ", ");
  }

  /** What a key can tell of a request: the names, cut at every comma and space. */
  function KeyPieces(channels: seq<string>, platform: string): seq<string> {
    Pieces(Listed(channels) + [platform], ", ")
  }

  /** For all names: two requests share a key exactly when their names are cut into the same pieces. */
  lemma SameKeyIff(c: seq<string>, p: string, d: seq<string>, q: string)
    ensures Key(c, p) == Key(d, q) <==> KeyPieces(c, p) == KeyPieces(d, q)
  {
    hide Key, Pieces, Join, Separable, Contains;
    KeyIsJoin(c, p);
    KeyIsJoin(d, q);
    JoinPieces(Listed(c) + [p], ", ");
    JoinPieces(Listed(d) + [q], ", ");
    var xs, ys := KeyPieces(c, p), KeyPieces(d, q);
    assert ", " == [',', ' '];
    forall k | 0 <= k < |xs| ensures Separable(xs[k], ", ") {
      SeparablePair(xs[k], ',', ' ');
    }
    forall k | 0 <= k < |ys| ensures Separable(ys[k], ", ") {
      SeparablePair(ys[k], ',', ' ');
    }
    if Key(c, p) == Key(d, q) {
      JoinInjective(xs, ys, ", ");
    }
  }

  /**
   For names without a comma and a space in a row, two requests share a key exactly when they name the same platform
   and the same channels, an empty list counting as one empty name.
   */
  lemma KeyDistinguishes(c: seq<string>, p: string, d: seq<string>, q: string)
    requires PlainNames(c, p) && PlainNames(d, q)
    ensures Key(c, p) == Key(d, q) <==> p == q && Listed(c) == Listed(d)
  {
    KeyIsJoin(c, p);
    KeyIsJoin(d, q);
    var xs, ys := Listed(c) + [p], Listed(d) + [q];
    EmptyIsPlain();
    assert ", " == [',', ' '];
    forall k | 0 <= k < |xs| ensures Separable(xs[k], ", ") {
      assert PlainName(xs[k]);
      SeparablePair(xs[k], ',', ' ');
    }
    forall k | 0 <= k < |ys| ensures Separable(ys[k], ", ") {
      assert PlainName(ys[k]);
      SeparablePair(ys[k], ',', ' ');
    }
    hide Key, Separable, PlainName, Join;
    if Key(c, p) == Key(d, q) {
      JoinInjective(xs, ys, ", ");
      assert xs[..|xs| - 1] == Listed(c) && ys[..|ys| - 1] == Listed(d);
      assert xs[|xs| - 1] == p && ys[|ys| - 1] == q;
    }
  }

  lemma EmptyIsPlain()
    ensures PlainName("")
  {}

  /** A name with the separator in it is enough for two different lists to share a key. */
  lemma KeysCollide(platform: string)
    ensures Key(["a, b"], platform) == Key(["a", "b"], platform)
    ensures Key([], platform) == Key([""], platform)
  {
    assert ["a", "b"][1..] == ["b"];
    assert Join(["a", "b"], ", ") == "a" + ", " + "b" == "a, b";
  }

  // ---------- Every history of requests ----------

  function Run(cache: Cache, history: seq<Request>, channelOf: string -> Option<string>): Cache {
    if history == [] then cache
    else Serve(Run(cache, history[..|history| - 1], channelOf), history[|history| - 1], channelOf).1
  }

  /** The clock never goes back, within a request and from one to the next. */
  predicate ClockOk(history: seq<Request>) {
    && (forall i | 0 <= i < |history| :: history[i].testedAt <= history[i].stampedAt)
    && forall i, j | 0 <= i < j < |history| :: history[i].stampedAt <= history[j].testedAt
  }

  predicate NamesOk(history: seq<Request>, channelOf: string -> Option<string>) {
    forall i | 0 <= i < |history| :: PlainNames(AllChannels(history[i], channelOf), history[i].platform)
  }

  /** Entries sit under their own key, and were loaded in the past. */
  ghost predicate Sound(cache: Cache, now: int) {
    forall key | key in cache ::
      key == Key(cache[key].channels, cache[key].platform) && cache[key].loadedAt <= now
  }

  lemma {:induction false} RunIsSound(history: seq<Request>, channelOf: string -> Option<string>, now: int)
    requires ClockOk(history) && forall i | 0 <= i < |history| :: history[i].stampedAt <= now
    ensures Sound(Run(map[], history, channelOf), now)
    decreases |history|
  {
    hide Key, AllChannels;
    if history == [] {
    } else {
      RunIsSound(history[..|history| - 1], channelOf, now);
    }
  }

  lemma HistoryBefore(history: seq<Request>, q: Request)
    requires ClockOk(history + [q])
    ensures ClockOk(history) && q.testedAt <= q.stampedAt
    ensures forall i | 0 <= i < |history| :: history[i].stampedAt <= q.testedAt
  {
    var all := history + [q];
    assert all[|history|] == q;
    assert forall i | 0 <= i < |history| :: history[i] == all[i];
  }

  /**
   Whatever requests came before and whatever the names, a pool that answers was loaded for names with the pieces of
   this request's, and no more than thirty minutes before the test, or just now.
   */
  lemma AnswerIsRight(history: seq<Request>, q: Request, channelOf: string -> Option<string>)
    requires ClockOk(history + [q])
    ensures var answer := Serve(Run(map[], history, channelOf), q, channelOf).0;
            answer.Ok? ==>
              && KeyPieces(answer.value.channels, answer.value.platform) == KeyPieces(AllChannels(q, channelOf), q.platform)
              && (answer.value.loadedAt == q.stampedAt
                  || 0 <= q.testedAt - answer.value.loadedAt <= 1_800_000_000_000)
  {
    HistoryBefore(history, q);
    hide ClockOk;
    RunIsSound(history, channelOf, q.testedAt);
    var cache, channels := Run(map[], history, channelOf), AllChannels(q, channelOf);
    var key := Key(channels, q.platform);
    hide Run, Key, KeyPieces, AllChannels;
    if key in cache {
      SameKeyIff(cache[key].channels, cache[key].platform, channels, q.platform);
    }
  }

  ghost predicate AllPlain(cache: Cache) {
    forall key | key in cache :: PlainNames(cache[key].channels, cache[key].platform)
  }

  lemma {:induction false} RunIsPlain(history: seq<Request>, channelOf: string -> Option<string>)
    requires NamesOk(history, channelOf)
    ensures AllPlain(Run(map[], history, channelOf))
    decreases |history|
  {
    hide Key, PlainNames, AllChannels;
    if history == [] {
    } else {
      RunIsPlain(history[..|history| - 1], channelOf);
    }
  }

  /** Among requests with plain names, it was loaded for this very platform and these channels. */
  lemma PlainAnswerIsRight(history: seq<Request>, q: Request, channelOf: string -> Option<string>)
    requires ClockOk(history + [q]) && NamesOk(history + [q], channelOf)
    ensures var answer := Serve(Run(map[], history, channelOf), q, channelOf).0;
            answer.Ok? ==>
              && answer.value.platform == q.platform
              && Listed(answer.value.channels) == Listed(AllChannels(q, channelOf))
              && (answer.value.loadedAt == q.stampedAt
                  || 0 <= q.testedAt - answer.value.loadedAt <= 1_800_000_000_000)
  {
    var all := history + [q];
    assert all[|history|] == q && forall i | 0 <= i < |history| :: history[i] == all[i];
    hide PlainNames, AllChannels, Run, Key, KeyPieces, ClockOk;
    AnswerIsRight(history, q, channelOf);
    RunIsPlain(history, channelOf);
    var answer := Serve(Run(map[], history, channelOf), q, channelOf).0;
    if answer.Ok? {
      SameKeyIff(answer.value.channels, answer.value.platform, AllChannels(q, channelOf), q.platform);
      KeyDistinguishes(answer.value.channels, answer.value.platform, AllChannels(q, channelOf), q.platform);
    }
  }

  // ---------- Which pools are clean ----------

  function KeyOf(q: Request, channelOf: string -> Option<string>): string {
    Key(AllChannels(q, channelOf), q.platform)
  }

  /** The request that loaded the pool now under the key. */
  function LastLoad(history: seq<Request>, channelOf: string -> Option<string>, key: string): (i: Option<nat>)
    ensures i.Some? ==> i.value < |history|
  {
    if history == [] then None
    else
      var n := |history| - 1;
      var before := LastLoad(history[..n], channelOf, key);
      if KeyOf(history[n], channelOf) == key && !history[n].loadFails && Expired(history[..n], before, history[n].testedAt)
      then Some(n) else before
  }

  /** No pool was loaded, or the clock is more than thirty minutes past its stamp. */
  predicate Expired(history: seq<Request>, load: Option<nat>, now: int)
    requires load.Some? ==> load.value < |history|
  {
    load.None? || now - history[load.value].stampedAt > LIMIT
  }

  /** Request `i` brings its temporary repo to the pool under the key, and raises. */
  predicate Raises(history: seq<Request>, channelOf: string -> Option<string>, key: string, i: nat)
    requires i < |history|
  {
    var q := history[i];
    && KeyOf(q, channelOf) == key && !q.prepareFails && q.solveFails
    && !(q.loadFails && Expired(history[..i], LastLoad(history[..i], channelOf, key), q.testedAt))
  }

  /** The raising requests under the key since its pool was loaded. */
  function RaisedSince(history: seq<Request>, channelOf: string -> Option<string>, key: string): set<nat> {
    match LastLoad(history, channelOf, key)
    case None => {}
    case Some(load) => RaisedFrom(history, channelOf, key, load)
  }

  function RaisedFrom(history: seq<Request>, channelOf: string -> Option<string>, key: string, load: nat): set<nat> {
    set i: nat | load <= i < |history| && Raises(history, channelOf, key, i)
  }

  /**
   Over every history: there is a pool under a key exactly when one was loaded; it bears the stamp of its last load,
   and holds one temporary repo for each request that raised since.
   */
  lemma {:induction false} LeaksAreRaised(history: seq<Request>, channelOf: string -> Option<string>, key: string)
    ensures var cache, load := Run(map[], history, channelOf), LastLoad(history, channelOf, key);
            && (key in cache <==> load.Some?)
            && (key in cache ==> cache[key].loadedAt == history[load.value].stampedAt)
            && (key in cache ==> cache[key].leaks == |RaisedSince(history, channelOf, key)|)
    decreases |history|
  {
    hide KeyOf, RaisedSince;
    if history == [] {
    } else {
      var n := |history| - 1;
      var q, before := history[n], LastLoad(history[..n], channelOf, key);
      LeaksAreRaised(history[..n], channelOf, key);
      RaisedStep(history, channelOf, key);
      OwnKeyOnly(Run(map[], history[..n], channelOf), q, channelOf, key);
    }
  }

  lemma OwnKeyOnly(cache: Cache, q: Request, channelOf: string -> Option<string>, key: string)
    ensures var after := Serve(cache, q, channelOf).1;
            if KeyOf(q, channelOf) != key || (NeedsLoad(cache, key, q.testedAt) && q.loadFails)
            then (key in after <==> key in cache) && (key in after ==> after[key] == cache[key])
            else
              && key in after
              && after[key].loadedAt == (if NeedsLoad(cache, key, q.testedAt) then q.stampedAt else cache[key].loadedAt)
              && after[key].leaks == (if NeedsLoad(cache, key, q.testedAt) then 0 else cache[key].leaks)
                                   + if !q.prepareFails && q.solveFails then 1 else 0
  {
    hide Key, AllChannels;
  }

  lemma RaisedStep(history: seq<Request>, channelOf: string -> Option<string>, key: string)
    requires history != []
    ensures var n := |history| - 1;
            |RaisedSince(history, channelOf, key)|
            == (if LastLoad(history, channelOf, key) == Some(n) then 0 else |RaisedSince(history[..n], channelOf, key)|)
               + if LastLoad(history, channelOf, key).Some? && Raises(history, channelOf, key, n) then 1 else 0
  {
    hide KeyOf, Expired, LastLoad, Raises, RaisedFrom;
    var n := |history| - 1;
    var load := LastLoad(history, channelOf, key);
    LoadIsNowOrBefore(history, channelOf, key);
    if load.Some? {
      RaisedOneMore(history, channelOf, key, load.value);
      RaisedNone(history[..n], channelOf, key);
    }
  }

  lemma RaisedNone(history: seq<Request>, channelOf: string -> Option<string>, key: string)
    ensures RaisedFrom(history, channelOf, key, |history|) == {}
  {
    hide Raises;
  }

  lemma RaisedOneMore(history: seq<Request>, channelOf: string -> Option<string>, key: string, load: nat)
    requires load < |history|
    ensures var n := |history| - 1;
            |RaisedFrom(history, channelOf, key, load)|
            == |RaisedFrom(history[..n], channelOf, key, load)| + if Raises(history, channelOf, key, n) then 1 else 0
  {
    hide Raises;
    var n := |history| - 1;
    var before, after := RaisedFrom(history[..n], channelOf, key, load), RaisedFrom(history, channelOf, key, load);
    forall i: nat ensures i in after <==> i in before || (i == n && Raises(history, channelOf, key, n)) {
      if i < n {
        RaisesBefore(history, channelOf, key, n, i);
      }
    }
    assert n !in before;
    assert after == if Raises(history, channelOf, key, n) then before + {n} else before;
  }

  lemma RaisesBefore(history: seq<Request>, channelOf: string -> Option<string>, key: string, n: nat, i: nat)
    requires i < n <= |history|
    ensures Raises(history, channelOf, key, i) <==> Raises(history[..n], channelOf, key, i)
  {
    hide KeyOf, Expired, LastLoad;
    assert history[..n][..i] == history[..i];
  }

  lemma LoadIsNowOrBefore(history: seq<Request>, channelOf: string -> Option<string>, key: string)
    requires history != []
    ensures var n, load := |history| - 1, LastLoad(history, channelOf, key);
            load == Some(n) || load == LastLoad(history[..n], channelOf, key)
  {}

  /** A request is answered from a clean pool exactly when it loads the pool, or nothing has raised in it since. */
  lemma AnswerIsCleanIff(history: seq<Request>, q: Request, channelOf: string -> Option<string>)
    requires Serve(Run(map[], history, channelOf), q, channelOf).0.Ok?
    ensures var key := KeyOf(q, channelOf);
            var load := LastLoad(history, channelOf, key);
            Serve(Run(map[], history, channelOf), q, channelOf).0.value.leaks == 0
            <==> Expired(history, load, q.testedAt)
                 || forall i | load.value <= i < |history| :: !Raises(history, channelOf, key, i)
  {
    hide Key, AllChannels, Raises, LastLoad, Run;
    var key := KeyOf(q, channelOf);
    var load := LastLoad(history, channelOf, key);
    LeaksAreRaised(history, channelOf, key);
    if !Expired(history, load, q.testedAt) {
      var raised := RaisedSince(history, channelOf, key);
      assert raised == {} <==> forall i | load.value <= i < |history| :: !Raises(history, channelOf, key, i) by {
        assert forall i: nat :: i in raised <==> load.value <= i < |history| && Raises(history, channelOf, key, i);
      }
    }
  }

  ghost predicate AllClean(cache: Cache) {
    forall key | key in cache :: cache[key].leaks == 0
  }

  ghost predicate NoneRaised(history: seq<Request>, channelOf: string -> Option<string>) {
    forall key: string :: RaisedSince(history, channelOf, key) == {}
  }

  /** Every pool of a run is clean exactly when under each key nothing has raised since the last load. */
  lemma NoLeakIff(history: seq<Request>, channelOf: string -> Option<string>)
    ensures AllClean(Run(map[], history, channelOf)) <==> NoneRaised(history, channelOf)
  {
    hide KeyOf, Run;
    var cache := Run(map[], history, channelOf);
    if AllClean(cache) {
      forall key: string ensures RaisedSince(history, channelOf, key) == {} {
        LeaksAreRaised(history, channelOf, key);
      }
    }
    if NoneRaised(history, channelOf) {
      forall key | key in cache ensures cache[key].leaks == 0 {
        LeaksAreRaised(history, channelOf, key);
      }
    }
  }

  /** After a request that raised, every answer under its key holds its repo until the pool is loaded anew. */
  lemma FailureLeaks(history: seq<Request>, i: nat, later: Request, channelOf: string -> Option<string>)
    requires i < |history| && Raises(history, channelOf, KeyOf(later, channelOf), i)
    requires var load := LastLoad(history, channelOf, KeyOf(later, channelOf));
             load.Some? && load.value <= i && !Expired(history, load, later.testedAt)
    requires Serve(Run(map[], history, channelOf), later, channelOf).0.Ok?
    ensures Serve(Run(map[], history, channelOf), later, channelOf).0.value.leaks > 0
  {
    hide KeyOf, Raises, LastLoad, Run, Serve;
    AnswerIsCleanIff(history, later, channelOf);
  }

  // ---------- One request ----------

  /** The channels of the request, then one for each spec that carries one. */
  lemma AllChannelsAre(q: Request, channelOf: string -> Option<string>)
    ensures AllChannels(q, channelOf)
         == q.channels + Flatten(Carried(q.specs, channelOf))
  {
    SpecChannelsAre(q.specs, channelOf);
  }

  /**
   A pool is loaded exactly when there is none, or the clock is more than thirty minutes past its stamp; what is cached
   for other keys stays as it is.
   */
  lemma ReloadIff(cache: Cache, q: Request, channelOf: string -> Option<string>)
    ensures var key := Key(AllChannels(q, channelOf), q.platform);
            var (answer, after) := Serve(cache, q, channelOf);
            var reload := key !in cache || q.testedAt - cache[key].loadedAt > 1_800_000_000_000;
            && (forall other | other != key ::
                  (other in after <==> other in cache) && (other in after ==> after[other] == cache[other]))
            && (answer == Err(LoadFailed) <==> reload && q.loadFails)
            && (answer == Err(LoadFailed) ==> after == cache)
            && (answer == Err(PrepareFailed) <==> !(reload && q.loadFails) && q.prepareFails)
            && (answer == Err(SolveFailed) <==> !(reload && q.loadFails) && !q.prepareFails && q.solveFails)
            && (answer != Err(LoadFailed) ==>
                  key in after
                  && after[key].loadedAt == (if reload then q.stampedAt else cache[key].loadedAt)
                  && after[key].platform == (if reload then q.platform else cache[key].platform)
                  && after[key].channels == (if reload then AllChannels(q, channelOf) else cache[key].channels))
            && (answer.Ok? ==> answer.value == after[key])
  {
    hide Key, AllChannels;
  }
}
