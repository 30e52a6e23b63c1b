/**
 The driver of a specs installation (libmamba/src/api/install.cpp, install_specs_impl): it pushes the
 channels named in the specs, loads, solves, and tries once more when the request cannot be solved.
 */
module InstallRetry {
  import opened Outcomes
  import opened MatchSpecs
  import opened ChannelPriority

  /**
   Whether a target prefix is set, and there or to be made; how loading, reading the prefix and solving turn out in
   the first attempt and in the retry; and the configured flag.
   */
  datatype Flow = Flow(
    hasTarget: bool, prefixOk: bool, loads: bool -> bool, readable: bool -> bool, solvable: bool -> bool,
    retryCleanCache: bool)

  datatype Error = NoTarget | PrefixMissing | LoadFailed | PrefixUnreadable | Unsolvable

  predicate Retries(flow: Flow) {
    flow.hasTarget && flow.prefixOk && flow.loads(false) && flow.readable(false) && !flow.solvable(false)
    && flow.retryCleanCache
  }

  /** The result of one attempt. */
  function Attempt(flow: Flow, isRetry: bool): Result<(), Error> {
    if !flow.hasTarget then Err(NoTarget)
    else if !flow.prefixOk then Err(PrefixMissing)
    else if !flow.loads(isRetry) then Err(LoadFailed)
    else if !flow.readable(isRetry) then Err(PrefixUnreadable)
    else if !flow.solvable(isRetry) then Err(Unsolvable)
    else Ok(())
  }

  class Context {
    var channels: seq<string>
    var repodataTtl: int

    constructor (channels: seq<string>, repodataTtl: int)
      ensures this.channels == channels && this.repodataTtl == repodataTtl
    {
      this.channels, this.repodataTtl := channels, repodataTtl;
    }

    /** `lists` are the channel lists of the loads, one for each attempt. */
    method InstallSpecs(specs: seq<string>, channelOf: string -> Option<string>, flow: Flow, isRetry: bool)
      returns (r: Result<(), Error>, lists: seq<seq<string>>)
      modifies this
      ensures var pushed := SpecChannels(specs, channelOf);
              lists == if !flow.hasTarget || !flow.prefixOk then []
                       else if !isRetry && Retries(flow) then [old(channels) + pushed, old(channels) + pushed + pushed]
                       else [old(channels) + pushed]
      ensures channels == if lists == [] then old(channels) else lists[|lists| - 1]
      ensures repodataTtl == if !isRetry && Retries(flow) then 2 else old(repodataTtl)
      ensures r == Attempt(flow, isRetry || Retries(flow))
      decreases !isRetry
    {
      if !flow.hasTarget {
        return Err(NoTarget), [];
      }
      if !flow.prefixOk {
        return Err(PrefixMissing), [];
      }
      for n := 0 to |specs|
        invariant channels == old(channels) + SpecChannels(specs[..n], channelOf)
        invariant repodataTtl == old(repodataTtl)
      {
        assert specs[..n + 1][..n] == specs[..n];
        match channelOf(specs[n])
        case None =>
        case Some(c) => channels := channels + [c];
      }
      assert specs[..|specs|] == specs;
      lists := [channels];
      if !flow.loads(isRetry) {
        return Err(LoadFailed), lists;
      }
      if !flow.readable(isRetry) {
        return Err(PrefixUnreadable), lists;
      }
      if !flow.solvable(isRetry) {
        if flow.retryCleanCache && !isRetry {
          repodataTtl := 2;
          var more;
          r, more := InstallSpecs(specs, channelOf, flow, true);
          return r, lists + more;
        }
        return Err(Unsolvable), lists;
      }
      return Ok(()), lists;
    }
  }

  /**
   The retry loads the same subdirectories at the same indices, when their creation turns out as before, each with
   its priority raised by the number of specs that carry a channel: their order is unchanged.
   */
  lemma RetryKeepsOrder(config: Config, specs: seq<string>, channelOf: string -> Option<string>, ok: nat -> bool,
                        i: nat, j: nat)
    requires !config.priorityDisabled
    ensures var pushed := SpecChannels(specs, channelOf);
            var once := config.(channels := config.channels + pushed);
            var twice := config.(channels := config.channels + pushed + pushed);
            var first, second := Created(Tried(Visited(once)), ok), Created(Tried(Visited(twice)), ok);
            && first <= second
            && (i < |first| ==> Priorities(twice, second)[i] == Priorities(once, first)[i] + |pushed|)
            && (i < |first| && j < |first| ==>
                  (Priorities(twice, second)[i] < Priorities(twice, second)[j]
                   <==> Priorities(once, first)[i] < Priorities(once, first)[j]))
  {
    hide Created, Tried, Visited, Priorities;
    var pushed := SpecChannels(specs, channelOf);
    RetryShiftsPriorities(config.(channels := config.channels + pushed), pushed, ok);
  }

  /** The first obstacle in the order of the checks decides; only an unsolvable request is tried again, and only once. */
  lemma FirstObstacleDecides(flow: Flow, isRetry: bool)
    ensures var there := flow.hasTarget && flow.prefixOk;
            && (Attempt(flow, isRetry) == Err(NoTarget) <==> !flow.hasTarget)
            && (Attempt(flow, isRetry) == Err(PrefixMissing) <==> flow.hasTarget && !flow.prefixOk)
            && (Attempt(flow, isRetry) == Err(LoadFailed) <==> there && !flow.loads(isRetry))
            && (Attempt(flow, isRetry) == Err(PrefixUnreadable)
                <==> there && flow.loads(isRetry) && !flow.readable(isRetry))
            && (Attempt(flow, isRetry) == Err(Unsolvable)
                <==> there && flow.loads(isRetry) && flow.readable(isRetry) && !flow.solvable(isRetry))
            && (Retries(flow) <==> flow.retryCleanCache && Attempt(flow, false) == Err(Unsolvable))
  {}
}
