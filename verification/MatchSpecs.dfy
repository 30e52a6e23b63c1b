/** What the install command and the solve service take from the specs before anything is loaded. */
module MatchSpecs {
  import opened Outcomes
  import opened Lists

  /** The channels the specs carry, in order; a spec that does not parse carries none. */
  function SpecChannels(specs: seq<string>, channelOf: string -> Option<string>): seq<string> {
    if specs == [] then []
    else SpecChannels(specs[..|specs| - 1], channelOf)
         + match channelOf(specs[|specs| - 1]) { case None => [] case Some(c) => [c] }
  }

  /** What each spec carries: one channel, or none. */
  function Carried(specs: seq<string>, channelOf: string -> Option<string>): (r: seq<seq<string>>)
    ensures |r| == |specs|
    ensures forall i | 0 <= i < |r| ::
              r[i] == if channelOf(specs[i]).Some? then [channelOf(specs[i]).value] else []
  {
    seq(|specs|, i requires 0 <= i < |specs| =>
      if channelOf(specs[i]).Some? then [channelOf(specs[i]).value] else [])
  }

  lemma {:induction false} SpecChannelsAre(specs: seq<string>, channelOf: string -> Option<string>)
    ensures SpecChannels(specs, channelOf) == Flatten(Carried(specs, channelOf))
  {
    if specs == [] {
    } else {
      var n := |specs| - 1;
      SpecChannelsAre(specs[..n], channelOf);
      assert Carried(specs, channelOf)[..n] == Carried(specs[..n], channelOf);
    }
  }
}
