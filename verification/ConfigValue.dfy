/**
 One list-valued setting of libmamba (libmamba/include/mamba/api/configuration.hpp): where its values
 come from and how `compute` merges them.
 */
module ConfigValue {
  import opened Outcomes
  import opened Lists

  /** The values a setting has been given, by source, and the value it has now. */
  datatype Setting = Setting(
    api: bool,
    cli: Option<seq<string>>,
    env: seq<seq<string>>,
    rc: seq<seq<string>>,
    value: seq<string>)

  /** The lists that count, the strongest first. */
  function Given(s: Setting, noRc: bool): seq<seq<string>> {
    (if s.api then [s.value] else []) + (if s.cli.Some? then [s.cli.value] else [])
    + s.env + (if noRc then [] else s.rc)
  }

  function Computed(s: Setting, noRc: bool, preset: seq<string>): seq<string> {
    if Given(s, noRc) == [] then preset else Dedup(Flatten(Given(s, noRc)))
  }

  class Configurable {
    var api: bool
    var cli: Option<seq<string>>
    var env: seq<seq<string>>
    var rc: seq<seq<string>>
    var value: seq<string>
    const preset: seq<string>

    function View(): Setting
      reads this
    {
      Setting(api, cli, env, rc, value)
    }

    constructor (initial: seq<string>)
      ensures View() == Setting(false, None, [], [], initial) && preset == initial
    {
      api, cli, env, rc, value, preset := false, None, [], [], initial, initial;
    }

    /** Adds to the CLI value, giving the setting one when it had none. */
    method AddCli(values: seq<string>)
      modifies this
      ensures View() == old(View()).(cli := Some((if old(cli).Some? then old(cli.value) else []) + values))
    {
      var updated: seq<string> := [];
      if cli.Some? {
        updated := cli.value;
      }
      updated := updated + values;
      cli := Some(updated);
    }

    method ClearValues()
      modifies this
      ensures View() == Setting(false, None, [], [], preset)
    {
      rc, env, cli, api := [], [], None, false;
      value := preset;
    }

    method SetValue(values: seq<string>)
      modifies this
      ensures View() == old(View()).(api := true, value := values)
    {
      value, api := values, true;
    }

    /** `compute` without the hook that follows it. */
    method Compute(noRc: bool)
      modifies this
      ensures View() == old(View()).(value := Computed(old(View()), noRc, preset))
    {
      var sources: seq<seq<string>> := [];
      if api {
        sources := sources + [value];
      }
      if cli.Some? {
        sources := sources + [cli.value];
      }
      sources := sources + env;
      if !noRc {
        sources := sources + rc;
      }
      assert sources == Given(View(), noRc);
      if sources != [] {
        value := Merge(sources);
      } else {
        value := preset;
      }
    }
  }

  lemma MergeNothing()
    ensures Flatten<string>([]) == [] && Dedup([]) == []
  {}

  method Merge(lists: seq<seq<string>>) returns (merged: seq<string>)
    ensures merged == Dedup(Flatten(lists))
  {
    hide Flatten, Dedup;
    merged := [];
    ghost var done: seq<string> := [];
    MergeNothing();
    for i := 0 to |lists|
      invariant done == Flatten(lists[..i]) && merged == Dedup(done)
    {
      var list := lists[i];
      for j := 0 to |list|
        invariant done == Flatten(lists[..i]) + list[..j] && merged == Dedup(done)
      {
        DedupStep(done, list[j]);
        if list[j] !in merged {
          merged := merged + [list[j]];
        }
        done := done + [list[j]];
        assert list[..j + 1] == list[..j] + [list[j]];
      }
      assert list[..|list|] == list;
      FlattenStep(lists, i);
    }
    assert lists[..|lists|] == lists;
  }

  // ---------- What merging means ----------

  /**
   Precedence: a source that repeats nothing and is the strongest stands whole at the front, and what
   follows holds nothing of it.
   */
  lemma StrongestFirst(strongest: seq<string>, weaker: seq<seq<string>>)
    requires NoDup(strongest)
    ensures var merged := Dedup(Flatten([strongest] + weaker));
            strongest <= merged && forall i | |strongest| <= i < |merged| :: merged[i] !in strongest
  {
    var all := Flatten([strongest] + weaker);
    FlattenAppend([strongest], weaker);
    assert [strongest][..0] == [] && Flatten([strongest]) == strongest;
    DedupPrefix(strongest, Flatten(weaker));
    DedupUnchangedIff(strongest);
    DedupNoDup(all);
  }

  /**
   The sources in their order: what was set through the API, the command line, the environment, the rc files unless
   they are switched off; of all of them the first copy of every element. The default counts only if none is given.
   */
  lemma ComputedFromSources(s: Setting, noRc: bool, preset: seq<string>)
    ensures Computed(s, noRc, preset)
         == if !s.api && s.cli.None? && s.env == [] && (noRc || s.rc == []) then preset
            else Dedup((if s.api then s.value else []) + (if s.cli.Some? then s.cli.value else [])
                       + Flatten(s.env) + (if noRc then [] else Flatten(s.rc)))
  {
    hide Dedup, Flatten;
    var api, cli := if s.api then [s.value] else [], if s.cli.Some? then [s.cli.value] else [];
    var rc := if noRc then [] else s.rc;
    FlattenAppend(api + cli + s.env, rc);
    FlattenAppend(api + cli, s.env);
    FlattenAppend(api, cli);
    FlattenFew(s.value);
    if s.cli.Some? {
      FlattenFew(s.cli.value);
    }
    MergeNothing();
  }

  lemma FlattenFew(xs: seq<string>)
    ensures Flatten([xs]) == xs
  {
    assert [xs][..0] == [] && [] + xs == xs;
  }
}
