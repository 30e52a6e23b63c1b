/**
 The channel list of a run: the override hook (micromamba/src/common_options.cpp:252-276), the channels
 of YAML files (libmamba/src/api/install.cpp:825-837) and the hook that reads the "nodefaults" mark
 (libmamba/src/api/install.cpp:954-969).
 */
module ChannelHooks {
  import opened Outcomes
  import opened Strings
  import opened Lists
  import opened ConfigValue
  import opened SpecFiles
  import opened SpecFileLaws

  const NODEFAULTS := "nodefaults"

  function Cli(s: Setting): seq<string> {
    if s.cli.Some? then s.cli.value else []
  }

  function Marked(s: Setting): Setting {
    s.(cli := Some(Cli(s) + [NODEFAULTS]))
  }

  /** The list that `compute` and the hook after it leave in the context. */
  function Final(s: Setting, noRc: bool, preset: seq<string>): seq<string> {
    if NODEFAULTS in Cli(s) then RemoveFirst(Cli(s), NODEFAULTS) else Computed(s, noRc, preset)
  }

  // ---------- The hooks ----------

  /** An override that the configuration disables is dropped with a warning. */
  method OverrideChannelsHook(channels: Configurable, value: bool, enabled: bool, configured: bool)
    returns (after: bool)
    modifies channels
    ensures after <==> value && (enabled || !configured)
    ensures channels.View() == if after then Marked(old(channels.View())) else old(channels.View())
  {
    after := value;
    if !enabled && configured {
      after := false;
    }
    if after {
      channels.AddCli([NODEFAULTS]);
    }
  }

  method ComputeChannels(channels: Configurable, noRc: bool)
    modifies channels
    ensures channels.View() == old(channels.View()).(value := Final(old(channels.View()), noRc, channels.preset))
  {
    hide RemoveFirst, Computed;
    channels.Compute(noRc);
    if channels.cli.Some? {
      var names := channels.cli.value;
      var it := 0;
      while it < |names| && names[it] != NODEFAULTS
        invariant it <= |names| && forall k | 0 <= k < it :: names[k] != NODEFAULTS
      {
        it := it + 1;
      }
      if it < |names| {
        RemoveFirstAt(names, NODEFAULTS, it);
        channels.value := names[..it] + names[it + 1..];
      }
    }
  }

  // ---------- When the mark comes off again ----------

  /** From its first `v` on, the list holds nothing else. */
  predicate OnlyTrailing(xs: seq<string>, v: string) {
    forall i, j | 0 <= i <= j < |xs| && xs[i] == v :: xs[j] == v
  }

  lemma {:induction false} MarkComesOffIff(xs: seq<string>, v: string, ys: seq<string>)
    ensures RemoveFirst(xs + [v] + ys, v) == xs + ys <==> OnlyTrailing(xs, v)
  {
    var all := xs + [v] + ys;
    if xs == [] {
      assert all[1..] == ys && xs + ys == ys;
    } else if xs[0] == v {
      FrontIsMark(xs, v, ys);
    } else {
      var rest := xs[1..];
      MarkComesOffIff(rest, v, ys);
      assert all[1..] == rest + [v] + ys;
      assert (xs + ys)[0] == xs[0] && (xs + ys)[1..] == rest + ys;
      assert forall i | 0 < i < |xs| :: xs[i] == rest[i - 1];
      assert forall i | 0 <= i < |rest| :: rest[i] == xs[i + 1];
    }
  }

  lemma FrontIsMark(xs: seq<string>, v: string, ys: seq<string>)
    requires xs != [] && xs[0] == v
    ensures RemoveFirst(xs + [v] + ys, v) == xs + ys <==> OnlyTrailing(xs, v)
  {
    var all := xs + [v] + ys;
    var left := all[1..];
    assert forall i | 0 <= i < |xs| - 1 :: left[i] == xs[i + 1];
    assert forall i | 0 <= i < |ys| :: left[|xs| + i] == ys[i];
    if left == xs + ys {
      AllAreMarks(xs, v, left);
    }
    if OnlyTrailing(xs, v) {
      assert forall j | 0 <= j < |xs| :: xs[j] == v;
      assert left == xs + ys;
    }
  }

  lemma {:induction false} AllAreMarks(xs: seq<string>, v: string, left: seq<string>)
    requires xs != [] && |left| >= |xs| && xs[0] == v
    requires forall i | 0 <= i < |xs| - 1 :: left[i] == xs[i + 1]
    requires forall i | 0 <= i < |xs| :: left[i] == xs[i]
    ensures forall i | 0 <= i < |xs| :: xs[i] == v
  {
    for n := 1 to |xs|
      invariant forall i | 0 <= i < n :: xs[i] == v
    {
      assert xs[n] == left[n - 1] == xs[n - 1];
    }
  }

  lemma {:induction false} RemoveFirstAppend(a: seq<string>, b: seq<string>, v: string)
    ensures RemoveFirst(a + b, v) == if v in a then RemoveFirst(a, v) + b else a + RemoveFirst(b, v)
  {
    hide RemoveFirst;
    if a == [] {
      assert a + b == b && a + RemoveFirst(b, v) == RemoveFirst(b, v);
    } else {
      var rest := a[1..];
      RemoveFirstAppend(rest, b, v);
      assert a == [a[0]] + rest && a + b == [a[0]] + (rest + b);
      RemoveFirstHead(a[0], rest, v);
      RemoveFirstHead(a[0], rest + b, v);
      SeqAssoc([a[0]], RemoveFirst(rest, v), b);
      SeqAssoc([a[0]], rest, RemoveFirst(b, v));
    }
  }

  lemma RemoveFirstHead(x: string, rest: seq<string>, v: string)
    ensures RemoveFirst([x] + rest, v) == if x == v then rest else [x] + RemoveFirst(rest, v)
  {
    assert ([x] + rest)[1..] == rest;
  }

  /** With the file hook first: the command line's channels and then the files', under this condition only. */
  lemma FileHookFirstIff(s: Setting, f: seq<string>, noRc: bool, preset: seq<string>)
    ensures Final(Marked(AddCli(s, f)), noRc, preset) == Cli(s) + f <==> OnlyTrailing(Cli(s) + f, NODEFAULTS)
  {
    assert Cli(AddCli(s, f)) == Cli(s) + f;
    MarkComesOffIff(Cli(s) + f, NODEFAULTS, []);
    assert Cli(s) + f + [NODEFAULTS] + [] == Cli(s) + f + [NODEFAULTS] && Cli(s) + f + [] == Cli(s) + f;
    assert (Cli(s) + f + [NODEFAULTS])[|Cli(s) + f|] == NODEFAULTS;
  }

  /** With the override hook first, what the files say does not matter. */
  lemma OverrideHookFirstIff(s: Setting, f: seq<string>, noRc: bool, preset: seq<string>)
    ensures Final(AddCli(Marked(s), f), noRc, preset) == Cli(s) + f <==> OnlyTrailing(Cli(s), NODEFAULTS)
  {
    var cli := Cli(AddCli(Marked(s), f));
    assert cli == Cli(s) + [NODEFAULTS] + f;
    MarkComesOffIff(Cli(s), NODEFAULTS, f);
    assert cli[|Cli(s)|] == NODEFAULTS;
  }

  /** The two orders of the hooks agree exactly under this condition, whatever other sources say. */
  lemma HookOrderIff(s: Setting, f: seq<string>, noRc: bool, preset: seq<string>)
    ensures Final(Marked(AddCli(s, f)), noRc, preset) == Final(AddCli(Marked(s), f), noRc, preset)
       <==> if NODEFAULTS in Cli(s) then forall i | 0 <= i < |f| :: f[i] == NODEFAULTS else OnlyTrailing(f, NODEFAULTS)
  {
    hide OnlyTrailing, RemoveFirst, Computed;
    var u, mark := Cli(s), [NODEFAULTS];
    SeqAssoc(u, f, mark);
    SeqAssoc(u, mark, f);
    assert Cli(Marked(AddCli(s, f))) == u + f + mark && Cli(AddCli(Marked(s), f)) == u + mark + f;
    assert (u + f + mark)[|u + f|] == NODEFAULTS && (u + mark + f)[|u|] == NODEFAULTS;
    MarkOrderIff(u, f, NODEFAULTS);
  }

  lemma MarkOrderIff(u: seq<string>, f: seq<string>, v: string)
    ensures RemoveFirst(u + (f + [v]), v) == RemoveFirst(u + ([v] + f), v)
       <==> if v in u then forall i | 0 <= i < |f| :: f[i] == v else OnlyTrailing(f, v)
  {
    hide OnlyTrailing, RemoveFirst;
    RemoveFirstAppend(u, f + [v], v);
    RemoveFirstAppend(u, [v] + f, v);
    if v in u {
      SameTail(RemoveFirst(u, v), f + [v], [v] + f);
      MarksCommuteIff(f, v);
    } else {
      RemoveFirstHead(v, f, v);
      SameTail(u, RemoveFirst(f + [v], v), f);
      MarkComesOffIff(f, v, []);
      assert f + [v] + [] == f + [v] && f + [] == f;
    }
  }

  lemma SameTail(a: seq<string>, b: seq<string>, c: seq<string>)
    ensures a + b == a + c <==> b == c
  {
    assert (a + b)[|a|..] == b && (a + c)[|a|..] == c;
  }

  lemma MarksCommuteIff(f: seq<string>, v: string)
    ensures f + [v] == [v] + f <==> forall i | 0 <= i < |f| :: f[i] == v
  {
    if f + [v] == [v] + f && f != [] {
      var left := f[1..] + [v];
      assert f[0] == (f + [v])[0] == ([v] + f)[0] == v;
      forall i | 0 <= i < |f| ensures left[i] == f[i] {
        assert left[i] == (f + [v])[i + 1] == ([v] + f)[i + 1];
      }
      AllAreMarks(f, v, left);
    }
  }

  /** The usual case, through the whole file hook: YAML files, no channel called "nodefaults". */
  lemma OverrideTakesCliThenFiles(w: World, files: seq<string>, st: State, noRc: bool, preset: seq<string>)
    requires AllYaml(files) && Ingest(w, files, st).1.Next?
    requires AllRead(w, files, st.seen)
    requires "nodefaults" !in Cli(st.channels) + FileChannels(w, files, st.seen)
    ensures var channels := Cli(st.channels) + FileChannels(w, files, st.seen);
            var marked := st.(channels := Marked(st.channels));
            && Final(Marked(Ingest(w, files, st).0.channels), noRc, preset) == channels
            && Ingest(w, files, marked).1.Next?
            && Final(Ingest(w, files, marked).0.channels, noRc, preset) == channels
  {
    hide KindOf, Ingest, FileSpecs, FirstName, FileChannels, RemoveFirst, Computed;
    var marked := st.(channels := Marked(st.channels));
    YamlFilesAppend(w, files, st);
    YamlFilesAppend(w, files, marked);
    var f := FileChannels(w, files, st.seen);
    assert OnlyTrailing(Cli(st.channels) + f, NODEFAULTS);
    NoMarkInFront(Cli(st.channels), f, NODEFAULTS);
    FileHookFirstIff(st.channels, f, noRc, preset);
    OverrideHookFirstIff(st.channels, f, noRc, preset);
  }

  lemma NoMarkInFront(a: seq<string>, b: seq<string>, v: string)
    requires v !in a + b
    ensures OnlyTrailing(a, v)
  {
    assert forall i | 0 <= i < |a| :: a[i] == (a + b)[i];
  }

  // ---------- When the rc files count ----------

  function Longer(xs: seq<string>): (x: string)
    ensures forall i | 0 <= i < |xs| :: |x| > |xs[i]|
  {
    if xs == [] then ""
    else
      var x := Longer(xs[..|xs| - 1]);
      if |x| > |xs[|xs| - 1]| then x else xs[|xs| - 1] + "."
  }

  lemma RcChannelIsThere(s: Setting, x: string, preset: seq<string>)
    requires NODEFAULTS !in Cli(s)
    ensures x in Final(s.(rc := [[x]]), false, preset)
  {
    var with := s.(rc := [[x]]);
    var given := Given(with, false);
    var before := given[..|given| - 1];
    assert given[|given| - 1] == [x];
    assert Flatten(given) == Flatten(before) + [x];
    DedupElements(Flatten(given), x);
  }

  /** The rc files have no say exactly when they are switched off or the command line holds the mark. */
  lemma RcIgnoredIff(s: Setting, noRc: bool, preset: seq<string>)
    ensures (forall rc :: Final(s.(rc := rc), noRc, preset) == Final(s, noRc, preset))
       <==> noRc || "nodefaults" in Cli(s)
  {
    hide RemoveFirst;
    if !noRc && NODEFAULTS !in Cli(s) {
      var now := Final(s, noRc, preset);
      var x := Longer(now);
      RcChannelIsThere(s, x, preset);
      assert x !in now;
      assert Final(s.(rc := [[x]]), noRc, preset) != now;
    } else {
      forall rc ensures Final(s.(rc := rc), noRc, preset) == Final(s, noRc, preset) {
        assert Cli(s.(rc := rc)) == Cli(s);
        assert noRc ==> Given(s.(rc := rc), noRc) == Given(s, noRc);
      }
    }
  }
}
