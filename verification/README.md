# Verified models of mamba's self-contained algorithms

mamba wires libsolv, libcurl, YAML and JSON libraries together. Between those libraries its own code holds
a number of algorithms that stand on their own feet. This project models them in Dafny, each with the
branches, constants and errors of the code, and proves what they promise together rather than one by one.

* **Channel loading** (`ChannelPriority`, `ChannelLoader`, `InstallRetry`): the creation of subdirectories
  with a falling priority counter, the mirror map, loading with one retry, and the install that pushes the
  channels of its specs again when it retries. The counter has a closed form: configured channels minus runs
  of equal URLs. A multi-channel of two URLs brings a priority of -1.
* **The little HTTP server** (`Microserver`, `RequestPrinter`, `RequestHandler`, `RequestLaws`, `ResponsePrinter`): the header
  scanner, routing and the reading of a body against a printer of requests (sections 4.2, 5.1 and 10.4 of RFC
  1945), and the framing of the answers (section 6).
* **Changelogs** (`PyText`, `ChangelogWriter`, `Releaser`, `OlderReleases`, `ChangelogRoundTrip`,
  `ReleaserLaws`): the release script that
  prints pull requests and the one that parses the file and hands its entries to the three packages.
* **Settings** (`ConfigSequence`, `ConfigValue`, `LoadingSequence`, `ChannelHooks`): editing lists in the rc
  file, merging the sources of a setting, the order in which settings are computed, and the hooks that
  settle the channel list.
* **Spec files** (`YamlSpecs`, `YamlHistory`, `ExplicitFormat`, `SpecFiles`, `SpecFileLaws`): YAML files with selectors whose
  table outlives the call, plain and explicit text files, and the explicit export as their printer.
* **The solve server** (`SolveCache`): pools kept for thirty minutes under a joined key, each request adding
  a temporary repo and taking it out again.
* **Files on disk** (`CacheClean`, `CacheRuns`, `PrefixLifecycle`, `SelfUpdate`): what cleaning may remove, what becomes of
  the target prefix when creation stops, and the swap of the executable under faults.
* **Two generators** (`CompareAst`, `Bin2Header`): the comparison of stub files and the byte-to-header script.

`Outcomes`, `Strings`, `Lists`, `Decimals`, `MatchSpecs` and `Paths` hold what the others share; the splitting and stripping of
libmamba/src/util/string.cpp is written out rather than assumed.

Objects that the code changes in place are classes, and their methods are proved equal to a function of the
old state; the theorems are then about runs of those functions. Everything outside the modelled code
(repodata, the solver, prompts, clocks, the disk, parsed URLs and YAML nodes) enters as a parameter or as an
arbitrary function.

## Where the code and its description differ

* `config remove` promises to take out all instances of a value. It takes out one
  (`ConfigSequence.RemoveTakesAllIffSingle`); lists built by adding duplicate-free values hold no second one.
* Priorities can be negative (`ChannelPriority.MultiChannelGoesNegative`), exactly when the resolved list has more
  runs of equal URLs than there are configured channels (`ChannelPriority.NeverNegativeIff`).
* The pool key does not tell an empty list from one empty name, nor a name with ", " in it from two names
  (`SolveCache.KeysCollide`); `SolveCache.SameKeyIff` says exactly which requests share one. A solve that raises leaves its temporary repo in the pool: a request is answered from a
  clean pool exactly when it loads the pool, or nothing has raised in it since (`SolveCache.AnswerIsCleanIff`).
* `truthy_values` never forgets a platform: `sel(win)` holds for Linux once Windows was asked
  (`YamlSpecs.WindowsLeaksIntoLinux`). `YamlHistory.HistoryChangesMergeIff` says exactly when that changes a result.
* A YAML file that has nothing but a pip section is an error (`YamlHistory.PipAloneFails`): "pip" would be added only
  after the conversion that fails. `YamlHistory.MergeSucceedsIff` says exactly when a merge succeeds.
* Cleaning can take a package that is recorded in an environment: when its cache looks like an unused package of another
  cache (`CacheClean.RecordedPackageIsLost`), or when the record lies in an index cache
  (`CacheClean.RecordInIndexIsLost`). `CacheClean.NeverGoesIff` says exactly what no run without force can take.
* With `clean --dry-run --force-pkgs-dirs` the caches go all the same (`CacheClean.DryRunForces`), and trash goes in a
  dry run too. `CacheClean.DryRunKeepsAllIff` says exactly when a dry run changes nothing.
* Declining a transaction removes the new prefix only if there were specs: with a lock file alone, an empty
  environment was made before the question and stays (`PrefixLifecycle.DeclinedLeavesNothingIffSpecs`). The root prefix
  is protected by its own path only, not when the target lies above it (`PrefixLifecycle.RootSurvivesIff`).
* A route whose callback raises answers with code 500 under the phrase it had, "OK" if it set none
  (`ResponsePrinter.ServerErrorIff`).
* An item without brackets keeps its dash, and is printed with two (`ReleaserLaws.PlainItem`); an indented line of a
  heading joins its text twice (`ReleaserLaws.HeadingGoesOn`).
* `releaser.py` looks one line past the end when no mark of an older release follows
  (`ChangelogRoundTrip.NoOlderRelease`, `ChangelogRoundTrip.ParsesIff`), and takes other lines in front of an older
  release into the newest one (`ChangelogRoundTrip.BlockAloneIff`).

The function `compare_ast` by itself looks at the attributes of its first argument only
(`CompareAst.ComparisonIsOneSided`). Trees that Python parses do not show it, because nodes of one type have the same
attributes there; compared both ways the function is exact on all trees (`CompareAst.BothWaysIffNormal`).

## Model

| member | source | states |
|---|---|---|
| ChannelPriority.PriorityDropsWithUrl | libmamba/src/api/channel_loader.cpp:64-105 | between neighbours the priority drops by one exactly when the channel URL changes, and else stays |
| ChannelPriority.PriorityOrder | libmamba/src/api/channel_loader.cpp:64-105 | priorities never rise along the list, and two are equal exactly when no URL changes between them |
| ChannelPriority.FailuresMakeNoRuns | libmamba/src/api/channel_loader.cpp:68-105 | leaving out the subdirectories whose creation fails never makes more runs of equal URLs, so a failed channel consumes no priority |
| ChannelPriority.NeverNegativeIff | libmamba/src/api/channel_loader.cpp:130-192 | no outcome of the creations gives a negative priority if and only if the resolved list has no more URL runs than there are configured channels |
| ChannelPriority.MultiChannelGoesNegative | libmamba/src/api/channel_loader.cpp:161-192 | for any one location that resolves to two channels of different URLs the priorities are 0 and -1 |
| ChannelPriority.SingleChannelsNeverNegative | libmamba/src/api/channel_loader.cpp:130-192 | with one channel for each location, and every mirrored channel configured, no priority is ever negative |
| ChannelPriority.RetryShiftsPriorities | libmamba/src/api/channel_loader.cpp:133 | with more channels pushed behind the list and the same creation outcomes, every subdirectory keeps its index and gains exactly the number pushed |
| ChannelPriority.PlatformsInOrder | libmamba/src/api/channel_loader.cpp:64-83 | a channel is asked for on each of its platforms, in the order it lists them |
| ChannelPriority.VisitedAre | libmamba/src/api/channel_loader.cpp:140-192 | the channels that are visited: all of each mirrored name, then of each location without a mirror all but the packages |
| ChannelPriority.TriedAre | libmamba/src/api/channel_loader.cpp:64-83 | the creations that are tried: every visited channel on every platform, in order, once for each listing |
| ChannelPriority.CreatedAre | libmamba/src/api/channel_loader.cpp:76-83 | what is created: exactly the tries that succeed, in order |
| ChannelPriority.FirstPriority | libmamba/src/api/channel_loader.cpp:84-104 | the first subdirectory has one less than the number of configured channels; with priorities disabled all have zero |
| ChannelLoader.Attempt.CreateSubdirs | libmamba/src/api/channel_loader.cpp:52-106 | the platform loop, with subdirectories and priorities of one length and each priority the closed form (in `Valid`) |
| ChannelLoader.Attempt.CreateMirrors | libmamba/src/api/channel_loader.cpp:108-120 | the mirror map gains exactly the mirrors of a channel that had none |
| ChannelLoader.Attempt.VisitMirrored | libmamba/src/api/channel_loader.cpp:140-157 | the channels of a mirrored name are visited in order |
| ChannelLoader.Attempt.VisitLocation | libmamba/src/api/channel_loader.cpp:161-192 | a mirrored location is skipped, a package is no channel, all else is visited in order |
| ChannelLoader.Attempt.CreateAll | libmamba/src/api/channel_loader.cpp:130-192 | both loops together visit exactly the resolved channels, and `Valid` holds at the end |
| ChannelLoader.MirrorsIdempotent | libmamba/src/api/channel_loader.cpp:302-323 | going through the same channels again changes no mirror |
| ChannelLoader.FirstMirrorsWin | libmamba/src/api/channel_loader.cpp:108-120 | a name has the mirrors of the first of its channels that has any, each URL once in order |
| ChannelLoader.Session.LoadAll | libmamba/src/api/channel_loader.cpp:232-272 | errors, cache removals and database entries of the loading loop, each repository with the priority at its own index |
| ChannelLoader.Session.LoadChannels | libmamba/src/api/channel_loader.cpp:122-289 | the whole load, with its one retry, equals the specification `Load`: result, log and mirrors |
| ChannelLoader.LoadSucceedsIff | libmamba/src/api/channel_loader.cpp:274-289 | loading succeeds if and only if the last attempt is clean, and says exactly when there is a second |
| ChannelLoader.LoadsEveryPlatform | libmamba/src/api/channel_loader.cpp:52-192 | with every creation successful a load works on each visited channel paired with each of its platforms, in order, once for each listing |
| ChannelLoader.GoodLoad | libmamba/src/api/channel_loader.cpp:232-289 | when all goes well each of them enters the database, in that order and with its own priority |
| ChannelLoader.ReportedErrors | libmamba/src/api/channel_loader.cpp:76-79 | every error of a load without a retry behind it, and no other |
| ChannelLoader.LogOfLoad | libmamba/src/api/channel_loader.cpp:232-289 | at most two attempts; whatever did not parse has its cache cleared before the second; each repository enters with its own priority |
| ChannelLoader.RetryIsLast | libmamba/src/api/channel_loader.cpp:251-289 | the second attempt clears no cache and starts no third |
| InstallRetry.Context.InstallSpecs | libmamba/src/api/install.cpp:375-496 | the channel list of each attempt, what stays in the context, the repodata time limit, and the result with every error up to solving |
| InstallRetry.RetryKeepsOrder | libmamba/src/api/install.cpp:467-478 | the second attempt raises every old priority by the number of specs with a channel, so the order of any two is unchanged |
| Microserver.ParseHeader | micromamba/src/microserver.cpp:127-152 | name, colon, spaces and value of one header line, with the unsigned arithmetic on positions |
| Microserver.ParseQuery | micromamba/src/microserver.cpp:176-191 | the query map of the `&`-separated pairs |
| Microserver.Request.ParseRequestLine | micromamba/src/microserver.cpp:164-192 | method, path and query of the first line, or the error, with nothing changed on an error |
| Microserver.Request.ParseHeaders | micromamba/src/microserver.cpp:154-205 | the scanning loop computes the request of the first ten lines, and which line ends it looked up |
| Microserver.ScanStaysInside | micromamba/src/microserver.cpp:157-204 | with CRLFCRLF at h no line end is `npos`, they strictly increase, none lies past h+3, and there are at most eleven |
| RequestPrinter.BlankLineOfConcat | micromamba/src/microserver.cpp:325-331 | the blank line that is found ends the printed head, however the body goes on |
| RequestPrinter.HeaderOfText | micromamba/src/microserver.cpp:127-152 | a printed header line is parsed to its name in lower case and its value |
| RequestPrinter.QueryRecovered | micromamba/src/microserver.cpp:176-191 | a printed query is parsed to the last value of each key |
| RequestPrinter.ParseUndoesPrint | micromamba/src/microserver.cpp:127-205 | parsing a printed request with any body behind it gives its method, path, last-wins query and first-wins headers among the first nine |
| RequestHandler.MatchRoute | micromamba/src/microserver.cpp:225-250 | the first route of the list that fits method and path, if any |
| RequestHandler.ReadBody | micromamba/src/microserver.cpp:333-350 | the body after the reads; remainder and body add up to the declared length throughout |
| RequestHandler.HandleConnection | micromamba/src/microserver.cpp:321-358 | one connection: which refusal, or the request, body and route that are served |
| RequestHandler.BodyIsShortest | micromamba/src/microserver.cpp:333-350 | the body is the shortest run of reads that reaches the declared length |
| RequestHandler.BodyReassembled | micromamba/src/microserver.cpp:333-350 | a body of the declared length comes out whole however it is cut into non-empty reads |
| RequestHandler.PostDelivered | micromamba/src/microserver.cpp:321-358 | a printed POST with a true length field is served with exactly its body, headers, query and route |
| RequestHandler.OtherDelivered | micromamba/src/microserver.cpp:333-358 | a printed request of any other method is served with an empty body, whatever stands behind its head, and with the least route that fits its path and method |
| RequestLaws.RequestLineOkIff | micromamba/src/microserver.cpp:164-174 | the first line is accepted if and only if it has two spaces |
| RequestLaws.QueryValueIff | micromamba/src/microserver.cpp:180-189 | a key has a value if and only if the last piece with this key and one "=" gives it; other pieces say nothing |
| RequestLaws.HeaderWithSpaces | micromamba/src/microserver.cpp:127-152 | any white space behind the colon is no part of the value |
| RequestLaws.RefusedIff | micromamba/src/microserver.cpp:325-331 | exactly which texts are refused, and why |
| RequestLaws.PostWaitsIff | micromamba/src/microserver.cpp:333-350 | exactly when a POST is refused for its length, and when it waits for more |
| ResponsePrinter.Response.AnswerTurn | micromamba/src/microserver.cpp:225-250 | what a matching route, a raising callback or no route makes of the response |
| ResponsePrinter.Response.Write | micromamba/src/microserver.cpp:360-400 | the text sent for a response |
| ResponsePrinter.FramingRecovered | micromamba/src/microserver.cpp:360-400 | a client finds the blank line where the body starts, every field by its name, and a length that is exactly the body's |
| ChangelogWriter.ConcernedPackages | update_changelog.py:69-74 | the set of packages with a changed file |
| ChangelogWriter.ConcernedIff | update_changelog.py:69-74 | a package is in that set if and only if some file lies under its directory |
| ChangelogWriter.FormatRow | update_changelog.py:69-83 | the row of one pull request with its label |
| ChangelogWriter.AppendToFile | update_changelog.py:46-83 | one category of the block, heading and rows in order |
| ChangelogWriter.ReleaseLabel | update_changelog.py:114-119 | how many release labels, and the last of them |
| ChangelogWriter.SortPrs | update_changelog.py:105-139 | the three lists in order, or the error of the first pull request with no release label, several, or an unknown one |
| ChangelogWriter.CategoryIff | update_changelog.py:114-139 | the category of a pull request, and each reason for having none, from its labels alone |
| ChangelogWriter.SortedByLabel | update_changelog.py:132-137 | each list holds exactly the pull requests whose one release label is its own |
| ChangelogWriter.SortingConserves | update_changelog.py:105-139 | the three lists together hold every pull request exactly as often as it came |
| ChangelogWriter.WriteChangelog | update_changelog.py:141-162 | the new file: the block, then what was there before |
| Releaser.Section.Changes | releaser.py:104-116 | the entries one section adds to a package's changelog |
| Releaser.Reader.TakeLine | releaser.py:145-178 | one turn of the line machine equals the step function, fields of the last section and errors included |
| Releaser.Reader.TakeReleases | releaser.py:137-143 | the versions named on the line of releases, or the error |
| Releaser.Reader.Read | releaser.py:121-178 | reading all lines equals the parse of the specification |
| Releaser.Reader.PopulateChanges | releaser.py:98-116 | the entries of one package over all sections |
| ChangelogRoundTrip.LabelApplies | releaser.py:104-116 | a parsed label applies to a package if and only if the pull request concerns it |
| ChangelogRoundTrip.BlockReadBack | update_changelog.py:148-162 | the lines of the written file are the printed lines and then the older ones |
| ChangelogRoundTrip.BlockParsed | releaser.py:121-178 | after the printed block the parser stands with exactly the printed sections and versions |
| ChangelogRoundTrip.ChangelogsFromPrs | releaser.py:98-178 | end to end, on top of any content that starts with a release: every package gets its version and, category by category, exactly the pull requests that concern it, once and in order, under a heading that is there when one of them is |
| ChangelogRoundTrip.ChangelogsFromUnsorted | update_changelog.py:105-162 | from the unsorted pull requests to the three changelogs: each pull request stands under the heading of its one release label, and every package gets each that concerns it as often as it came, and no other |
| ChangelogRoundTrip.WrittenIsOlder | update_changelog.py:148-162 | any file the writer made, on whatever content, starts with a release |
| ChangelogRoundTrip.ReleaseAfterRelease | releaser.py:121-178 | so a block written on top of such a file is parsed as exactly that block |
| ChangelogRoundTrip.EveryPrReachesAPackage | update_changelog.py:69-83 | every pull request concerns some package |
| ChangelogRoundTrip.ConcernsByFiles | update_changelog.py:69-83 | a package is concerned if and only if a file lies under its directory or under none of the three |
| OlderReleases.LoopEndsIff | releaser.py:136-178 | over any lines the loop succeeds if and only if a mark stops it, or a line of releases is the last one, before a release without version or an item without heading; every failure is an IndexError |
| OlderReleases.LoopUnchangedIff | releaser.py:136-178 | over any lines the loop comes back to where it was if and only if they are blank lines and releases that change no version, at most one other line, and the mark |
| ChangelogRoundTrip.BlockAloneIff | releaser.py:121-178 | for every old content, parsing gives back exactly the printed block if and only if that content starts with a release |
| ChangelogRoundTrip.NoOlderRelease | releaser.py:145 | with a pull request, on content with no line of releases before its first mark, parsing succeeds if and only if some older line is a mark, and is an IndexError otherwise |
| ChangelogRoundTrip.ParsesIff | releaser.py:121-178 | for every block and every old content, exactly when parsing succeeds; all failures are IndexErrors |
| ReleaserLaws.BracketedItem | releaser.py:159-165 | an item with brackets, for the packages they name; without a section an IndexError |
| ReleaserLaws.PlainItem | releaser.py:167-178 | an item without brackets is for all packages, and keeps its dash |
| ReleaserLaws.NewSectionFor | releaser.py:154-161 | a heading that names packages in brackets |
| ReleaserLaws.HeadingGoesOn | releaser.py:154-172 | a later line of a heading joins its text, an indented one twice |
| ReleaserLaws.NoReleaseIff | releaser.py:126-129 | without a mark, and only then, there is nothing to parse |
| ReleaserLaws.EntriesAre | releaser.py:98-116 | the changelog of a package: exactly the sections that are for it and have an item for it if they have any, each with its items, in order |
| ConfigSequence.EraseExisting | micromamba/src/config.cpp:272-282 | the backwards erase loop leaves the existing values that are not new, in order |
| ConfigSequence.RcFile.SetSequences | micromamba/src/config.cpp:244-328 | append or prepend of all pairs, or an error with the file untouched |
| ConfigSequence.RcFile.Remove | micromamba/src/config.cpp:432-482 | what `remove` changes and what it answers for every number of arguments |
| ConfigSequence.InsertCount | micromamba/src/config.cpp:269-298 | how often each element occurs afterwards: new values as given, others as before |
| ConfigSequence.InsertIdempotent | micromamba/src/config.cpp:269-298 | append and prepend are idempotent |
| ConfigSequence.InsertTwice | micromamba/src/config.cpp:269-298 | two additions at one end are one addition |
| ConfigSequence.InsertOppositeEnds | micromamba/src/config.cpp:269-298 | additions at opposite ends commute when they share no value |
| ConfigSequence.InsertPlaces | micromamba/src/config.cpp:284-298 | the new values stand together at the end, or at the front, and the rest of the old list keeps its order |
| ConfigSequence.SetAllOkIff | micromamba/src/config.cpp:244-328 | the pairs are applied if and only if none is invalid or for a key that is no list; else the first such pair says why |
| ConfigSequence.SetAllHolds | micromamba/src/config.cpp:244-328 | only the keys of the pairs change, and their lists hold what was there and what was given |
| ConfigSequence.LastPairPlaces | micromamba/src/config.cpp:284-298 | the values of the last pair stand at their end of the list, whatever came before |
| ConfigSequence.InsertNoDup | micromamba/src/config.cpp:269-298 | on a duplicate-free list the result is duplicate-free if and only if the new values are |
| ConfigSequence.RunKeepsNoDup | micromamba/src/config.cpp:244-299 | every run of append, prepend and remove keeps a duplicate-free file duplicate-free |
| ConfigSequence.RemoveAfterRun | micromamba/src/config.cpp:448-470 | after any such run `remove` takes out every instance |
| ConfigSequence.RemoveTakesAllIffSingle | micromamba/src/config.cpp:616-619 | `remove` takes out all instances, as its help says, if and only if there is at most one |
| ConfigSequence.RemoveLeavesSecondCopy | micromamba/src/config.cpp:448-470 | of two copies one stays |
| ConfigSequence.RemoveFromNoDup | micromamba/src/config.cpp:448-470 | on a duplicate-free list everything else stays in order, and the key goes exactly with its last element |
| ConfigSequence.RemoveTouchesOnly | micromamba/src/config.cpp:448-470 | no other key changes, and nothing changes for a key without the value |
| ConfigValue.Configurable.Compute | libmamba/include/mamba/api/configuration.hpp:657-748 | the value of a list setting from its sources, strongest first, or its default when there are none |
| ConfigValue.ComputedFromSources | libmamba/include/mamba/api/configuration.hpp:684-748 | the order of the sources, and when the default counts |
| ConfigValue.Merge | libmamba/include/mamba/api/configuration_impl.hpp:137-161 | the merge loop keeps the first copy of every element of all sources |
| Lists.DedupUnchangedIff | libmamba/include/mamba/api/configuration_impl.hpp:137-161 | merging leaves a list alone if and only if it repeats nothing |
| ConfigValue.StrongestFirst | libmamba/include/mamba/api/configuration_impl.hpp:137-161 | the strongest source stands whole at the front, and nothing of it comes again |
| LoadingSequence.Loader.Add | libmamba/src/api/configuration.cpp:2140-2177 | the walk keeps an order in which everything needed comes first; a failure is justified by a cycle or an unknown name |
| LoadingSequence.Loader.ComputeLoadingSequence | libmamba/src/api/configuration.cpp:2130-2138 | the walk succeeds if and only if the needs have no cycle and name only known settings; then every setting is listed once, after all it needs |
| LoadingSequence.Loader.Load | libmamba/src/api/configuration.cpp:2070-2094 | neither the check for a second computation nor the one for an early read ever fails |
| LoadingSequence.CycleFound | libmamba/src/api/configuration.cpp:2156-2160 | a needed setting found locked does close a cycle of needs |
| LoadingSequence.OrderedIsAcyclic | libmamba/src/api/configuration.cpp:2130-2138 | needs that can be put in such an order have no cycle |
| ChannelHooks.OverrideChannelsHook | micromamba/src/common_options.cpp:252-276 | when the override stands, the mark goes behind the CLI channels, and nothing else changes |
| ChannelHooks.ComputeChannels | libmamba/src/api/install.cpp:954-969 | the first mark comes out of the CLI list, which then replaces the merged value |
| ChannelHooks.FileHookFirstIff | micromamba/src/common_options.cpp:266-275 | file hook first: the result is the CLI channels and then the files' if and only if a "nodefaults" among them is followed by nothing else |
| ChannelHooks.OverrideHookFirstIff | micromamba/src/common_options.cpp:266-275 | override hook first: the same, asking only this of the CLI channels |
| ChannelHooks.HookOrderIff | libmamba/src/api/install.cpp:825-837 | exactly when the two orders of the hooks agree, for any rc, environment and API values |
| ChannelHooks.OverrideTakesCliThenFiles | libmamba/src/api/install.cpp:805-837 | through the whole file hook, with no channel called "nodefaults", both orders give the CLI channels and then those of the YAML files |
| ChannelHooks.RcIgnoredIff | libmamba/src/api/install.cpp:954-969 | the rc files have no say if and only if they are off or the CLI list holds the mark |
| YamlSpecs.Selectors.TruthyValues | libmamba/src/api/install.cpp:34-58 | after every call the static table is true for exactly the keys implied by some platform seen (in `Valid`) |
| YamlSpecs.Selectors.EvalSelector | libmamba/src/api/install.cpp:62-83 | the answer or error for a selector; one that does not parse leaves the table alone |
| YamlSpecs.TableIs | libmamba/src/api/install.cpp:34-58 | after every history a key is on if and only if some platform seen starts, or for "unix" does not start, as it says |
| YamlSpecs.SelectorRefusedIff | libmamba/src/api/install.cpp:64-81 | the two ways a selector is refused |
| YamlSpecs.OnePlatformIsExact | libmamba/src/api/install.cpp:34-58 | over calls for one platform the table is exact |
| YamlSpecs.WindowsLeaksIntoLinux | libmamba/src/api/install.cpp:34-58 | a history of two platforms for which it is not |
| YamlSpecs.MergeDependencies | libmamba/src/api/install.cpp:119-181 | the merged dependencies and pip sections, or the first error, and whether the table was asked |
| YamlSpecs.ReadYamlFile | libmamba/src/api/install.cpp:85-209 | contents, channels and name of a file, or the first error in the order of the code |
| YamlSpecs.HistoryMattersIff | libmamba/src/api/install.cpp:134-157 | earlier calls change what some entry of a list does if and only if it is a selector that only they turn on |
| YamlSpecs.MergedIsNormalForm | libmamba/src/api/install.cpp:119-181 | the merged contents, written without selectors, read back as themselves on every platform after every history |
| YamlHistory.MergeSucceedsIff | libmamba/src/api/install.cpp:119-176 | a merge succeeds if and only if no entry fails and some scalar is there or selected |
| YamlHistory.ReadSucceedsIff | libmamba/src/api/install.cpp:85-209 | the same for the whole file, with its other parts |
| YamlHistory.PipAloneFails | libmamba/src/api/install.cpp:166-176 | a list that holds only a pip section is an error |
| YamlHistory.SelectorContributesIff | libmamba/src/api/install.cpp:128-157 | on a fresh table a selected entry is among the dependencies that are read if and only if its key holds for the platform |
| YamlHistory.FilePartsAre | libmamba/src/api/install.cpp:183-209 | the channels and the name that are read |
| YamlHistory.ReadErrorIs | libmamba/src/api/install.cpp:107-176 | which error a file gives, in the order of the checks |
| YamlHistory.HistoryChangesMergeIff | libmamba/src/api/install.cpp:34-181 | for every list and history, exactly when the merged result is the one of a fresh table, errors and the "pip" that is added anyway included |
| ExplicitFormat.Export | micromamba/src/env.cpp:132-165 | the text of the explicit export |
| ExplicitFormat.ReadLines | libmamba/src/core/util.cpp:282-309 | the lines of a file, without line feed and one trailing carriage return |
| ExplicitFormat.ReadsCrlf | libmamba/src/core/util.cpp:297-304 | a line end with a carriage return is read like one without |
| ExplicitFormat.ReadSpecs | libmamba/src/api/install.cpp:891-937 | explicit specs behind the first marker with the reported platform, or the plain lines |
| ExplicitFormat.ReadIs | libmamba/src/api/install.cpp:891-937 | when a file is plain and when explicit, and what is taken of it |
| ExplicitFormat.PlatformIs | libmamba/src/api/install.cpp:896-906 | the platform of the first platform line, else the whole line in front of the marker |
| ExplicitFormat.IsSpecIff | libmamba/src/api/install.cpp:910-917 | a line counts as a spec if and only if some character shows and the first that does is not '#' |
| ExplicitFormat.LinesBackIff | libmamba/src/api/install.cpp:906-917 | printed lines are read back unchanged if and only if each is free of line feeds, of a trailing carriage return, not blank and no comment |
| ExplicitFormat.ExportReadBackIff | micromamba/src/env.cpp:132-165 | the export is always read as explicit; platform and lines come back under exact conditions |
| SpecFiles.Config.FileSpecsHook | libmamba/src/api/install.cpp:764-952 | the hook equals the fold `Ingest` over the files: all settings, the selector history, early return and exceptions |
| SpecFiles.Config.TakeYamlFile | libmamba/src/api/install.cpp:821-882 | what one YAML file adds to channels, name, specs and pip sections |
| SpecFiles.Config.IngestTextFile | libmamba/src/api/install.cpp:884-950 | what one text file does to the specs |
| SpecFileLaws.MixedRefusedIff | libmamba/src/api/install.cpp:779-804 | files are refused for their kinds if and only if two differ, and then nothing has changed |
| SpecFileLaws.KindByEnding | libmamba/src/core/env_lockfile.cpp:261-264 | lock files by their endings, before YAML files |
| SpecFileLaws.OtherIff | libmamba/src/core/util.cpp:1556-1559 | a file is taken for text if and only if it has neither YAML ending |
| SpecFileLaws.FileErrorsAre | libmamba/src/api/install.cpp:838-890 | exactly when a file raises which error |
| SpecFileLaws.FirstExplicitWins | libmamba/src/api/install.cpp:891-926 | the first explicit file decides alone, whatever was on the command line, in earlier plain files or follows |
| SpecFileLaws.ExplicitIff | libmamba/src/api/install.cpp:891-926 | the hook returns early if and only if readable plain files lead up to an explicit one |
| SpecFileLaws.PlainFilesAppend | libmamba/src/api/install.cpp:928-949 | plain files append their lines to the CLI specs in order and change nothing else |
| SpecFileLaws.YamlFilesAppend | libmamba/src/api/install.cpp:821-882 | YAML files succeed under an exact condition, and then append channels, dependencies and pip sections in file order with the first name winning |
| SpecFileLaws.ExportThenIngestIff | libmamba/src/api/install.cpp:886-926 | export, ingestion and the merge of the setting give back the printed lines in order if and only if every line survives reading and none repeats |
| SolveCache.Service.Handle | micromamba/src/server.cpp:84-169 | one request: answer, cache and context equal the specification `Serve` |
| SolveCache.Service.Obtain | micromamba/src/server.cpp:53-112 | the entry under the key, loaded anew when there is none or it is too old |
| SolveCache.Service.CollectChannels | micromamba/src/server.cpp:76-82 | the request's channels and then those of its specs |
| SolveCache.AllChannelsAre | micromamba/src/server.cpp:76-82 | the channels of a request, then one for each spec that carries one |
| SolveCache.ReloadIff | micromamba/src/server.cpp:84-134 | for every cache, exactly when a pool is loaded and which error is raised; other keys are left alone |
| SolveCache.SameKeyIff | micromamba/src/server.cpp:84-94 | for all names, two requests share a key if and only if channels and platform, cut at every ", ", give the same pieces |
| SolveCache.KeyDistinguishes | micromamba/src/server.cpp:84-94 | names without ", " share a key if and only if platform and channels are the same, no channel counting as one empty name |
| SolveCache.KeysCollide | micromamba/src/server.cpp:84-94 | without plain names different lists share a key |
| SolveCache.AnswerIsRight | micromamba/src/server.cpp:84-134 | for every history with a monotone clock and any names, the answering pool was loaded for names of the same pieces, just now or at most thirty minutes ago |
| SolveCache.PlainAnswerIsRight | micromamba/src/server.cpp:84-134 | among requests whose names hold no ", " it was loaded for this very platform and these channels |
| SolveCache.LeaksAreRaised | micromamba/src/server.cpp:84-168 | over every history a pool bears the stamp of its last load and holds exactly one temporary repo for each request that raised in it since |
| SolveCache.AnswerIsCleanIff | micromamba/src/server.cpp:84-168 | a request is answered from a clean pool if and only if it loads the pool, or nothing has raised under its key since the last load |
| SolveCache.NoLeakIff | micromamba/src/server.cpp:134-168 | every pool of a run is clean if and only if under no key anything has raised since the last load |
| SolveCache.FailureLeaks | micromamba/src/server.cpp:134-168 | after a solve that raised, every later answer under its key holds its repo until the pool is loaded anew, whatever came between |
| CacheClean.Disk.RunClean | libmamba/src/api/clean.cpp:25-323 | the whole run equals the specification `Clean` |
| CacheClean.Disk.CollectInstalled | libmamba/src/api/clean.cpp:120-155 | the names recorded in the environments |
| CacheClean.Disk.CollectPackageFolders | libmamba/src/api/clean.cpp:207-226 | the package folders that no environment records |
| CacheClean.RecordedIsInstalled | libmamba/src/api/clean.cpp:120-155 | a package recorded in an environment is found, whatever index and lock cleaning did before |
| CacheClean.NeverGoesIff | libmamba/src/api/clean.cpp:49-310 | a path outlasts every run without force if and only if it lies in no index cache, every package folder of a cache at or above it has a record outside the index caches, and it is no trash, nor a tarball or lock directly in a cache |
| CacheRuns.FileGoesIff | libmamba/src/api/clean.cpp:49-321 | a run without force takes a file under no package folder if and only if one of its options is for files of this kind, it is no dry run but for trash, and for a tarball the answer was yes |
| CacheRuns.UnusedPackageGoesIff | libmamba/src/api/clean.cpp:207-310 | it takes an unrecorded package folder if and only if it is to clean packages, is no dry run, and the answer was yes |
| CacheRuns.IndexTakesAll | libmamba/src/api/clean.cpp:49-67 | it takes all of every index cache when it is to |
| CacheRuns.RefusedRunKeepsAll | libmamba/src/api/clean.cpp:177-310 | with both answers no and no other option nothing goes |
| CacheRuns.ForceTakesCaches | libmamba/src/api/clean.cpp:312-321 | with force every cache goes, whatever else is set |
| CacheRuns.InstalledIff | libmamba/src/api/clean.cpp:120-155 | on a file system, installed is exactly what the root prefix or a directory of its `envs` records |
| CacheClean.NestedCacheIsLost | libmamba/src/api/clean.cpp:207-226 | every package of a cache that lies in another one and looks like an unrecorded package there can go, recorded or not |
| CacheClean.RecordedPackageIsLost | libmamba/src/api/clean.cpp:207-226 | one file system on which a recorded package goes |
| CacheClean.RecordInIndexIsLost | libmamba/src/api/clean.cpp:49-67 | one file system on which a record goes with an index cache, and its package with it |
| CacheClean.OutsideCachesStays | libmamba/src/api/clean.cpp:49-321 | without trash cleaning nothing outside the caches changes |
| CacheClean.DryRunKeepsAllIff | libmamba/src/api/clean.cpp:49-321 | a dry run changes nothing if and only if, with force, nothing lies in a cache and, with trash, there is no trash to take and no list to write or take |
| CacheClean.DryRunForces | libmamba/src/api/clean.cpp:312-321 | with force a dry run removes every cache all the same |
| PrefixLifecycle.CreateEnvironment | libmamba/src/api/create.cpp:16-104 | result and files of a call for every request and every answer |
| PrefixLifecycle.OutcomeIff | libmamba/src/api/create.cpp:34-103 | how a call ends, from its arguments, the files and the answers |
| PrefixLifecycle.FilesAre | libmamba/src/api/create.cpp:34-122 | path by path what is there after a call |
| PrefixLifecycle.StorePlatformConfig | libmamba/src/api/create.cpp:108-122 | the platform file is made, and the flag says whether the prefix was new |
| PrefixLifecycle.Install | libmamba/src/api/install.cpp:531-555 | what an install leaves in each way out, a transaction that breaks included |
| PrefixLifecycle.DeclinedLeavesNothingIffSpecs | libmamba/src/api/install.cpp:630-653 | declining leaves no target prefix if and only if there were specs |
| PrefixLifecycle.FailureLeavesTargetIff | libmamba/src/api/create.cpp:69-82 | an earlier failure leaves the target behind if and only if something was stored in it |
| PrefixLifecycle.OnlyTargetIsRemoved | libmamba/src/api/create.cpp:36-67 | nothing outside the target is removed, and only a conda environment that the user gives up |
| PrefixLifecycle.RootSurvivesIff | libmamba/src/api/create.cpp:36-67 | an existing root prefix survives whatever the answers and failures if and only if it is a dry run, or the target is no environment above it, or the call makes an empty environment whose path it is |
| SelfUpdate.LatestPackage | micromamba/src/update.cpp:46-63 | the first of the packages with the highest version |
| SelfUpdate.Installation.Swap | micromamba/src/update.cpp:138-177 | exactly which faults leave no executable; never a single one, and the old program is never lost on a failure |
| CompareAst.CompareIffNormal | compare_stubs.py:8-23 | two trees compare as the same if and only if their normal forms are equal |
| CompareAst.TrimIff | compare_stubs.py:19-21 | lists agree under zip_longest if and only if they are equal once trailing None is cut |
| CompareAst.CompareIsEquivalence | compare_stubs.py:8-23 | on trees of one grammar the comparison is an equivalence |
| CompareAst.OneAttributeIff | compare_stubs.py:13-17 | exactly five attributes are not compared |
| CompareAst.BothWaysIffNormal | compare_stubs.py:8-23 | any two trees without doubled attributes compare as the same both ways if and only if their normal forms are equal |
| CompareAst.ComparisonIsOneSided | compare_stubs.py:8-23 | the function alone, on nodes of one type with different attributes, is not symmetric |
| CompareAst.TrailingNonesAreLost | compare_stubs.py:19-21 | lists of different lengths can compare as the same |
| Bin2Header.HeaderRoundTrip | libmamba/data/bin2header.py:31-44 | reading the generated header gives the bytes, one zero byte and their number |
| Bin2Header.NamesInHeader | libmamba/data/bin2header.py:31-44 | the lines around the rows and the names in them |
| Bin2Header.RowSizes | libmamba/data/bin2header.py:37-41 | ceil(n/12) rows, row k holding bytes 12k to 12k+11 or what is left |
| Bin2Header.LengthRead | libmamba/data/bin2header.py:43-44 | the emitted number is the length |
| Strings.SplitLoop | libmamba/src/util/string.cpp:664-700 | the two-index loop computes the split |
| Strings.SplitJoin | libmamba/src/util/string.cpp:664-700 | splitting undoes joining, for parts in which the separator cannot start |

## Left out

- libsolv, transactions, prefix data, match specs, URLs, YAML and JSON parsing: their results are parameters or arbitrary functions.
- Sockets, polling, signals, logging, console output, progress bars and prompt texts. Route callbacks are arbitrary functions of the request and the blank response.
- Time is an integer given with each request; reads of a connection are given chunks of text.
- git and gh calls, dates, the layout that `apply_changelog` and `dump` give the package changelogs, and universal newlines of Python files.
- Characters stand for bytes in the C++ parts; `isgraph` is that of the C locale.
- Removals that fail in `clean`, and its size computations and tables; directory listings are taken as sets, and the test of a lock file is an arbitrary predicate.
- The history, package cache and file contents in an environment: `PrefixLifecycle` keeps only which paths exist.
- A directory that is also a link: paths are lists of names.
- Null nodes, aliases and non-string keys of YAML; names that YAML would read as something other than a string.
- Settings of a type other than lists of strings, value hooks, and `implied` settings, which no setting of the repository declares.
- The strict and no channel priority hooks, the channel list of `repoquery`, and every command that only formats or forwards.
- Codesigning is a step of the swap that may fail; the shell started after a self-update is not modelled.
- CacheClean.NeverGoesIff: leaves out directories named like locks or trash that are no package folders, which go when they happen to be empty, and the list of trash, which goes when no trash is left.
- ChangelogRoundTrip.ChangelogsFromPrs: asks that titles and the other fields are single lines, as the GitHub API gives them, and that the old content starts with a release, because the result is another one otherwise (`ChangelogRoundTrip.BlockAloneIff`).
- CompareAst.CompareIffNormal: asks that nodes of one type have the same attributes, as Python's `ast` gives them, because the comparison raises or is one-sided otherwise.
- RequestPrinter.ParseUndoesPrint: asks for header values without leading spaces, names without ':' and no separator inside a field, because the parser cannot tell others apart.
- SpecFileLaws.ExportThenIngestIff: asks for a platform without a line feed, because with one the header itself breaks apart.
- SelfUpdate.LatestPackage: versions are compared by an arbitrary rank; their parsing is not part of this model.
- ChannelLoader.Attempt.VisitLocation: a package location only counts as "no channel"; the list of packages and the error for a URL that does not parse are not kept.
- ChannelLoader.Session.LoadChannels: the repository of listed packages and the ones made from the package directories when offline are not entered; they touch neither priorities nor errors of the subdirectories.
- ConfigValue.Configurable.Compute: computes at the level of all sources, for settings without default or fallback hooks, as the list settings modelled here are; an environment variable that does not convert is not modelled.
- LoadingSequence.Loader.Add: without the walk over implied settings, because no setting declares any.
- SolveCache.Service.Handle: the copy of a cache entry is taken to share its pool with the entry, as the later removal of the repo on the copy supposes; the pool class that allows such copies is not part of this model.
