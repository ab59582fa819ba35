# hml: physics-object addressing, cuts and generator fragments

A model in Dafny of the core of `hml`, a high-energy-physics toolkit for machine learning on collider events.

## What is modelled

**The addressing grammar.** Identifiers such as `Jet0`, `Jet1:3`, `Jet:2.Constituents:10` and `Jet0,Jet1` name physics objects inside one event. The model covers:
- the base observable of `hml/types.py`:
  - `parse_branch` and `parse_physics_object`, which turn an identifier into `(field, start, stop)` selections;
  - `read`, which resolves them against an event into None-padded lists of main and sub objects;
  - `name`;
  - the registry of observable classes built by `__init_subclass__` and `add_alias`.
- the per-kind classes: single, collective, nested and multiple physics objects, and the integer index. For each it models the recogniser, `from_id`/`from_name`, `id`/`name`, `config`/`from_config` and the read with its out-of-range rules.

An event is abstract:
- a map from branch name to a sequence of objects;
- each object has named sub-collections;
- the event carries the set of leaf names.

**The observable value builders.**
- `MomentumX`/`Px` and `PseudoRapidity`/`Eta` map the resolved lists to values of the same shape, with nan for a missing object. The kinematic quantity is a function parameter.
- `NSubjettinessRatio`/`TauMN` computes `Tau[m-1] / Tau[n-1]` with its guards. `Tau` is a function parameter.

**The cut engine** (`hml/approaches/cuts/cut.py`). The model covers:
- the `veto` and `any` prefixes;
- the `and`/`or` rewrite;
- the split into atomic clauses;
- the regular expression that finds each clause's observable, modelled exactly;
- the split of double-bounded clauses into two half-clauses;
- the shape check of `read`;
- null-to-False, the `any`/`all` reduction and the veto negation.

Python's `eval` of the combined expression is replaced by an explicit skeleton, in module `CutSkeleton`:
- a tokenizer;
- a precedence parser in which `&` binds tighter than `|`, both are left-associative and parentheses are honoured;
- evaluation over columns of optional booleans.

**Generator fragments** (`hml/generators.py`, `hml/new_generators.py`):
- the setters of `Madgraph5` and the settings entries they write;
- the sub-run count, as ceiling division;
- the command lists;
- the random-seed rewrite of Pythia8 and Delphes cards;
- the log-status scan;
- process-card parsing;
- run naming;
- the marker state machine of the newer `_check_status`.

Shared modules model the Python behaviour the core relies on:
- `Wrappers`: `Option`, `Result` with Python's exception kinds, and an element-by-element map that stops at the first error;
- `Strings`: `str.split`, `strip`, `replace`, `lower`, `int()`, `isdigit`, and regex `$`;
- `Dicts`: insertion-ordered dictionaries;
- `Events`: slicing and None padding;
- `Configs`: configuration dictionaries.

## Model

| member | source | states |
|---|---|---|
| `Types.AppendColon` | hml/types.py:145-146 | a branch that is letters only gets a colon appended; any other branch is unchanged |
| `Types.SliceMatch` | hml/types.py:152-153 | when the slice pattern matches, its groups are a non-empty run of letters followed by digits, an optional colon and digits, and together they make up the text |
| `Types.ParseBranch` | hml/types.py:144-170 | `parse_branch` never raises, for every input text |
| `Types.ParseLetters` | hml/types.py:145-157 | a bare letters-only branch `F` selects the whole field: `(F, 0, None)` |
| `Types.ParseIndex` | hml/types.py:148-151 | letters then digits `Fn` select the one index: `(F, n, n+1)` |
| `Types.ParseAppendedSingle` | hml/types.py:148-151 | a text the single pattern matches as letters `F` and digits `n` selects `(F, n, n+1)` |
| `Types.IndexNotLetters` | hml/types.py:145-146 | letters followed by digits are not letters only, so no colon is appended |
| `Types.ParseNotLetters` | hml/types.py:145-146 | a branch that is not letters only reaches the patterns unchanged |
| `Types.ParseSlice` | hml/types.py:152-166 | `F a:b` selects from `a` (0 when omitted) to `b` (None when omitted) |
| `Types.ParseOther` | hml/types.py:167-168 | a branch matching neither pattern gives None instead of raising |
| `Types.AppendedNeverRaises` | hml/types.py:152-155 | a text that reaches the slice pattern always holds a colon, so `indices[1]` exists |
| `Types.ParseItem` | hml/types.py:175-184 | a component has a sub exactly when it holds a period; with a period it must split into exactly two branches, else ValueError |
| `Types.ParseItemNested` | hml/types.py:180-184 | `main.sub` parses to the main branch and the sub branch |
| `Types.ParsePhysicsObject` | hml/types.py:172-185 | it succeeds exactly when every comma-separated component parses; the items are one per component, in order; the only error is ValueError |
| `Types.ParseItemsFacts` | hml/types.py:172-185 | the loop over the components succeeds exactly when every component parses; item `i` is then component `i`'s parse; the only error is ValueError |
| `Types.ParseComponents` | hml/types.py:172-185 | components without commas, joined by commas, give one item each, in order |
| `Types.ParseOneComponent` | hml/types.py:174-179 | an identifier without a comma is one item |
| `Types.ParseBoundedNested` | hml/types.py:172-185 | `M:a.S:b` parses to the first `a` mains and the first `b` subs of each |
| `Types.NestedItem` | hml/types.py:180-184 | the item that `M:a.S:b` gives |
| `Types.PrefixBranch` | hml/types.py:158-160 | `M:a` selects `(M, 0, a)` and holds no period |
| `Types.ParseJetsConstituents` | hml/types.py:172-185 | `Jet:2.Constituents:10` parses to the first two jets and the first ten constituents of each |
| `Types.MainSelection` | hml/types.py:45-60 | a missing field is an error; otherwise the main list is the field clipped to the slice and padded with None to `stop - start` |
| `Types.SubEntry` | hml/types.py:72-96 | a None main gives `[None]` for an unbounded sub; a real main errs exactly when it lacks the sub field |
| `Types.SubEntryBounded` | hml/types.py:80-96 | for a real main, a bounded sub list has `max(0, stop - start)` entries: the sub objects in slice order, then None |
| `Types.SubEntryOfNone` | hml/types.py:73-78 | a None main gives `[None]` for an unbounded sub and `max(0, stop - start)` Nones for a bounded one |
| `Types.SubEntryLength` | hml/types.py:72-96 | with a bounded sub, every sub list has `max(0, stop - start)` entries, whether or not its main exists |
| `Types.ReadItems` | hml/types.py:40-98 | after a read without error there are exactly as many main lists and sub lists as components |
| `Types.ReadItemsStops` | hml/types.py:40-98 | once a component fails, the later ones change nothing |
| `Types.StepRead` | hml/types.py:40-98 | a component read without error appends one main list and one sub list, as `ComponentRead` describes |
| `Types.StepOfRead` | hml/types.py:40-98 | a component whose lists are as `ComponentRead` describes appends exactly those lists |
| `Types.EntriesSnoc` | hml/types.py:40-98 | lists that match `ComponentRead` component by component still do after one more component's lists are appended |
| `Types.ReadEntries` | hml/types.py:40-98 | after a read without error, each component's lists are what `ComponentRead` describes: the main selection, `[]` without a sub, and one sub list per main entry with one |
| `Types.ReadOfEntries` | hml/types.py:40-98 | conversely, lists that match `ComponentRead` for every component are exactly what a read leaves |
| `Types.Observable.constructor` | hml/types.py:24-32 | the parsed identifier, the class name and the given name are stored; the lists start empty and there is no value |
| `Types.Observable.Name` | hml/types.py:104-109 | without an identifier, the name is the given name, or else the class name |
| `Types.Observable.Read` | hml/types.py:34-102 | the lists become what `ReadItems` resolves; without error the value becomes `get_value` of them; on error that error is raised and the value is kept |
| `Types.ReadComponent` | hml/types.py:40-96 | one pass of the loop over components leaves what `Step` describes |
| `Types.Prepare` | hml/types.py:46-60 | the clipped list is padded to exactly `max(0, stop - start)` for a bounded stop; an unbounded one is the plain slice |
| `Types.SubsPerMain` | hml/types.py:71-96 | the inner loop produces the sub lists `SubEntry` describes, up to the first error |
| `Types.ReadSubEntry` | hml/types.py:72-96 | one main object's sub list is what `SubEntry` describes |
| `Types.NewObservable` | hml/types.py:24-32 | an identifier that does not parse raises ValueError; otherwise a fresh observable holds the parsed items |
| `Types.Registry.constructor` | hml/types.py:22 | the registry starts empty |
| `Types.Registry.RegisterSubclass` | hml/types.py:193-195 | every subclass is registered under its own name |
| `Types.Registry.AddAlias` | hml/types.py:197-201 | the registry becomes the old one with each alias added in turn |
| `Types.WithAliasesLookup` | hml/types.py:197-201 | after `add_alias` every alias names the class, and every other name is as it was |
| `Types.SubEntryAsWritten` | hml/types.py:72-96 | the sub list of one main object as written, threading the local `required_sub_length`; a None main does not change the local |
| `Types.SubsAsWritten` | hml/types.py:71-98 | as written, one sub list per main object when no error occurs |
| `Types.AsWrittenUnbound` | hml/types.py:73-77 | as written, `Jet:1.Constituents:2` on an event without jets raises UnboundLocalError |
| `Types.CorrectedUnbound` | hml/types.py:73-84 | corrected, the same read gives two Nones for the missing jet |
| `Types.AsWrittenStale` | hml/types.py:73-84 | as written, a missing main gets the sub length left over from an earlier component |
| `Types.StaleFirstStep` | hml/types.py:73-84 | as written, a first component `Jet:1.Constituents:5` leaves five as the sub length |
| `Types.StaleSecondStep` | hml/types.py:73-84 | as written, with five left over, a missing tenth jet gets five Nones although its own sub asks for three |
| `Types.CorrectedStale` | hml/types.py:73-84 | corrected, it gets the length of its own sub |
| `Events.Slice` | hml/types.py:46 | `xs[start:stop]`: its length and its elements in slice order |
| `Events.Nones` | hml/types.py:57 | `[None] * k` has `max(0, k)` entries, all None |
| `Events.PadTo` | hml/types.py:52-60 | padding keeps the list as its prefix and fills with None up to the required length |
| `Events.SelectBounded` | hml/types.py:45-60 | a bounded selection has `max(0, stop - start)` entries: objects in slice order, then None |
| `Events.SelectUnbounded` | hml/types.py:45-60 | an unbounded selection is exactly `xs[start:]`, not padded |
| `Single.Match` | hml/physics_objects/single.py:20 | the groups of `^([A-Za-z]+)(\d+)$`: non-empty letters, non-empty digits, making up the text |
| `Single.MatchOf` | hml/physics_objects/single.py:20 | letters followed by digits match, with the letters and the digits as the groups |
| `Single.MatchIff` | hml/physics_objects/single.py:20 | the pattern matches exactly texts of one or more letters followed by one or more digits |
| `Single.IsSingle` | hml/physics_objects/single.py:9-16 | False for None and `""`; otherwise True exactly when the pattern matches |
| `Single.SinglePhysicsObject.Name` | hml/physics_objects/single.py:37-39 | the type followed by the decimal index |
| `Single.SinglePhysicsObject.Config` | hml/physics_objects/single.py:53-60 | the configuration has exactly the keys `class_name`, `type` and `index` |
| `Single.SinglePhysicsObject.Read` | hml/physics_objects/single.py:26-35 | ValueError for a missing branch; None exactly when the index is at or past the entry count; otherwise the entry at the index |
| `Single.FromName` | hml/physics_objects/single.py:41-51 | it succeeds exactly when the space-free name matches the pattern; otherwise ValueError; a result has a letters-only type and a non-negative index |
| `Single.FromConfig` | hml/physics_objects/single.py:62-67 | a wrong `class_name` raises ValueError |
| `Single.FromNameOfName` | hml/physics_objects/single.py:37-51 | reading back the name of a letters-only type and a non-negative index restores the object |
| `Single.NameOfFromName` | hml/physics_objects/single.py:37-51 | printing what a name without a leading zero reads as restores the name |
| `Single.FromNameIgnoresSpaces` | hml/physics_objects/single.py:43 | spaces anywhere in the name make no difference |
| `Single.FromConfigOfConfig` | hml/physics_objects/single.py:53-67 | reading back the configuration restores the object |
| `Collective.SingleObjects` | hml/physics_objects/collective.py:153 | the single object read at an index is a list of at most one entry |
| `Collective.Contribution` | hml/physics_objects/collective.py:153-154 | each index adds exactly one slot: the entry when it exists, else None |
| `Collective.Collective.Fetch` | hml/physics_objects/collective.py:146-154 | `max(0, stop - start)` slots, or `max(0, n - start)` for a stop of -1; each slot holds the entry at `start + k` when there is one, else None; a missing field counts as no entries |
| `Collective.Collective.Id` | hml/physics_objects/collective.py:175-185 | the identifier always holds a colon |
| `Collective.Collective.Config` | hml/physics_objects/collective.py:236-244 | the configuration has exactly the keys `classname`, `field`, `start` and `stop` |
| `Collective.All` | hml/physics_objects/collective.py:98-101 | the defaults (start 0, stop -1) print as `F:` |
| `Collective.FromId` | hml/physics_objects/collective.py:208-234 | ValueError without a colon or with a comma or a period; a result has a non-negative start |
| `Collective.FromHalves` | hml/physics_objects/collective.py:228-234 | the halves read into an object with a non-negative start |
| `Collective.NameAndStart` | hml/physics_objects/collective.py:229-231 | a text without digits is the name, with start 0 |
| `Collective.StopOf` | hml/physics_objects/collective.py:232 | an empty stop reads as -1 |
| `Collective.IsCollective` | hml/physics_objects/collective.py:39-44 | a recognised identifier has a colon and no comma or period |
| `Collective.FromConfig` | hml/physics_objects/collective.py:263-268 | a missing classname raises KeyError, a wrong one ValueError |
| `Collective.Reader.constructor` | hml/physics_objects/collective.py:98-102 | the descriptor is stored and `objects` starts empty |
| `Collective.Reader.ReadTtree` | hml/physics_objects/collective.py:146-156 | `objects` is cleared, then refilled to exactly what `Fetch` describes |
| `Collective.FromIdTwoColons` | hml/physics_objects/collective.py:228 | more than one colon raises ValueError at the unpacking |
| `Collective.FromIdOfHalves` | hml/physics_objects/collective.py:208-234 | with one colon and no comma or period, `from_id` is the reading of the two halves |
| `Collective.FromIdOfId` | hml/physics_objects/collective.py:175-234 | reading back the identifier restores field, start and stop, for a field without digits or separators, a non-negative start and any stop |
| `Collective.FromHalvesOfParts` | hml/physics_objects/collective.py:228-234 | the halves of a printed identifier read back as its parts |
| `Collective.NameAndStartOf` | hml/physics_objects/collective.py:229-231 | a field without digits followed by the start numeral reads back as both |
| `Collective.StopOfText` | hml/physics_objects/collective.py:232 | the printed stop reads back as the stop, -1 included |
| `Collective.ZeroStartNormalises` | hml/physics_objects/collective.py:228-234 | `Jet0:` reads as all jets, whose identifier is `Jet:` |
| `Collective.ZeroStartHalves` | hml/physics_objects/collective.py:228-234 | the halves `Jet0` and `""` read as all jets |
| `Collective.IsCollectiveAll` | hml/physics_objects/collective.py:24-25 | a field name without digits or separators followed by a colon, such as `Jet:`, is collective |
| `Collective.IsCollectiveNotSingle` | hml/physics_objects/collective.py:27-28 | `Jet0` is not |
| `Collective.IsCollectiveNotNested` | hml/physics_objects/collective.py:30-31 | `Jet0.Constituents:100` is not |
| `Collective.IsCollectiveNotMultiple` | hml/physics_objects/collective.py:33-34 | `Jet0,Jet1` is not |
| `Collective.FromConfigOfConfig` | hml/physics_objects/collective.py:236-268 | reading back the configuration restores the object |
| `Nested.Part.ReadAsList` | hml/physics_objects/nested.py:43-46 | a single main gives a one-element list |
| `Nested.SegmentHasNoPeriod` | hml/physics_objects/nested.py:24 | a half of the pattern holds no period, newline or space |
| `Nested.Match` | hml/physics_objects/nested.py:24 | the groups are two segments joined by one period, making up the text |
| `Nested.MatchIff` | hml/physics_objects/nested.py:24 | the pattern matches exactly two segments joined by one period |
| `Nested.IsNested` | hml/physics_objects/nested.py:13-20 | False for None and `""`; otherwise True exactly when the pattern matches |
| `Nested.PartFromName` | hml/physics_objects/nested.py:97-108 | a half is a single exactly when it matches the single pattern; otherwise it is the collective read from it |
| `Nested.NestedPhysicsObject.Name` | hml/physics_objects/nested.py:82-87 | without a stored name, the two halves' names joined by a period |
| `Nested.NestedPhysicsObject.Config` | hml/physics_objects/nested.py:114-121 | the configuration has exactly the keys `class_name`, `main_config` and `sub_config` |
| `Nested.NestedPhysicsObject.SubEntry` | hml/physics_objects/nested.py:49-78 | a None main gives None for a single sub and `[None]` for a collective one, unpadded |
| `Nested.NestedPhysicsObject.ReadSpec` | hml/physics_objects/nested.py:36-80 | ValueError without the leaf `main.sub`; otherwise exactly one entry per main object |
| `Nested.NestedPhysicsObject.ReadObject` | hml/physics_objects/nested.py:55-78 | for a main object that exists the loop body gives what `SubEntry` describes |
| `Nested.NestedPhysicsObject.Read` | hml/physics_objects/nested.py:36-80 | the loop returns what `ReadSpec` describes |
| `Nested.FromName` | hml/physics_objects/nested.py:89-112 | ValueError when the space-free name does not match; the name of a result is the space-free input; each half is a single exactly when it matches the single pattern |
| `Nested.PartFromConfig` | hml/physics_objects/nested.py:130-138 | a missing half raises KeyError |
| `Nested.FromConfig` | hml/physics_objects/nested.py:123-140 | a wrong `class_name` raises ValueError; a result carries no stored name |
| `Nested.SingleHalfReads` | hml/physics_objects/nested.py:98-99 | a half matching the single pattern always reads as one |
| `Nested.ReadOnePerMain` | hml/physics_objects/nested.py:43-80 | one entry per main object; a None main gives None or `[None]` |
| `Nested.SingleSubEntry` | hml/physics_objects/nested.py:56-61 | for a single sub, a real main gives the leaf at the index, or None at or past the end |
| `Nested.CollectiveSubEntry` | hml/physics_objects/nested.py:62-78 | for a collective sub, the slice of the leaves, None-padded to `end - start` when the end is given, with start 0 when omitted |
| `Nested.PartFromConfigOfConfig` | hml/physics_objects/nested.py:130-138 | a half's configuration reads back as that half |
| `Nested.FromConfigOfConfig` | hml/physics_objects/nested.py:114-140 | reading back the configuration restores both halves, but not a stored name |
| `Multiple.KindOf` | hml/physics_objects/multiple.py:69-81 | every component's kind is one of single, collective and nested |
| `Multiple.ComponentIds` | hml/physics_objects/multiple.py:176 | one identifier per component, in order |
| `Multiple.Classify` | hml/physics_objects/multiple.py:203-211 | single is tried first, then collective, then nested; a piece none of them recognises raises ValueError |
| `Multiple.FromIdSpec` | hml/physics_objects/multiple.py:199-212 | ValueError without a comma; otherwise one component per comma-separated piece, in order; a failure comes from some piece |
| `Multiple.FromId` | hml/physics_objects/multiple.py:179-212 | the loop returns what `FromIdSpec` describes |
| `Multiple.Lowered` | hml/physics_objects/multiple.py:70-76 | each type name lower-cased, in order |
| `Multiple.IsMultipleSpec` | hml/physics_objects/multiple.py:57-87 | False when the identifier does not parse, True when no types are given; the only error is ValueError |
| `Multiple.IsMultiple` | hml/physics_objects/multiple.py:57-87 | the function returns what `IsMultipleSpec` describes |
| `Multiple.SupportedClasses` | hml/physics_objects/multiple.py:69-81 | it succeeds exactly when every lower-cased name is a kind, and then gives those names |
| `Multiple.AllSupported` | hml/physics_objects/multiple.py:83-87 | True exactly when every component's kind is supported |
| `Multiple.MultiplePhysicsObject.constructor` | hml/physics_objects/multiple.py:129-131 | the components are stored and `objects` starts empty |
| `Multiple.MultiplePhysicsObject.ReadTtree` | hml/physics_objects/multiple.py:166-167 | `objects` becomes one entry per component, in order; on a failure the error propagates and `objects` is unchanged |
| `Multiple.ReadAll` | hml/physics_objects/multiple.py:166 | the comprehension reads each component in order, up to the first failure |
| `Multiple.Config` | hml/physics_objects/multiple.py:214-220 | the keys `classname` and `all_configs`, with one configuration per component, in order |
| `Multiple.ComponentFromConfig` | hml/physics_objects/multiple.py:243-251 | an item that is not a dictionary has no `get`; an unknown classname raises ValueError |
| `Multiple.FromConfig` | hml/physics_objects/multiple.py:239-252 | a wrong classname raises ValueError; missing `all_configs` cannot be iterated; a list gives one component per item |
| `Multiple.IdPieces` | hml/physics_objects/multiple.py:176 | the pieces of `id` are the components' identifiers one to one |
| `Multiple.FromIdOfId` | hml/physics_objects/multiple.py:176-212 | reading back the identifier restores the components, when each identifier is classified as its own component |
| `Multiple.ClassifyCollective` | hml/physics_objects/multiple.py:206-207 | a collective identifier that the single recogniser rejects is classified as that collective |
| `Multiple.FromConfigOfConfig` | hml/physics_objects/multiple.py:214-252 | reading back the configuration restores the components |
| `Multiple.TwoJetsPieces` | hml/physics_objects/multiple.py:203 | `Jet0,Jet1` splits into `Jet0` and `Jet1` |
| `Multiple.TwoSinglesParse` | hml/physics_objects/multiple.py:199-212 | two comma-joined single identifiers parse to exactly their two single components |
| `Multiple.TwoJetsParse` | hml/physics_objects/multiple.py:199-212 | `Jet0,Jet1` parses to exactly the two singles `Jet0` and `Jet1` |
| `Multiple.IsMultipleTwoJets` | hml/physics_objects/multiple.py:35-36 | `Jet0,Jet1` is multiple |
| `Multiple.IsMultipleTwoSingles` | hml/physics_objects/multiple.py:48-49 | `Jet0,Jet1` is multiple with `["single"]` |
| `Multiple.IsMultipleOfSingles` | hml/physics_objects/multiple.py:57-87 | an identifier whose components are all single is multiple with the one type `k` exactly when `k` is `single` |
| `Multiple.IsMultipleNotCollective` | hml/physics_objects/multiple.py:51-52 | `Jet0,Jet1` is not multiple with `["collective"]` |
| `Multiple.IsMultipleNeedsComma` | hml/physics_objects/multiple.py:38-45 | an identifier without a comma is not multiple |
| `Multiple.IsMultipleUnknownType` | hml/physics_objects/multiple.py:77-81 | an unknown type name raises ValueError for every identifier that parses |
| `IntegerIndices.IntegerIndex.Name` | hml/indices/integer.py:20-22 | a non-negative value prints as a non-empty run of digits |
| `IntegerIndices.IntegerIndex.Config` | hml/indices/integer.py:34-36 | the configuration has the one key `value` |
| `IntegerIndices.Default` | hml/indices/integer.py:13 | the default value is 0 |
| `IntegerIndices.FromName` | hml/indices/integer.py:24-32 | it succeeds exactly when the whole name is one or more decimal digits; otherwise ValueError |
| `IntegerIndices.FromConfig` | hml/indices/integer.py:38-40 | a missing `value` raises KeyError; a non-integer one raises TypeError |
| `IntegerIndices.FromNameIsInt` | hml/indices/integer.py:29-32 | the value read is Python's `int()` of the name |
| `IntegerIndices.FromNameOfName` | hml/indices/integer.py:20-32 | printing and reading back restores every non-negative value |
| `IntegerIndices.NameOfFromName` | hml/indices/integer.py:22-32 | reading and printing back restores the name exactly when it has no leading zero |
| `IntegerIndices.LeadingZerosNormalise` | hml/indices/integer.py:22-32 | `007` reads as 7 and prints as `7` |
| `IntegerIndices.FromConfigOfConfig` | hml/indices/integer.py:34-40 | reading back the configuration restores the index |
| `Kinematics.ValueOf` | hml/observables/momentum_x.py:12 | nan exactly for a missing object |
| `Kinematics.ValuesOf` | hml/observables/momentum_x.py:11-13 | one value per slot, in order, each from its own slot |
| `Kinematics.KinematicValues` | hml/observables/momentum_x.py:5-22 | None unless there is exactly one component; without a sub, one value per main slot; with one, one list per main slot mirroring its sub selection |
| `Kinematics.GetValue` | hml/observables/momentum_x.py:5-22 | the nested loops return what `KinematicValues` describes |
| `Kinematics.ValuesLoop` | hml/observables/momentum_x.py:11-13 | the loop returns what `ValuesOf` describes |
| `Kinematics.SeveralComponentsGiveNone` | hml/observables/momentum_x.py:6-7 | after a read of several components the value is None |
| `Kinematics.BoundedShape` | hml/observables/momentum_x.py:14-20 | `M:p.S:q` gives a `p` by `q` list of lists, and every row past the last present main object is `q` nans |
| `Kinematics.UnboundedSubShape` | hml/observables/momentum_x.py:14-20 | an unbounded sub gives one list per main slot, as long as that slot's sub selection |
| `MomentumX.GetValue` | hml/observables/momentum_x.py:5-22 | `get_value` with `Px` as the quantity is what `KinematicValues` describes |
| `MomentumX.TwoByTen` | tests/test_observables.py:22-36 | `Jet:2.Constituents:10` gives two lists of ten values |
| `MomentumX.TwoHundredSquared` | tests/test_observables.py:22-36 | `Jet:200.Constituents:200` gives two hundred lists of two hundred values, however few jets there are |
| `PseudoRapidity.GetValue` | hml/observables/pseudo_rapidity.py:5-22 | `get_value` with `Eta` as the quantity is what `KinematicValues` describes |
| `PseudoRapidity.Elementwise` | hml/observables/pseudo_rapidity.py:11-19 | each value depends only on its own slot |
| `NSubjettinessRatio.PyIndex` | hml/observables/n_subjettiness_ratio.py:21-24 | Python list indexing: negative indices count from the end; one out of range raises IndexError |
| `NSubjettinessRatio.NSubjettinessRatio.constructor` | hml/observables/n_subjettiness_ratio.py:5-8 | the orders `m` and `n` are stored |
| `NSubjettinessRatio.NSubjettinessRatio.RatioOf` | hml/observables/n_subjettiness_ratio.py:18-25 | nan for a missing object; IndexError exactly when `Tau[n-1]` is out of range, or when it is non-zero and `Tau[m-1]` is out of range |
| `NSubjettinessRatio.NSubjettinessRatio.Ratios` | hml/observables/n_subjettiness_ratio.py:10-27 | None unless there is exactly one component without a sub; otherwise one value per main slot, in order |
| `NSubjettinessRatio.NSubjettinessRatio.GetValue` | hml/observables/n_subjettiness_ratio.py:10-27 | the loop returns what `Ratios` describes |
| `NSubjettinessRatio.RatioOfPresent` | hml/observables/n_subjettiness_ratio.py:23-24 | with the orders in range and a non-zero `Tau[n-1]`, the value is `Tau[m-1] / Tau[n-1]` |
| `NSubjettinessRatio.TauTwoOverOne` | tests/test_observables.py:67-70 | `m = 2, n = 1` gives `Tau[1] / Tau[0]` |
| `NSubjettinessRatio.SubGivesNone` | hml/observables/n_subjettiness_ratio.py:14-15 | after a read of one component with a sub, the value is None |
| `NSubjettinessRatio.OneValuePerSlot` | hml/observables/n_subjettiness_ratio.py:17-27 | after a read of one component without a sub, one value per main slot |
| `Cuts.LastBoundary` | hml/approaches/cuts/cut.py:34 | where `\S+\b` stops after backtracking: the last word boundary in range |
| `Cuts.MatchAt` | hml/approaches/cuts/cut.py:34 | a match is a non-empty run without whitespace, between word boundaries |
| `Cuts.FirstMatch` | hml/approaches/cuts/cut.py:37 | the leftmost match, with no match starting before it |
| `Cuts.ObservableToken` | hml/approaches/cuts/cut.py:37 | IndexError exactly when nothing matches; otherwise a non-empty token without whitespace, taken from the clause |
| `CutText.Prefixes` | hml/approaches/cuts/cut.py:14-24 | veto is set exactly when the stripped expression starts with `veto`, and then every `veto` is removed and the rest stripped; `any` is tested on that text and, when found, every `any` is removed and the rest stripped; the text kept is always stripped |
| `CutText.DropPrefix` | hml/approaches/cuts/cut.py:17-19 | the flag is whether the text starts with the word; when it does, every occurrence of the word is removed and the rest stripped; otherwise the text is unchanged |
| `CutText.PrefixesVetoAny` | hml/approaches/cuts/cut.py:14-24 | `veto any body`, for a stripped body holding neither word, gives both flags and exactly the body |
| `CutText.PrefixesVeto` | hml/approaches/cuts/cut.py:16-19 | `veto body` gives the veto flag alone and the body |
| `CutText.PrefixesAny` | hml/approaches/cuts/cut.py:21-24 | `any body` gives the any flag alone and the body |
| `CutText.PrefixesDropEveryVeto` | hml/approaches/cuts/cut.py:17-19 | every `veto` is removed, not only the prefix: `veto b1veto b2` leaves `b1` and `b2` run together |
| `CutText.PrefixesNone` | hml/approaches/cuts/cut.py:14-24 | a text holding neither word gives neither flag and is only stripped |
| `CutText.RewriteAndJoin` | hml/approaches/cuts/cut.py:26 | clauses that hold neither `and` nor `or` as substrings, joined by `and`, become the same clauses joined by `&` |
| `CutText.RewriteOrJoin` | hml/approaches/cuts/cut.py:26 | clauses that hold neither `and` nor `or` as substrings, joined by `or`, become the same clauses joined by `|` |
| `CutText.RewriteInsideName` | hml/approaches/cuts/cut.py:26 | the rewrite replaces substrings: an `and` inside a name becomes `&` too |
| `CutText.DropChar` | hml/approaches/cuts/cut.py:32 | the character is gone, every other character keeps its count, and a text without the character is unchanged |
| `CutText.DropCharReplace` | hml/approaches/cuts/cut.py:32 | it is `str.replace` of the one-character text by the empty one |
| `CutText.DropCharAppend` | hml/approaches/cuts/cut.py:32 | it works piece by piece, so the other characters keep their order |
| `CutText.Clauses` | hml/approaches/cuts/cut.py:29-32 | no clause holds a parenthesis; which clauses come out is stated by the three lemmas below |
| `CutText.ClausesOfAndJoin` | hml/approaches/cuts/cut.py:29-32 | clauses without operators joined by `&` come back as those clauses, stripped and in order |
| `CutText.ClausesOfOrJoin` | hml/approaches/cuts/cut.py:29-32 | clauses without operators joined by `|`, with nothing to strip around the whole, come back as those clauses, stripped and in order |
| `CutText.ClausesOfAndOfOrs` | hml/approaches/cuts/cut.py:29-32 | groups of clauses joined by `|`, the groups joined by `&`, come back as all the clauses, group after group, each stripped |
| `Cuts.Halves` | hml/approaches/cuts/cut.py:38-39 | a clause splits in two exactly when no piece of `cut.split(obs)` is empty |
| `Cuts.CutStep` | hml/approaches/cuts/cut.py:36-44 | a clause fails exactly when it has no observable, with IndexError |
| `Cuts.CutSteps` | hml/approaches/cuts/cut.py:36-44 | the only error of the loop is IndexError |
| `Cuts.CutStepsFail` | hml/approaches/cuts/cut.py:36-44 | the loop fails exactly when some clause has no observable |
| `Cuts.LastStep` | hml/approaches/cuts/cut.py:36-37 | after clauses that all have an observable, one more step fails exactly when the new clause has none |
| `Cuts.InitFails` | hml/approaches/cuts/cut.py:36-37 | once the first clauses fail, the loop fails |
| `Cuts.AllTokens` | hml/approaches/cuts/cut.py:36-37 | when every earlier clause and the last one have an observable, every clause has one |
| `Cuts.CutStepDistinct` | hml/approaches/cuts/cut.py:40-44 | a step keeps the clause keys distinct |
| `Cuts.CutStepsDistinct` | hml/approaches/cuts/cut.py:35-46 | no clause is a key twice |
| `Cuts.CutStepsNext` | hml/approaches/cuts/cut.py:36-44 | one more clause is one more step |
| `Cuts.CutStepsStops` | hml/approaches/cuts/cut.py:36-37 | a failure in the first clauses is the failure of the loop |
| `Cuts.ParseExpression` | hml/approaches/cuts/cut.py:13-48 | the flags are those of the prefixes; the clause keys are distinct; the only error is IndexError |
| `Cuts.ClauseResults` | hml/approaches/cuts/cut.py:55-58 | one result per clause, keyed and ordered as the clause dict |
| `Cuts.ReadValue` | hml/approaches/cuts/cut.py:50-81 | ValueError unless all observables share one shape; otherwise the errors are those of evaluating the expression |
| `Cuts.OneClause` | hml/approaches/cuts/cut.py:37-44 | the body of the loop for one clause is `CutStep` |
| `Cuts.ClauseLoop` | hml/approaches/cuts/cut.py:36-44 | the loop returns what `CutSteps` describes |
| `Cuts.Cut.constructor` | hml/approaches/cuts/cut.py:9-10 | the expression is stored, not yet parsed |
| `Cuts.Cut.Parse` | hml/approaches/cuts/cut.py:13-48 | the fields become what `ParseExpression` gives, or it raises IndexError |
| `Cuts.Cut.Read` | hml/approaches/cuts/cut.py:50-81 | the value becomes what `ReadValue` gives, or its error is raised |
| `Cuts.NewCut` | hml/approaches/cuts/cut.py:9-11 | `Cut(expression)` raises IndexError exactly when parsing fails |
| `Cuts.OneShapeAgree` | hml/approaches/cuts/cut.py:61-63 | the shape set has one element exactly when there is an observable and all shapes agree |
| `Cuts.ReadVeto` | hml/approaches/cuts/cut.py:78-79 | a veto passes exactly the events the same cut without it rejects, and fails where that fails |
| `Cuts.NonSpaceRunOfName` | hml/approaches/cuts/cut.py:34 | the run of non-whitespace characters starting at a name followed by whitespace ends at the name's end |
| `Cuts.MatchOfName` | hml/approaches/cuts/cut.py:34 | a name after a non-word character, before whitespace or the end, is matched whole |
| `Cuts.FirstMatchIs` | hml/approaches/cuts/cut.py:37 | when no match starts in `[p, q)` and one starts at `q`, the first match from `p` is that one |
| `Cuts.TokenOfLeadingName` | hml/approaches/cuts/cut.py:37 | `Jet0.PT > 100` binds `Jet0.PT` |
| `Cuts.NumberHasNoMatch` | hml/approaches/cuts/cut.py:34 | no match starts in or after an integer literal |
| `Cuts.NumberHasNoToken` | hml/approaches/cuts/cut.py:37 | a clause that is only a number raises IndexError |
| `Cuts.OperatorHasNoMatch` | hml/approaches/cuts/cut.py:34 | no match starts inside the comparison symbols between a number and a name |
| `Cuts.TokenAfterNumber` | hml/approaches/cuts/cut.py:37-39 | `10 < Jet0.PT` binds the name after the number |
| `Cuts.TokenAfterNegative` | hml/approaches/cuts/cut.py:37 | `-2 < Jet0.Phi` binds the name after the signed number and the operator |
| `Cuts.HalvesOfBounded` | hml/approaches/cuts/cut.py:38-39 | a clause with text on both sides of the only occurrence of its observable splits into `left obs` and `obs right` |
| `Cuts.HalvesOfLeading` | hml/approaches/cuts/cut.py:38 | a clause that starts with its observable does not split |
| `Cuts.HalvesOfTrailing` | hml/approaches/cuts/cut.py:38 | a clause that ends with the only occurrence of its observable does not split |
| `Cuts.CutStepBounded` | hml/approaches/cuts/cut.py:37-42 | a double-bounded clause binds both halves to its observable and is replaced in the expression by `(left obs & obs right)` |
| `Cuts.CutStepLeading` | hml/approaches/cuts/cut.py:37-44 | a clause that starts with its observable is a key as it is, and the expression is unchanged |
| `Cuts.CutStepTrailing` | hml/approaches/cuts/cut.py:37-44 | a clause that ends with its observable is a key as it is, and the expression is unchanged |
| `Cuts.CutStepOneSided` | hml/approaches/cuts/cut.py:37-44 | any clause that does not split is a key as it is, bound to its observable, and the expression is unchanged |
| `Cuts.CutStepsOneSided` | hml/approaches/cuts/cut.py:35-46 | for clauses that do not split, the loop succeeds, leaves the expression unchanged and binds every clause to its own observable |
| `Cuts.PrefixesPlain` | hml/approaches/cuts/cut.py:14-24 | a stripped expression that starts with neither `veto` nor `any` gives neither flag and is kept whole |
| `Cuts.PlainClause` | hml/approaches/cuts/cut.py:14-32 | one clause without padding or parenthesis that starts with neither `veto` nor `any` and holds neither `and` nor `or` is its own rewrite and its only clause |
| `Cuts.ParseOfSteps` | hml/approaches/cuts/cut.py:13-48 | without prefixes, the parse holds the dict and expression the clause loop gives |
| `Cuts.ParseOfOneSided` | hml/approaches/cuts/cut.py:13-48 | without prefixes and with clauses that do not split, the parse succeeds with the rewritten text and binds each clause to its observable |
| `Cuts.ParseOfJoin` | hml/approaches/cuts/cut.py:13-48 | an expression whose rewrite is clauses joined by one operator parses with each stripped clause bound to its observable, and its skeleton is the left-grouped chain of those clauses, each of them a key |
| `Cuts.ParseAndOnly` | hml/approaches/cuts/cut.py:13-48 | when the joined text has no padding and starts with neither `veto` nor `any`, and no clause holds `and`, `or` or a parenthesis or is double-bounded, clauses joined by `and` parse without prefix to one key per clause, bound to its observable, and to the clauses joined by `&`, whose skeleton is their left-grouped conjunction; every leaf is a key |
| `Cuts.ParseOrOnly` | hml/approaches/cuts/cut.py:13-48 | clauses joined by `or` parse the same way, under the same conditions, to the clauses joined by `|`, whose skeleton is their left-grouped disjunction; every leaf is a key |
| `Cuts.LeavesAreKeys` | hml/approaches/cuts/cut.py:36-44 | when every clause is bound, every leaf of their chain is a key of the clause dict |
| `Cuts.StepsOfBounded` | hml/approaches/cuts/cut.py:35-44 | the loop over one double-bounded clause gives the dict of its two halves and the expression `(left obs & obs right)` |
| `Cuts.SkeletonOfBounded` | hml/approaches/cuts/cut.py:42 | the expression `(left obs & obs right)` reads as the conjunction of the two halves |
| `Cuts.ParseDoubleBounded` | hml/approaches/cuts/cut.py:13-48 | a double-bounded clause that starts with neither `veto` nor `any` and holds neither `and` nor `or` parses to exactly its two halves as keys, both bound to the observable, and to `(left obs & obs right)`, whose skeleton is their conjunction |
| `Cuts.ParseTenToHundred` | hml/approaches/cuts/cut.py:13-48 | `10 < Jet0.PT < 100` parses to the keys `10 < Jet0.PT` and `Jet0.PT < 100`, both on `Jet0.PT`, and to their conjunction |
| `Cuts.GetClauseResults` | hml/approaches/cuts/cut.py:55-58 | the result under a clause is the evaluation of that clause with its own observable; a text that is not a clause has none |
| `Cuts.ReadOfKeyedLeaves` | hml/approaches/cuts/cut.py:65-70 | in the corrected read, when every leaf of the expression is a key of the clause dict, the read fails only with ValueError |
| `Cuts.ReadAndOnly` | hml/approaches/cuts/cut.py:13-81 | clauses joined by `and`, under the conditions of `ParseAndOnly`, parse, and their corrected read fails only with ValueError, never NameError or SyntaxError |
| `Cuts.ReadOrOnly` | hml/approaches/cuts/cut.py:13-81 | clauses joined by `or`, under the conditions of `ParseOrOnly`, parse, and their corrected read fails only with ValueError, never NameError or SyntaxError |
| `Cuts.ReadOfPair` | hml/approaches/cuts/cut.py:55-79 | in the corrected read, an expression that reads as the conjunction of two clauses on one observable gives the `&` of their results, reduced per event, or the ValueError of that `&` |
| `Cuts.ReadOfBounded` | hml/approaches/cuts/cut.py:13-81 | a double-bounded clause, under the conditions of `ParseDoubleBounded`, reads as the elementwise `&` of its two halves' results, reduced per event; ValueError exactly when their layouts differ |
| `Cuts.Substituted` | hml/approaches/cuts/cut.py:66-68 | the substitution places the result of a clause exactly when the clause begins and ends with a word character |
| `Cuts.SubstitutedAll` | hml/approaches/cuts/cut.py:66-68 | when every clause does, every result is placed |
| `Cuts.ReadValueAsWritten` | hml/approaches/cuts/cut.py:50-81 | as written: ValueError unless all observables share one shape; the same as the corrected read when every clause begins and ends with a word character |
| `Cuts.ReadAsWrittenOfPair` | hml/approaches/cuts/cut.py:65-70 | as written, a conjunction whose first clause does not begin and end with a word character fails with NameError |
| `Cuts.ReadAsWrittenOfBounded` | hml/approaches/cuts/cut.py:38-70 | as written, a double-bounded clause under the conditions of `ParseDoubleBounded` whose lower bound starts with a non-word character fails with NameError |
| `Cuts.ReadSignedBound` | hml/approaches/cuts/cut.py:37-70 | `-2 < Jet0.Phi < 2` fails with NameError as written, whatever the data; corrected, it succeeds exactly when the layouts of its two halves agree |
| `CutSkeleton.Flush` | hml/approaches/cuts/cut.py:70 | the gathered text becomes at most one non-blank clause token |
| `CutSkeleton.Lex` | hml/approaches/cuts/cut.py:70 | every clause token is non-empty |
| `CutSkeleton.ParseOr` | hml/approaches/cuts/cut.py:70 | an `|` expression consumes at least one token; the only error is SyntaxError |
| `CutSkeleton.OrTail` | hml/approaches/cuts/cut.py:70 | the rest of an `|` chain stays in range; the only error is SyntaxError |
| `CutSkeleton.ParseAnd` | hml/approaches/cuts/cut.py:70 | an `&` expression consumes at least one token; the only error is SyntaxError |
| `CutSkeleton.AndTail` | hml/approaches/cuts/cut.py:70 | the rest of an `&` chain stays in range; the only error is SyntaxError |
| `CutSkeleton.Atom` | hml/approaches/cuts/cut.py:70 | a clause or a parenthesised expression consumes at least one token |
| `CutSkeleton.ParseTokens` | hml/approaches/cuts/cut.py:70 | the only error is SyntaxError |
| `CutSkeleton.ParseSkeleton` | hml/approaches/cuts/cut.py:65-70 | the only error is SyntaxError |
| `CutSkeleton.LexText` | hml/approaches/cuts/cut.py:70 | text without operators or parentheses joins the gathered clause text |
| `CutSkeleton.LexSplitClause` | hml/approaches/cuts/cut.py:42 | the rewrite `(a & b)` of a split clause tokenizes as an open parenthesis, `a`, `&`, `b` and a close parenthesis |
| `CutSkeleton.ParseSplitClause` | hml/approaches/cuts/cut.py:42 | the rewrite `(a & b)` parses to the conjunction of `a` and `b` |
| `CutSkeleton.Interleave` | hml/approaches/cuts/cut.py:70 | the tokens of texts joined by one operator: the texts at even positions, the operator between them |
| `CutSkeleton.Chain` | hml/approaches/cuts/cut.py:70 | the left-grouped chain of texts names exactly those texts as leaves |
| `CutSkeleton.Strips` | hml/approaches/cuts/cut.py:31 | each text stripped, in order |
| `CutSkeleton.LexJoin` | hml/approaches/cuts/cut.py:70 | texts without operators joined by `&` or `|` tokenize as their stripped selves between operator tokens |
| `CutSkeleton.AndTailChain` | hml/approaches/cuts/cut.py:70 | after any prefix of texts joined by `&`, the rest of the chain reads the whole left-grouped conjunction and ends the tokens |
| `CutSkeleton.OrTailChain` | hml/approaches/cuts/cut.py:70 | after any prefix of texts joined by `|`, the rest of the chain reads the whole left-grouped disjunction and ends the tokens |
| `CutSkeleton.ParseAndChain` | hml/approaches/cuts/cut.py:70 | texts joined by `&` parse as their left-grouped conjunction |
| `CutSkeleton.ParseOrChain` | hml/approaches/cuts/cut.py:70 | texts joined by `|` parse as their left-grouped disjunction |
| `CutSkeleton.ParseJoin` | hml/approaches/cuts/cut.py:70 | texts without operators joined by `&` or `|` parse as the chain of their stripped selves |
| `CutSkeleton.AtomOfAnd` | hml/approaches/cuts/cut.py:42 | `( l & r )` parses to the conjunction of its parts |
| `CutSkeleton.AtomOfOr` | hml/approaches/cuts/cut.py:70 | `( l | r )` parses to the disjunction of its parts |
| `CutSkeleton.AtomOfRender` | hml/approaches/cuts/cut.py:70 | a rendered skeleton parses back as one atom, wherever it sits, ending where the rendering ends |
| `CutSkeleton.OperandsOfRender` | hml/approaches/cuts/cut.py:70 | where `( l op r )` occurs, the parenthesis, the operands and the operator sit at the positions their lengths give |
| `CutSkeleton.SliceConcat` | hml/approaches/cuts/cut.py:70 | where `a + b` occurs, `a` occurs and `b` follows it |
| `CutSkeleton.AtomOfRenderAnd` | hml/approaches/cuts/cut.py:70 | the same for a rendered conjunction |
| `CutSkeleton.AtomOfRenderOr` | hml/approaches/cuts/cut.py:70 | the same for a rendered disjunction |
| `CutSkeleton.ParseRender` | hml/approaches/cuts/cut.py:70 | parsing undoes rendering |
| `CutSkeleton.AndBindsTighter` | hml/approaches/cuts/cut.py:70 | `a | b & c` groups as `a | (b & c)` |
| `CutSkeleton.AndLeftAssociative` | hml/approaches/cuts/cut.py:70 | `a & b & c` groups as `(a & b) & c` |
| `CutSkeleton.UnclosedParenthesis` | hml/approaches/cuts/cut.py:70 | an unclosed parenthesis raises SyntaxError |
| `CutSkeleton.Apply` | hml/approaches/cuts/cut.py:70 | a cell is missing when either side is, and otherwise the conjunction or disjunction |
| `CutSkeleton.ApplyCells` | hml/approaches/cuts/cut.py:70 | the operator applied cell by cell |
| `CutSkeleton.Combine` | hml/approaches/cuts/cut.py:70 | it succeeds exactly when the layouts agree, else ValueError; the result keeps the layout |
| `CutSkeleton.Evaluate` | hml/approaches/cuts/cut.py:65-70 | NameError only for a clause without a result; otherwise only ValueError |
| `CutSkeleton.CombineCommutes` | hml/approaches/cuts/cut.py:70 | `a & b` equals `b & a`, and `a | b` equals `b | a` |
| `CutSkeleton.AnyTrue` | hml/approaches/cuts/cut.py:73-74 | `ak.any` of a filled row: some cell is true |
| `CutSkeleton.AllTrue` | hml/approaches/cuts/cut.py:75-76 | `ak.all` of a filled row: every cell is true; true of an empty row |
| `CutSkeleton.FinishFlat` | hml/approaches/cuts/cut.py:70 | a flat column passes an event when its cell is true; a null fails |
| `CutSkeleton.FinishAny` | hml/approaches/cuts/cut.py:72-74 | under `any`, a jagged column passes an event when one of its cells is true |
| `CutSkeleton.FinishAll` | hml/approaches/cuts/cut.py:72-76 | otherwise it passes when all of its cells are true |
| `CutSkeleton.FinishVeto` | hml/approaches/cuts/cut.py:78-79 | a veto negates each event's result after the reduction |
| `Generators.DivMod` | hml/generators.py:278 | Python's `divmod`: `q * b + r == a`, with the remainder taking the sign of the divisor |
| `Generators.NSubruns` | hml/generators.py:272-282 | 1 when the per-sub-run count is at least the event count; ZeroDivisionError exactly when it is 0 and below the event count |
| `Generators.NSubrunsCover` | hml/generators.py:272-282 | otherwise the `k` sub-runs hold all events, `k - 1` would not, and `k >= 2` |
| `Generators.DefineLines` | hml/generators.py:294 | one `define k = v` line per definition, in order |
| `Generators.AddLines` | hml/generators.py:296 | one `add process p` line per process, in order |
| `Generators.SetLines` | hml/generators.py:302 | one `set k v` line per setting, in order |
| `Generators.Pythia8Line` | hml/generators.py:408-410 | a line starting `Random:seed` becomes the seed line; any other is kept |
| `Generators.Pythia8Card` | hml/generators.py:403-416 | each line is rewritten in place; without a setSeed line both lines are appended; with one and no seed line the seed line is appended; otherwise nothing is added |
| `Generators.Pythia8Lines` | hml/generators.py:406-414 | the two lines written are told apart by their prefixes |
| `Generators.SetSeedIsNotSeed` | hml/generators.py:406-408 | a setSeed line is not a seed line |
| `Generators.Pythia8Seeded` | hml/generators.py:403-416 | the rewritten card turns seeding on, and every seed line carries the seed |
| `Generators.Pythia8Idempotent` | hml/generators.py:403-416 | a second rewrite with the same seed changes nothing |
| `Generators.SeedPythia8Line` | hml/generators.py:405-411 | one pass rewrites line `i` as `Pythia8Line` says and keeps both flags equal to whether a seed line has been seen so far |
| `Generators.SeedPythia8Card` | hml/generators.py:403-416 | the loop returns what `Pythia8Card` describes |
| `Generators.DelphesLine` | hml/generators.py:437-438 | a line starting `set RandomSeed` becomes the seed line; any other is kept |
| `Generators.DelphesCard` | hml/generators.py:435-442 | every seed line is replaced, or one is put in front when there is none |
| `Generators.DelphesSeeded` | hml/generators.py:435-442 | the rewritten card has a seed line, and every seed line carries the seed |
| `Generators.DelphesIdempotent` | hml/generators.py:435-442 | a second rewrite with the same seed changes nothing |
| `Generators.SeedDelphesLine` | hml/generators.py:436-439 | one pass rewrites line `i` as `DelphesLine` says and keeps the flag equal to whether a seed line has been seen so far |
| `Generators.SeedDelphesCard` | hml/generators.py:435-442 | the loop returns what `DelphesCard` describes |
| `Generators.LineStatus` | hml/generators.py:524-541 | `Failed` only when the current status is not `Done` |
| `Generators.LastReportedSpec` | hml/generators.py:522-543 | `""` when no line reports a status; otherwise the status of a line after which none does |
| `Generators.LastReportedNone` | hml/generators.py:522-543 | the result is `""` exactly when no line reports a status |
| `Generators.LastReportedLine` | hml/generators.py:522-543 | a reported status is that of some line after which no line reports one |
| `Generators.DoneNeverFails` | hml/generators.py:539-541 | a run already known to be done is never reported failed |
| `Generators.Madgraph5.constructor` | hml/generators.py:120-122 | the fields fixed at creation are stored |
| `Generators.Madgraph5.SetShower` | hml/generators.py:166-170 | off or pythia8 in any case is stored; anything else raises ValueError and changes nothing |
| `Generators.Madgraph5.SetDetector` | hml/generators.py:177-181 | off or delphes in any case is stored; anything else raises ValueError and changes nothing |
| `Generators.Madgraph5.SetNEvents` | hml/generators.py:232-235 | the count is stored and written to `settings["nevents"]` |
| `Generators.Madgraph5.SetSeed` | hml/generators.py:242-245 | the seed is stored and written to `settings["iseed"]` |
| `Generators.Madgraph5.SetTags` | hml/generators.py:252-257 | no tags become `["no_tags"]`; `settings["run_tag"]` is the tags joined by commas |
| `Generators.Madgraph5.SetNEventsPerSubrun` | hml/generators.py:264-270 | the count is stored; `settings["nevents"]` becomes the smaller of it and the event count |
| `Generators.Madgraph5.SetCounts` | hml/generators.py:131-134 | the events, seed, tags and events per sub-run are stored, and the settings are those the four setters write |
| `Generators.Madgraph5.SetCards` | hml/generators.py:197-225 | a given card that is not a file raises FileNotFoundError and leaves no cards; otherwise the cards become `CardsFor` of the stored shower and detector |
| `Generators.Madgraph5.AllFiles` | hml/generators.py:200-202 | true exactly when every given card is a file |
| `Generators.Madgraph5.AddToolCards` | hml/generators.py:204-225 | the cards of one tool are appended: the given ones named after it, or its default card when there is none |
| `Generators.Madgraph5.AppendNamed` | hml/generators.py:205-209 | the given cards named after the tool are appended in order; the flag says whether there was one |
| `Generators.Madgraph5.AppendIfNamed` | hml/generators.py:207-209 | one card is appended exactly when its name contains the word |
| `Generators.BaseNameSpec` | hml/generators.py:207 | `Path.name`: the longest end of the path without a `/` |
| `Generators.CardsNamedMembers` | hml/generators.py:206-209 | a card is kept exactly when it is given and its name contains the word |
| `Generators.CardsNamedAppend` | hml/generators.py:206-209 | keeping the named cards distributes over concatenation, so their given order is kept |
| `Generators.CardsForMembers` | hml/generators.py:204-225 | a card is kept exactly when it is a given card named after an enabled tool, or the default card of an enabled tool none of whose cards was given |
| `Generators.NoCardsUnlessCapitalised` | hml/generators.py:204-215 | for a shower other than `Pythia8` and a detector other than `Delphes`, spelt exactly so, no card is kept, given or default |
| `Generators.BothToolsCards` | hml/generators.py:204-225 | with both tools, the Pythia8 cards come first and then the Delphes cards, each tool with at least one |
| `Generators.Madgraph5.CheckStatus` | hml/generators.py:517-543 | the reverse scan returns what `LastStatus` describes |
| `Generators.PreLines` | hml/generators.py:293-296 | `import model` first, then the definitions in order, `generate` for the first process, then `add process` for the others |
| `Generators.LaunchLines` | hml/generators.py:297-301 | output, launch, the sub-run count, shower and detector, in that order |
| `Generators.PostLines` | hml/generators.py:302-304 | the settings in order, then the cards, then `print_results` last |
| `Generators.CommandLayout` | hml/generators.py:292-305 | where each part sits in the joined list |
| `Generators.RunSettingsSpec` | hml/generators.py:287-288 | the copy differs from the settings only in `nevents`, the per-sub-run count |
| `Generators.CommandList` | hml/generators.py:284-307 | IndexError without a process; it succeeds exactly when the sub-run count does; the list is built from the current fields |
| `Generators.HeadAt` | hml/generators.py:293-296 | any list that starts with these lines opens with the model, the definitions and the processes in order |
| `Generators.LaunchAt` | hml/generators.py:297-301 | the launch lines sit right after whatever comes before them |
| `Generators.TailAt` | hml/generators.py:302-304 | any list that ends with these lines closes with one `set` per setting, the cards, and `print_results` last |
| `Generators.CommandsHead` | hml/generators.py:293-296 | the list opens with the model, the definitions and the processes in order |
| `Generators.CommandsLaunch` | hml/generators.py:297-301 | then the output, the launch with its sub-run count, the shower and the detector |
| `Generators.CommandsTail` | hml/generators.py:302-304 | then one `set` per setting, the cards, and `print_results` last; `commands` uses the copy of `RunSettingsSpec`, with `nevents` the per-sub-run count |
| `Generators.InitSettingsSpec` | hml/generators.py:127-134 | after `__init__`'s setters, `nevents` is the smaller of the two counts; `iseed` and `run_tag` are set; other keys are unchanged |
| `Generators.NewMadgraph5` | hml/generators.py:73-134 | an unsupported shower or detector raises ValueError; otherwise a card that is not a file raises FileNotFoundError; otherwise the fields hold the arguments, the cards are `CardsFor` of the shower, detector and given cards, and the tags and settings are those the setters give |
| `NewGenerators.PreCommands` | hml/new_generators.py:41-49 | IndexError exactly when there is no process |
| `NewGenerators.PreCommandsOrder` | hml/new_generators.py:41-49 | model, definitions, first process, the other processes, then `output` last |
| `NewGenerators.LaunchCommands` | hml/new_generators.py:103-110 | launch, sub-runs, shower, detector, one `set` per setting, then one line per card |
| `NewGenerators.TwoDigits` | hml/new_generators.py:115 | `{n:02d}`: at least two digits, exactly two below 100, the plain numeral from 10 on |
| `NewGenerators.TwoDigitsValue` | hml/new_generators.py:115 | the padded numeral reads back as the number |
| `NewGenerators.RunName` | hml/new_generators.py:114-115 | `run_` and at least two digits |
| `NewGenerators.RunNameNumber` | hml/new_generators.py:114-115 | the number in the run name is the banner count plus one |
| `NewGenerators.RunNameInjective` | hml/new_generators.py:114-117 | distinct banner counts give distinct run names |
| `NewGenerators.RunNameNotPre` | hml/new_generators.py:117 | a run never overwrites the `pre` commands |
| `NewGenerators.ReadLine` | hml/new_generators.py:219-229 | an error exactly for an `import model` line of fewer than three words or a `define` line that does not split into two at `=`; the processes grow by the line's process; the model and definitions change as the line says |
| `NewGenerators.LastImport` | hml/new_generators.py:219-220 | the last `import model` line, if any |
| `NewGenerators.ReadProcCardSpec` | hml/new_generators.py:213-229 | the processes are those of the `generate` and `add process` lines in file order; definition keys are distinct; the model is `sm` without an import line, and otherwise the third word of the last one |
| `NewGenerators.ReadProcCardNoErrors` | hml/new_generators.py:217-229 | a card without `import model` and `define` lines always reads |
| `NewGenerators.DefineLineStores` | hml/new_generators.py:221-223 | a `define` line stores the stripped value under the stripped key |
| `NewGenerators.ReadProcCardStops` | hml/new_generators.py:217-229 | once a prefix fails, the card fails with the same error |
| `NewGenerators.ReadCardLine` | hml/new_generators.py:219-229 | the loop body is what `ReadLine` describes |
| `NewGenerators.ReadCardLines` | hml/new_generators.py:217-229 | the loop returns what `ReadProcCard` describes |
| `NewGenerators.MarkerStep` | hml/new_generators.py:305-318 | a marker fires only when present and above the last known index; `storing files` moves to the next sub-run, and resets the index to -1 unless that passes the last sub-run; any other marker sets its own index |
| `NewGenerators.MarkerStepSane` | hml/new_generators.py:305-318 | a step keeps the monitor sane and never lowers the sub-run |
| `NewGenerators.ScanFromSane` | hml/new_generators.py:305-318 | the same for the scan of one chunk |
| `NewGenerators.PollSane` | hml/new_generators.py:295-324 | the same across polls |
| `NewGenerators.MonitoringBounded` | hml/new_generators.py:285-324 | with at least one sub-run, the monitoring ends sane, having counted no more sub-runs than there are |
| `NewGenerators.ScanFromQuiet` | hml/new_generators.py:306-312 | after the last sub-run stored its files, no marker fires again in a chunk |
| `NewGenerators.PollQuiet` | hml/new_generators.py:295-319 | nor in later polls |
| `NewGenerators.PollSilent` | hml/new_generators.py:307-316 | silent polls print nothing |
| `NewGenerators.ScanFromSilent` | hml/new_generators.py:307-316 | a silent scan prints nothing |
| `NewGenerators.Madgraph5.constructor` | hml/new_generators.py:35-49 | the fields are stored and the commands hold only `pre` |
| `NewGenerators.Madgraph5.Launch` | hml/new_generators.py:82-117 | an unknown shower or detector raises ValueError with nothing changed; otherwise the fields are set and the commands are recorded under the run name |
| `NewGenerators.Madgraph5.CheckStatus` | hml/new_generators.py:271-324 | the loops leave the monitor that `Monitoring` describes |
| `NewGenerators.LaunchKeepsPre` | hml/new_generators.py:117 | recording a run stores its commands and keeps `pre` |
| `NewGenerators.NewMadgraph5` | hml/new_generators.py:25-49 | IndexError without a process; otherwise a fresh generator with the `pre` commands |
| `NewGenerators.FromOutput` | hml/new_generators.py:205-237 | a card error propagates; a card without processes gives IndexError; otherwise the generator of the card's model, definitions and processes |

## Left out

- I/O is left out: ROOT and cppyy event access, files, subprocesses, pseudo-terminals, the clock and printing to a console.
  - An event is an abstract value.
  - Card contents, log contents and new log chunks are parameters.
  - Printing is modelled as a `printed` list.
- Each Python object's observed mutable state is kept in a class field. Aliasing between objects is not modelled. That includes the shared mutable default arguments such as `settings={}`.
- Strings are sequences of characters.
  - Whitespace (for `strip`, `split` and the regular-expression `\s` and `\S`) is the character set of Python's `str.isspace()`, Unicode spaces included.
  - `\d`, `\w`, `isdigit` and `lower()` cover only the ASCII characters. Unicode digits, letters and case folding outside ASCII are not modelled.
- Slices are modelled for non-negative bounds only, because every parsed bound and every `start` is a numeral. A user-built `Collective` with a negative stop other than -1 reads `range(start, stop)` like Python, but such objects are not read through a slice.
- Floating point is abstract: the kinematic quantities and `Tau` are uninterpreted functions of an object, and nan is a distinguished value.
- `Single`, `is_single`, `Nested` and `is_nested` in multiple.py and collective.py, and `CollectivePhysicsObject` in nested.py, are not defined by the files they appear in.
  - They are parameters or stand-ins with the behaviour their call sites use.
  - Nothing further is assumed of them.
- `hml/physics_objects/physics_object.py` (the abstract base of the physics objects) is not part of this model. The `isinstance(…, PhysicsObject)` branches of the recognisers are therefore left out; only strings are recognised.
- `Nested.FromConfig` dispatches on the class name with `getattr` on the package. The model maps `SinglePhysicsObject` and `CollectivePhysicsObject` to their readers, and raises AttributeError for any other name.
- Observable `shape` (an awkward type string rendering), `to_awkward`, `to_numpy` and `__repr__`/`__eq__` are left out. In the cut engine, the shape of an observable is a parameter.
- `Cut` depends on `hml.observables.parse` and on each observable's `read`. The evaluation of one clause against the observable values is a parameter giving a column of optional booleans.
- `Cut.read` substitutes clause results textually with `re.sub` and calls `eval`. The model evaluates the skeleton instead.
  - `ReadValueAsWritten` places a clause's result only when the clause begins and ends with a word character, as the `\b` anchors of `re.sub` do. `ReadValue` and `Cut.Read` place every clause's result (see Findings).
  - A clause that occurs inside another clause's text is not mangled as it would be in Python.
  - Regular-expression metacharacters other than `.` in a clause (`+`, `*`, `(`, `[`…) are taken literally; Python would read them as pattern syntax.
- `Cut._parse_expression` replaces each split clause in the expression with `str.replace`. The model does the same, but the per-clause evaluation that `read` does with `eval(cut.replace(obs, …))` is a parameter, so a clause whose text contains its observable twice is not analysed further.
  - A column that mixes flat and jagged operands is a ValueError in the model. Awkward would broadcast it.
- `NSubjettinessRatio.__init__` passes its `name` argument to the base class as the physics-object identifier. The model takes the orders only: the parsed identifier is the base observable's.
- Left out from `hml/generators.py`:
  - the substitution of card paths into `actual_commands`;
  - `Path.resolve()` of the cards: a card is taken as given, and whether it is a file is a parameter;
  - `launch`'s polling loop and its handling of stderr;
  - `runs`, `summary`, `remove` and `clean`;
  - `MG5Run`;
  - resolving the executable and model paths.
- Left out from `hml/new_generators.py`:
  - resolving the executable, output and log paths, and the `resolve()` of each card path (a card is taken as given);
  - `_cmds_to_file`;
  - the run of Madgraph5 in `__init__` and in `launch`;
  - `runs` and `summary`;
  - `Madgraph5Run` and `Madgraph5MultiRun`.
- In `hml/new_generators.py`:
  - `launch` returns the run name rather than a `Madgraph5MultiRun`;
  - the number of existing banner files is a parameter.
- `hml/generators/madgraph5.py` and the numeric and learning modules are not part of this model.
- `Collective.Collective.Id`: its contract states only that a colon is present. The four printed forms are what `FromIdOfId` reads back.
- `Types.ParseBranch`: its contract states only that it never raises. What it returns for each form of branch is stated by `ParseLetters`, `ParseIndex`, `ParseSlice` and `ParseOther`.
- Types.SubEntry, Types.SubEntryOfNone, Types.SubEntryLength, Types.ReadSubEntry, Types.SubsPerMain, Types.ReadComponent, Types.ReadItems, Types.Observable.Read: these model the corrected read, in which a None main object with a bounded sub gets `stop - start` Nones from its own sub. The read as written, with the `required_sub_length` left over from earlier main objects, is `SubEntryAsWritten` and `SubsAsWritten` (see Findings).
- Cuts.ReadOfKeyedLeaves, Cuts.ReadAndOnly, Cuts.ReadOrOnly, Cuts.ReadOfPair: these state the corrected read (`ReadValue`). As written, a clause that does not begin and end with a word character stays unsubstituted, and the `eval` raises NameError; `ReadValueAsWritten` and `ReadAsWrittenOfPair` state that read.
- Cuts.ReadValue, Cuts.Cut.Read: these model the corrected read, in which every clause's result is placed in the expression. The read as written, which leaves a clause that does not begin and end with a word character unsubstituted, is `ReadValueAsWritten` (see Findings).
- Cuts.Halves, Cuts.CutStep, Cuts.CutSteps, Cuts.ParseExpression: their contracts state the failure, the flags and that the keys are distinct. What the split, the clause dict and the rewritten expression are is stated by `HalvesOfBounded`, `CutStepBounded`, `CutStepOneSided`, `CutStepsOneSided`, `ParseOfJoin`, `ParseAndOnly`, `ParseOrOnly` and `ParseDoubleBounded`, for expressions of those forms. Expressions mixing split clauses with connectives are covered only by the contracts.
- Cuts.PlainClause, Cuts.ParseAndOnly, Cuts.ParseOrOnly, Cuts.ParseDoubleBounded, Cuts.ReadAndOnly, Cuts.ReadOrOnly, Cuts.ReadOfBounded, Cuts.ReadAsWrittenOfBounded: these hold for clauses that contain neither `and` nor `or` and for an expression that does not start with `veto` or `any`. A clause with `and` or `or` inside a name, such as `Jet0.Candidates`, is rewritten by the connective rewrite; `RewriteInsideName` shows this, and the parse of such clauses is covered only by the contracts.
- CutText.Clauses: its contract states only that no clause holds a parenthesis. Which clauses come out is stated by `ClausesOfAndJoin`, `ClausesOfOrJoin` and `ClausesOfAndOfOrs` for clauses without operators; a clause with an unbalanced parenthesis inside is covered only by the contract.
- Single.FromConfig, Collective.FromConfig: the configuration values are typed, so a `type` or `field` that is not a string, or an `index`, `start` or `stop` that is not an integer, raises TypeError in the model. The source does not check these types and raises nothing at that point (hml/physics_objects/single.py:67, hml/physics_objects/collective.py:268); the wrong value only fails later, where it is used.

## Findings

| source | as written | input that shows it | evidently intended | confidence | as-written member | corrected member |
|---|---|---|---|---|---|---|
| hml/types.py:73-84 | a None main object with a bounded sub uses `required_sub_length`, which is only assigned after a real main object has been read; the value also carries over from earlier components | `Jet:1.Constituents:2` on an event without jets raises UnboundLocalError; `Jet0.Constituents:5,Jet9:10.Tracks:3` on an event with one jet pads the missing tenth jet with 5 Nones instead of 3 | a None main with a bounded sub gets `max(0, stop - start)` Nones from its own sub | not executed | `Types.AsWrittenUnbound`, `Types.AsWrittenStale` | `Types.CorrectedUnbound`, `Types.CorrectedStale`, `Types.SubEntryLength` |
| hml/approaches/cuts/cut.py:66-68 | each clause's result is put into the expression with `re.sub(r"\b" + cut + r"\b", …)`; `\b` needs a word character on one side, so a clause that begins or ends with a non-word character, such as the half-clause `-2 < Jet0.Phi` that the split of a double-bounded clause makes, is never substituted and stays as Python text | `Cut("-2 < Jet0.Phi < 2").read(events)` raises NameError (`Jet0` is not defined in the `eval`), whatever the events | every clause's result is placed in the expression, so the cut is the `&` of its two halves | not executed | `Cuts.ReadValueAsWritten`, `Cuts.ReadSignedBound` | `Cuts.ReadValue`, `Cuts.ReadOfBounded` |
