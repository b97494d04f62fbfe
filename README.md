# nmos-web-patcher, modelled in Dafny

nmos-web-patcher is a control-plane bridge. Broadcast control panels speak the
Blackmagic Videohub text protocol. NMOS devices are driven through AMWA IS-04
discovery and IS-05 connection calls. This project models its routing and
protocol core and proves properties of it. The core has these parts:

- **Videohub emulator.** `VideohubEmulator` is modelled as a class (`videohub.dfy`).
  Its label and index tables, routing table, connected panels and per-panel send
  logs are fields that its methods update. Its renderers, input framing,
  routing-block semantics and reconciliation rule are functions
  (`videohub_spec.dfy`).
- **SDP secondary-stream filter** (`sdp_filter.dfy`). It removes the media
  sections whose `a=mid` is a non-first member of an `a=group:DUP` line
  (RFC 7104 duplication grouping over RFC 8866 SDP). It is written as the two
  loops of the source, proved against a section-level specification.
- **Essence classifier and node-API URL builder** (`nmos_discovery.dfy`).
- **Logical registry**: loading, lookup by stringified ID (`logical.dfy`) and the
  settings routes that add, update and delete groups, plus the settings default
  merge (`settings.dfy`, with a `LogicalRegistry` class for the mutations).
- **Per-essence patch orchestration** of `emit_patch` (`patch_bus.dfy`) and the
  REST endpoints built on it (`restapi.dfy`):
  - take, take-many, disconnect and status;
  - the settings gate in front of every endpoint.
- **The label sort key** of the index page (`main_routes.dfy`).

Python's string built-ins that the core relies on are in `text.dfy`:
`strip`, `split()`, `split(sep)`, `splitlines`, `join`, `lower`, `int`, `str`
and `in`. `wrappers.dfy` holds `Option`.

Registry tables are sequences of (name, group) entries, in dictionary order.
Dictionary order decides every "first match" in the source.

Some inputs from outside the core are parameters of the model:
- the device calls (`change_source`, `disconnect_receiver`);
- the receivers' active-sender reports;
- the discovery cache;
- a panel connection failing.

## Model

| member | source | states |
|---|---|---|
| Logical.LoadLogicalIds | services/logical.py:9-13 | The registry is the file's content, or two empty tables when there is no file |
| Logical.FindById | services/logical.py:24-25 | The result is the position of the first entry whose ID equals the argument; no earlier entry has it; None exactly when no entry has it |
| Logical.FindByText | services/logical.py:24-25 | Like FindById, with `str(id) == str(arg)` as the match: the first entry whose ID text equals the argument's text |
| Logical.IdTextMatchesInt | services/logical.py:24-25 | For an integer argument, the `str()` comparison holds exactly when the ID is that integer (`None` never matches) |
| Logical.NoneIsNoInt | services/logical.py:24-25 | No integer renders as `None`, so an entry without an ID matches no integer argument |
| Logical.FindByTextOfInt | services/logical.py:24-25 | Searching by text with an integer finds the same entry as searching by ID equality |
| Logical.GetLogicalPair | services/logical.py:19-27 | Each side is None exactly when no entry of its own table has the argument's ID text; otherwise it is a group with that ID text (the first, by FindByText) |
| Logical.GetLogicalPairTextOfInt | services/logical.py:19-27 | An integer ID and its decimal text select the same source and destination, so `3` and `"3"` are interchangeable |
| Logical.GetLogicalPairById | services/logical.py:19-27 | With integer arguments the pair is the first source and the first receiver carrying those IDs, each independently None on no match; sources are looked up only among sources and destinations only among receivers |
| PatchBus.PatchAll | services/patch_bus.py:35-49 | The definition of the per-essence record, stated by PatchAllShape and PatchAllIndependent |
| PatchBus.PatchAllShape | services/patch_bus.py:18-49 | Every essence has an entry. It is skipped with reason "missing sender or receiver" exactly when one side lacks it. Otherwise it carries both IDs and the device's status and message (message defaults to ""), or status `error` with the exception text |
| PatchBus.PatchAllIndependent | services/patch_bus.py:27-49 | An essence's entry depends only on the device's answer for that essence's own pair, so one failure leaves the other essences unaffected |
| PatchBus.TaskOutcome | services/patch_bus.py:18-33 | Running a queued call gives that essence's outcome |
| PatchBus.PatchOne | services/patch_bus.py:18-33 | The definition of one call's record: the pair with the device's status and message (`""` when absent), or status `error` with the exception text |
| PatchBus.EmitPatchRaises | services/patch_bus.py:13-37 | The definition of when `emit_patch` raises: `get_logical_pair` finds no source or no receiver, so the first `.get` on None fails; stated by EmitPatch |
| PatchBus.EmitPatch | services/patch_bus.py:6-51 | `emit_patch` raises exactly when either logical ID is unknown, before any device call; otherwise its result is the per-essence record of the pair |
| PatchBus.PatchPair | services/patch_bus.py:35-49 | The skip/queue loop followed by the gather loop yields exactly the per-essence record |
| RestApi.Guard | protocols/restapi.py:9-28 | The definition of the settings gate; its cases are stated by GuardCases |
| RestApi.GuardCases | protocols/restapi.py:9-28 | An endpoint runs exactly when the settings file reads and enables the API. An unreadable file gives 500. A disabled or missing `enable_restapi` gives 403 with the source's message |
| RestApi.TakeEssences | protocols/restapi.py:61-85 | The per-essence loop of a take yields exactly the per-essence record: skipped unless both groups define the essence, error on an exception |
| RestApi.StatusBit | protocols/restapi.py:87-88 | The definition of one bit: `1` when the essence's status is `success` or `patched` |
| RestApi.PatchCode | protocols/restapi.py:87-94 | Three characters, each `0` or `1`; character i is `1` exactly when essence i (video, audio, data) has an entry whose status is `success` or `patched` |
| RestApi.PatchCodeOfTake | protocols/restapi.py:87-94 | Character i of the patch code (video, audio, data) is `1` exactly when both groups define that essence and the device answered `success` or `patched`; skipped or raised gives `0` |
| RestApi.TakeLogical | protocols/restapi.py:39-102 | A missing or empty argument gives 400. An unknown or empty group, matched on the text of its ID, gives 404. Otherwise the result names the first matching groups and carries the per-essence record and its patch code |
| RestApi.ParseIds | protocols/restapi.py:201-205 | The list parses exactly when every comma-separated piece is an integer, and then holds those integers in order |
| RestApi.Resolve | protocols/restapi.py:210-220 | The definition of the `next(...)` lookup of a named record by ID, stated by ResolveFindsFirst |
| RestApi.ResolveFindsFirst | protocols/restapi.py:210-220 | A group is resolved exactly when some record carries the ID and the first such record has a non-empty name; it is then that record |
| RestApi.DestOutcome | protocols/restapi.py:219-273 | A destination's entry is an error exactly when it does not resolve; otherwise it names the receiver and carries the per-essence record and its patch code |
| RestApi.TakeMany | protocols/restapi.py:190-279 | A missing argument gives 400 before any patch, as does a `src` or `dest` that is not an integer. An unknown source gives 404. Otherwise there is one result per requested destination, in request order, and an unknown destination yields an error entry without stopping the others |
| RestApi.TakeEach | protocols/restapi.py:218-273 | The destination loop appends exactly one outcome per requested ID, in order |
| RestApi.TakeOne | protocols/restapi.py:219-273 | One pass of the destination loop gives that destination's outcome |
| RestApi.ReleaseAll | protocols/restapi.py:159-179 | The definition of the per-essence release record, stated by ReleaseAllShape and ReleaseAllIndependent |
| RestApi.ReleaseAllShape | protocols/restapi.py:159-179 | Every essence has an entry. It is skipped with "No receiver ID defined" exactly when the group gives no receiver ID. Otherwise it names that receiver and carries the device's status, or `error` |
| RestApi.ReleaseAllIndependent | protocols/restapi.py:159-179 | Essences are released independently of each other's answers |
| RestApi.ReleaseEssences | protocols/restapi.py:159-179 | The per-essence loop of a disconnect yields exactly the per-essence release record |
| RestApi.DisconnectLogical | protocols/restapi.py:134-185 | A missing or non-integer `dest` gives 400. No named receiver group with that ID gives 404. Otherwise the result has one entry per essence of that group |
| RestApi.ActiveSenders | protocols/restapi.py:313-340 | An essence is active exactly when the logical receiver defines it and its receiver reports a non-empty sender; the value is that sender |
| RestApi.MatchesVacuous | protocols/restapi.py:342-346 | A source that defines no essence matches whatever is active; a source defining an essence with no active sender never matches |
| RestApi.FirstMatch | protocols/restapi.py:342-346 | The definition of "position k holds the first matching source", stated through MatchSource |
| RestApi.MatchSource | protocols/restapi.py:342-346 | The result is None exactly when no source matches; otherwise it is the name of the first matching source, in registry order |
| RestApi.StatusLogical | protocols/restapi.py:284-353 | A missing or non-integer `dest` gives 400. A first receiver with that ID that is absent, unnamed or empty gives 404. Otherwise the receiver's name and the first source whose every defined essence equals the active sender |
| Settings.IndexOfName | routes/settings.py:154 | The result is the position of the record stored under a name, or None when no record has that name |
| Settings.Lookup | routes/settings.py:154-162 | The definition of `table.get(name)`, stated by LookupAt, Put and Remove |
| Settings.LookupAt | routes/settings.py:154 | In a table with distinct names, the record found under a name is the one stored there |
| Settings.Put | routes/settings.py:154-162 | Assignment to a key: the name maps to the new record, every other name keeps its record and its position, names stay distinct, and the table grows by one exactly when the name is new |
| Settings.Remove | routes/settings.py:185-186 | `del`: the name is gone, every other name keeps its record, and a missing name leaves the table unchanged |
| Settings.DropAtSpec | routes/settings.py:185-186 | Cutting out one entry removes exactly its name and keeps every other lookup |
| Settings.UsedIds | routes/settings.py:145 | The used IDs are exactly the IDs the records carry |
| Settings.MaxOrZero | routes/settings.py:152 | The result is the largest used ID, or 0 when none is used |
| Settings.NextId | routes/settings.py:151-152 | The automatic ID is above every used ID, so it is unused; it is 1 when no ID is used and otherwise one more than a used ID |
| Settings.NewGroup | routes/settings.py:154-162 | The stored record holds the ID and only the non-empty essence fields |
| Settings.PutKeepsIdsUnique | routes/settings.py:145-162 | Storing a record whose ID no other name uses keeps IDs unique |
| Settings.RemoveKeepsIdsUnique | routes/settings.py:185-186 | Deleting a name keeps IDs unique |
| Settings.DropAtKeepsIdsUnique | routes/settings.py:185-186 | Cutting one entry out keeps IDs unique |
| Settings.IdUsedByOther | routes/settings.py:214-216 | The loop answers true exactly when a record under a different name holds the ID |
| Settings.LogicalRegistry.constructor | services/logical.py:9-13 | The registry starts as the loaded file, or empty |
| Settings.LogicalRegistry.SetTable | routes/settings.py:143 | Only the table of the given type changes |
| Settings.LogicalRegistry.AddLogicalId | routes/settings.py:134-176 | An explicit ID used by any record of the type (the same name included) is rejected with no change. Otherwise the ID is the explicit one or max+1 (1 when empty), and the record under the name is replaced wholesale by the ID and the non-empty fields. The other table is untouched and ID uniqueness is preserved |
| Settings.LogicalRegistry.UpdateLogicalId | routes/settings.py:203-240 | An ID held by a different name is rejected with no change. A rename pops the original and stores under the new name, overwriting it. The record gets the ID and all three fields. ID uniqueness is preserved |
| Settings.LogicalRegistry.DeleteLogicalId | routes/settings.py:179-200 | Exactly the named record of that type is removed when present, and nothing changes otherwise; ID uniqueness is preserved |
| Settings.LoadSettings | routes/settings.py:242-257 | The file's keys override the defaults, missing keys keep their defaults, and an unreadable file yields the defaults |
| NmosDiscovery.GetResourceType | services/nmos_discovery.py:38-66 | The result is `invalid` exactly when the resource is not a dict; the order of the rules is stated by the lemmas below |
| NmosDiscovery.ResourceTypeNames | services/nmos_discovery.py:38-66 | A non-dict classifies as `invalid` and only a non-dict does; the name is always one of the five values |
| NmosDiscovery.FormatWins | services/nmos_discovery.py:47-52 | A video format URN decides `video`; an audio URN decides `audio` unless a video URN is present; a data URN decides `ancillary` unless a video or audio URN is present; all whatever the label, description and tags say |
| NmosDiscovery.LabelBeatsDescription | services/nmos_discovery.py:53-58 | Without a format URN, the lower-cased label decides before the description and tags: `video`, `vid` or `vision` gives `video`; else `audio` or `aud` gives `audio`; else `anc` gives `ancillary` |
| NmosDiscovery.AncillarySources | services/nmos_discovery.py:51-58 | `ancillary` comes only from a data format URN or `anc` in the label |
| NmosDiscovery.TextFallbacks | services/nmos_discovery.py:59-66 | Past the format and label rules: `video` in the description gives `video`; otherwise `audio` in it gives `audio`; otherwise the result is `video` exactly when some tag value holds `video`, and `unknown` exactly when none does |
| NmosDiscovery.LabelRulesReduce | services/nmos_discovery.py:53-56 | The label rule amounts to `vid` or `vision` for video, then `aud` for audio |
| NmosDiscovery.LowerIdempotent | services/nmos_discovery.py:43-44 | Lower-casing twice changes nothing more |
| NmosDiscovery.ClassificationIgnoresCase | services/nmos_discovery.py:43-44 | The label and description are read case-insensitively |
| NmosDiscovery.BuildUrl | services/nmos_discovery.py:80-84 | A base holding `/x-nmos` gives base + `/node/{version}/{resource}/`, any other base gives base + `/x-nmos/node/{version}/{resource}/`; so the URL starts with the base, ends with `/{resource}/` and always holds `/x-nmos` and `/node/{version}/` |
| NmosDiscovery.BuildUrlSkipsPresentPrefix | services/nmos_discovery.py:80-84 | A base without `/x-nmos` and the same base with `/x-nmos` appended give the same URL |
| NmosDiscovery.FetchUrl | services/nmos_discovery.py:68-87 | The requested URL is `build_url` of the node URL without its trailing slashes (a prefix of it followed only by slashes) and of the advertised version; with no advertised version it holds `/node/v1.3/`, otherwise `/node/{version}/` |
| NmosDiscovery.FetchUrlIgnoresTrailingSlash | services/nmos_discovery.py:69 | A trailing slash on the node URL does not change the requested URL |
| SdpFilter.SkipMids | utils/sdp_filter.py:8-14 | The definition of the skip set the first loop builds, stated by SkipMidsMembers, SkipMidsEmpty and SkipMidsStep |
| SdpFilter.SkipMidsMembers | utils/sdp_filter.py:10-14 | The skip set is the union, over every `a=group:DUP` line, of the mids after the line's first |
| SdpFilter.SkipMidsEmpty | utils/sdp_filter.py:8-14 | With no DUP line nothing is skipped |
| SdpFilter.SkipMidsStep | utils/sdp_filter.py:10-14 | Reading one more line adds exactly that line's skipped mids |
| SdpFilter.MidLineSplits | utils/sdp_filter.py:27 | An `a=mid:` line, stripped, splits on `:` into at least two parts, so the `[1]` never raises |
| SdpFilter.MidOf | utils/sdp_filter.py:27 | The definition of a mid line's mid, `strip().split(":")[1]`, stated by MidLineSplits and MidOfPlain |
| SdpFilter.MidOfPlain | utils/sdp_filter.py:27 | The mid is the text between the first and second colon of the line |
| SdpFilter.DupMids | utils/sdp_filter.py:12-13 | The definition of the mids a DUP line skips: the whitespace-split words after the first two |
| SdpFilter.LastMid | utils/sdp_filter.py:26-27 | The definition of a section's mid: the mid of its last `a=mid:` line, None without one; stated by LastMidStep |
| SdpFilter.Keep | utils/sdp_filter.py:22-31 | The definition of a kept section: its mid is None or not skipped |
| SdpFilter.LastMidStep | utils/sdp_filter.py:26-27 | The section's mid changes exactly on an `a=mid:` line, to that line's mid |
| SdpFilter.Sections | utils/sdp_filter.py:19-31 | The description splits into sections: the preamble, then one section per `m=` line, each running to the next `m=` line |
| SdpFilter.SectionsFlatten | utils/sdp_filter.py:19-31 | Concatenated, the sections give the input back |
| SdpFilter.SectionsOpenWithMedia | utils/sdp_filter.py:20-25 | Every section but the first opens with an `m=` line |
| SdpFilter.SectionsNoInnerMedia | utils/sdp_filter.py:20-25 | No section holds an `m=` line after its first line |
| SdpFilter.SectionsSplit | utils/sdp_filter.py:19-31 | The sections of a text cut before an `m=` line are the sections of the two parts |
| SdpFilter.KeptSections | utils/sdp_filter.py:19-31 | The definition of the surviving sections, in order, stated by KeptSectionsSelect |
| SdpFilter.KeptLines | utils/sdp_filter.py:16-31 | The definition of the lines the second loop keeps, the kept sections flattened; stated by KeptSectionsSelect, NoDupKeepsAll and PreambleKept, and reached by EmitKeptSections |
| SdpFilter.KeptSectionsSelect | utils/sdp_filter.py:19-31 | The output is made of whole input sections in their order, and a section appears exactly when its last mid (None if absent) is not skipped |
| SdpFilter.NoDupKeepsAll | utils/sdp_filter.py:8-31 | Without a DUP line every line is kept |
| SdpFilter.PreambleKept | utils/sdp_filter.py:10-31 | Lines before the first `m=` line that carry no mid are always kept, the DUP line itself included |
| SdpFilter.RemoveSecondaryStreams | utils/sdp_filter.py:1-33 | The result is the kept lines joined by CRLF with a trailing CRLF |
| SdpFilter.CollectSkipMids | utils/sdp_filter.py:10-14 | The first loop computes exactly the skip set |
| SdpFilter.EmitKeptSections | utils/sdp_filter.py:16-31 | The second loop emits exactly the lines of the kept sections |
| SdpFilter.EmitLine | utils/sdp_filter.py:20-28 | One pass of the second loop: an `m=` line flushes the open section if kept and starts a new one, a mid line sets the mid, and the line is buffered |
| SdpFilter.FlushStep | utils/sdp_filter.py:20-25 | Flushing at an `m=` line extends the output by the closed section exactly when it is kept |
| SdpFilter.FinishStep | utils/sdp_filter.py:30-31 | At the end the open section is emitted exactly when kept |
| MainRoutes.ExtractSortKey | routes/main.py:11-31 | The definition of the sort key; its rules are stated by the lemmas below |
| MainRoutes.DigitEndSpec | routes/main.py:23 | `\d+` is greedy: the run is all digits and is followed by a non-digit or the end |
| MainRoutes.SpaceEndSpec | routes/main.py:23 | `\s*` is greedy in the same way |
| MainRoutes.FirstSome | routes/main.py:23 | `re.search`: the match at the leftmost position where the pattern matches, None when it matches nowhere |
| MainRoutes.FirstBracketed | routes/main.py:15-17 | The result is the first value holding `[`, or `""` when there is none |
| MainRoutes.FirstHint | routes/main.py:15-18 | The first bracketed value under a key containing `grouphint`, in tag order and then value order, or `""` |
| MainRoutes.SortKeyIgnoresCase | routes/main.py:12 | The label is read lower-cased, and the fallback key carries it lower-cased |
| MainRoutes.HintWins | routes/main.py:15-25 | A group hint holding a triplet decides the key, whatever the label says |
| MainRoutes.IndexOnlyFromLabel | routes/main.py:20-31 | The `[n]` form is looked for in the label only. A hint with no triplet and a label without `[` give the fallback `(999, 999, 999, label)` |
| MainRoutes.FindTriplet | routes/main.py:23 | The definition of the triplet `re.search`, the leftmost match; stated by FirstSome and TripletAtOf |
| MainRoutes.FindIndex | routes/main.py:27 | The definition of the index `re.search`, the leftmost match; stated by FirstSome and IndexOfDigits |
| MainRoutes.TripletAtOf | routes/main.py:23-25 | A written `[a, b, c]`, with any whitespace after the commas, is read back as `(a, b, c)` whatever follows |
| MainRoutes.TripletLabelRoundTrip | routes/main.py:11-25 | A label that starts with a written triplet, on an item without a group hint, sorts by that triplet |
| MainRoutes.IndexOfDigits | routes/main.py:23-29 | `[d]` for a digit run is read by the index pattern and not by the triplet pattern |
| MainRoutes.IndexLabelRoundTrip | routes/main.py:27-29 | A label `[n]` sorts as `(999, 999, n)` |
| VideohubSpec.Labels | protocols/bmdvideohub.py:31-32 | The definition of a label table, stated by LabelsOf |
| VideohubSpec.LabelsOf | protocols/bmdvideohub.py:31-32 | An ID has a label exactly when some named record carries it, and the label is the name of the last such record |
| VideohubSpec.SortedSet | protocols/bmdvideohub.py:33-34 | The definition of `sorted(keys)`, stated by SortedSetSpec |
| VideohubSpec.SortedSetSpec | protocols/bmdvideohub.py:33-34 | `sorted(keys)` holds every key once, strictly ascending |
| VideohubSpec.Positions | protocols/bmdvideohub.py:36-37 | The definition of the `enumerate` inverse map, stated by PositionsInverse |
| VideohubSpec.PositionsInverse | protocols/bmdvideohub.py:36-37 | The position map knows exactly the listed IDs and maps each to its own position |
| VideohubSpec.IndexedByInverse | protocols/bmdvideohub.py:31-37 | The index list is the ascending list of labelled IDs, and the ID-to-index map is its exact inverse |
| VideohubSpec.DeviceInfoReadBack | protocols/bmdvideohub.py:122-132 | Reading the device block line by line, a panel finds the input count on its fourth line and the output count on its sixth |
| VideohubSpec.LabelLines | protocols/bmdvideohub.py:134-140 | There is one label line per index position, in order |
| VideohubSpec.LabelLineRoundTrip | protocols/bmdvideohub.py:134-140 | A panel recovers the position and the name from a label line |
| VideohubSpec.RoutePairs | protocols/bmdvideohub.py:142-151 | The definition of the routing lines as pairs, stated by the three lemmas below |
| VideohubSpec.RoutePairsSound | protocols/bmdvideohub.py:142-151 | Each emitted pair is an output whose routed source has that input index |
| VideohubSpec.RoutePairsAscend | protocols/bmdvideohub.py:142-151 | Emitted lines come in strictly ascending output order |
| VideohubSpec.RoutePairsComplete | protocols/bmdvideohub.py:142-151 | Every output whose source has an input index is emitted, so only unrouted outputs and stale sources are omitted |
| VideohubSpec.Frame | protocols/bmdvideohub.py:90-102 | The definition of the read loop's framing (blocks handed on, and the buffer), stated by the lemmas below |
| VideohubSpec.FrameConserves | protocols/bmdvideohub.py:90-102 | Framing loses and invents no line: blocks and buffer hold exactly the non-blank lines in order, one block per blank line |
| VideohubSpec.FrameLinesNonBlank | protocols/bmdvideohub.py:90-102 | No block handed on and no buffered line is blank |
| VideohubSpec.FrameFlush | protocols/bmdvideohub.py:96-102 | A blank line hands on the buffer as one more block and empties it; the block handed on is empty exactly when the input is empty or its previous line was blank too |
| VideohubSpec.FrameNext | protocols/bmdvideohub.py:90-102 | Reading one more line advances the framing by that line |
| VideohubSpec.ParseRouteLine | protocols/bmdvideohub.py:193 | The definition of `map(int, line.split())` into exactly two integers, None where it raises; stated by ParseRouteLineOfPair |
| VideohubSpec.PyIndex | protocols/bmdvideohub.py:194-195 | The definition of Python list indexing, negative indices counting from the end, None where it raises; stated by WriteLine |
| VideohubSpec.LineTarget | protocols/bmdvideohub.py:193-195 | The definition of the receiver and sender a body line designates, None when it does not parse or an index is out of range; stated by PairLineTarget and MalformedLineSkipped |
| VideohubSpec.ParseRouteLineOfPair | protocols/bmdvideohub.py:193 | A routing line as rendered parses back to its two indices |
| VideohubSpec.StepLine | protocols/bmdvideohub.py:191-201 | The definition of one body line's effect, stated by WriteLine and MalformedLineSkipped |
| VideohubSpec.RunBlock | protocols/bmdvideohub.py:190-201 | The definition of a body's effect: its lines in order, stated by RunBlockAppend |
| VideohubSpec.RunBlockAppend | protocols/bmdvideohub.py:191-201 | Body lines are applied one after another: two pieces run in turn are the whole body |
| VideohubSpec.MalformedLineSkipped | protocols/bmdvideohub.py:191-201 | A malformed or out-of-range line changes nothing and does not affect its siblings |
| VideohubSpec.WriteLine | protocols/bmdvideohub.py:192-198 | A line `o i` in range, negative indices counting from the end, routes the selected receiver to the selected source. It makes one `emit_patch` call and is echoed exactly when that call does not raise |
| VideohubSpec.PairLineTarget | protocols/bmdvideohub.py:193-195 | A rendered line with both indices in range designates the entries they select |
| VideohubSpec.SnapshotReplayKeepsRouting | protocols/bmdvideohub.py:142-201 | Sending back the broadcast routing block leaves the routing table unchanged |
| VideohubSpec.WriteIsShown | protocols/bmdvideohub.py:142-198 | After output o is routed to input i, the next routing block carries `o i` |
| VideohubSpec.CachedSender | protocols/bmdvideohub.py:248-254 | The result is the subscribed sender of the first cached receiver with that UUID, or None when none has it |
| VideohubSpec.FirstMatching | protocols/bmdvideohub.py:239-265 | The result is the first source, in registry order, for which every essence defined on both sides has a cached receiver subscribed to the source's device |
| VideohubSpec.SharedNothingMatches | protocols/bmdvideohub.py:241-246 | A source sharing no essence with the receiver matches vacuously |
| VideohubSpec.Reconcile | protocols/bmdvideohub.py:236-268 | The definition of the receiver loop of reconciliation, stated by the lemmas below |
| VideohubSpec.ReconcileKeepsUnmatched | protocols/bmdvideohub.py:236-268 | An entry that no matched receiver writes keeps its previous value, stale or not |
| VideohubSpec.ReconcileSetsMatch | protocols/bmdvideohub.py:236-268 | A matched receiver's entry holds its first matching source's ID, unless a later receiver with the same ID also matched |
| VideohubSpec.ReconcileFromEmpty | protocols/bmdvideohub.py:222-268 | Reconciling from an empty table, as a reload does, leaves entries only for receivers that matched |
| VideohubSpec.WriteReplies | protocols/bmdvideohub.py:203-205 | The definition of the writer's answer: `ACK`, then the echo under the routing header when any line was accepted; stated by ReplyToWrite |
| VideohubSpec.BlockOutcome | protocols/bmdvideohub.py:164-210 | The definition of one block's effect: nothing for an empty block; for a routing block the body's routing and calls, replies `ACK`, the echo and the new table, and that table broadcast; otherwise `ACK` for `PING:` and `NAK` for anything else |
| VideohubSpec.RunSession | protocols/bmdvideohub.py:90-102 | The definition of a session: the blocks' effects in order, each from the routing left by those before |
| VideohubSpec.RunSessionNext | protocols/bmdvideohub.py:96-100 | One more block extends the session by that block's outcome |
| VideohubSpec.QueriesKeepRouting | protocols/bmdvideohub.py:164-210 | A session with no routing block changes no route, makes no `emit_patch` call and broadcasts nothing; each non-empty block gets exactly one reply |
| VideohubSpec.FrameOfRoutingLine | protocols/bmdvideohub.py:90-102 | The routing header, a rendered routing line and a blank line frame as one block of those two lines |
| VideohubSpec.TypedRoutingWrite | protocols/bmdvideohub.py:90-210 | A panel typing the routing header, `o i` and a blank line routes output o to input i, makes one `emit_patch` call for that pair, and gets `ACK`, the echo unless the call raised, and the new table, which every other panel gets too |
| Videohub.VideohubEmulator.constructor | protocols/bmdvideohub.py:11-24 | The emulator starts with the registry's labels and index maps, no routes, no panels and empty logs |
| Videohub.VideohubEmulator.LoadLabels | protocols/bmdvideohub.py:26-39 | The label tables come from the registry, the index maps are their sorted IDs and positions, and routing is emptied |
| Videohub.VideohubEmulator.DeviceInfo | protocols/bmdvideohub.py:122-132 | The device block with the two index-map lengths, stated by DeviceInfoReadBack |
| Videohub.VideohubEmulator.InputLabels | protocols/bmdvideohub.py:134-136 | The input label block, stated by LabelLines and LabelLineRoundTrip |
| Videohub.VideohubEmulator.OutputLabels | protocols/bmdvideohub.py:138-140 | The output label block, stated likewise |
| Videohub.VideohubEmulator.CurrentRouting | protocols/bmdvideohub.py:142-151 | The routing block of the current table, stated by the RoutePairs lemmas |
| Videohub.VideohubEmulator.OutputRouting | protocols/bmdvideohub.py:142-151 | The loop renders exactly the routing block of the sound, ascending, complete pair list |
| Videohub.VideohubEmulator.Send | protocols/bmdvideohub.py:111-117 | The content is appended to that panel's log only |
| Videohub.VideohubEmulator.Broadcast | protocols/bmdvideohub.py:153-162 | Every panel connected at the start gets the routing block once. Panels whose drain fails are dropped and no other panel is |
| Videohub.VideohubEmulator.NotifyAll | protocols/bmdvideohub.py:156-162 | The loop sends the content once to each panel of the snapshot and drops exactly the failing ones |
| Videohub.VideohubEmulator.ApplyRouting | protocols/bmdvideohub.py:190-201 | The routing table, the `emit_patch` calls and the echoed lines are those of the body's specification |
| Videohub.VideohubEmulator.ReplyToWrite | protocols/bmdvideohub.py:203-205 | The writer gets `ACK`, then the echo under the routing header when any line was accepted |
| Videohub.VideohubEmulator.RoutingWrite | protocols/bmdvideohub.py:189-207 | The body is applied and answered. A failed drain ends before the broadcast; otherwise every panel then gets the new routing block |
| Videohub.VideohubEmulator.ProcessBlock | protocols/bmdvideohub.py:164-210 | An empty block gets no reply and changes nothing. `PING:` gets exactly `ACK` with routing unchanged. A routing header is applied, and with no body gets `ACK`, no echo, then a broadcast. Every other header, the header-only queries included, gets `NAK` |
| Videohub.VideohubEmulator.SetRouting | protocols/bmdvideohub.py:212-220 | Nothing happens when the entry already holds the sender and no broadcast is forced. Otherwise only that entry changes, then a broadcast |
| Videohub.VideohubEmulator.RefreshRoutingFromNmos | protocols/bmdvideohub.py:228-272 | The receiver loop leaves exactly the reconciled routing table |
| Videohub.VideohubEmulator.ReloadAndBroadcast | protocols/bmdvideohub.py:222-226 | Labels are reloaded, routing is reconciled from empty and broadcast |
| Videohub.VideohubEmulator.Start | protocols/bmdvideohub.py:41-43 | Routing is reconciled and broadcast before serving |
| Videohub.VideohubEmulator.Stop | protocols/bmdvideohub.py:56-62 | Every panel is forgotten |
| Videohub.VideohubEmulator.HandleClient | protocols/bmdvideohub.py:72-109 | A failed drain after the greeting leaves the panel registered with the five blocks sent and nothing else changed. Otherwise the routing table and the `emit_patch` calls are those of the session over the framed input, and the panel is forgotten at the end. Its log grows by the five blocks, the routing block, then the session's replies. Every other panel connected before gets the routing block, then every table the session broadcasts unless its own drain fails, and an unconnected panel gets nothing |
| Videohub.VideohubEmulator.Greet | protocols/bmdvideohub.py:75-86 | The panel gets preamble, device info, input labels, output labels and routing, in that order |
| Videohub.VideohubEmulator.ReadSession | protocols/bmdvideohub.py:90-102 | The read loop leaves the routing table, the calls and the panel's log as the session over the framed input does. Other panels connected at its start that do not fail get the session's broadcasts; panels not connected get nothing; panels are only dropped, the reading panel never |
| Videohub.VideohubEmulator.EndBlock | protocols/bmdvideohub.py:98-100 | One block handed to `process_block` changes routing and calls and extends the panel's log as the block's outcome says; other live panels get its broadcasts |
| Videohub.CheckEssences | protocols/bmdvideohub.py:241-258 | The essence loop accepts a source exactly when it matches the receiver |
| Videohub.FindMatchingSource | protocols/bmdvideohub.py:239-265 | The source loop returns exactly the first matching source |
| Text.Strip | utils/sdp_filter.py:12 | The definition of `strip`, stated by StripSpec |
| Text.StripSpec | utils/sdp_filter.py:12 | `strip` gives the slice between the leading and the trailing whitespace, and it neither starts nor ends with whitespace |
| Text.LStripSpec | utils/sdp_filter.py:12 | `lstrip` removes exactly the leading whitespace |
| Text.RStripSpec | utils/sdp_filter.py:12 | `rstrip` removes exactly the trailing whitespace |
| Text.SplitWs | utils/sdp_filter.py:12 | Every word `split()` gives is non-empty and free of whitespace |
| Text.SplitOn | utils/sdp_filter.py:27 | `split(sep)` never gives an empty list |
| Text.SplitOnJoin | protocols/restapi.py:203 | Splitting a join of separator-free pieces at the separator gives the pieces back |
| Text.Join | protocols/bmdvideohub.py:134-136 | The definition of `sep.join(xs)`, stated by SplitOnJoin |
| Text.SplitLines | utils/sdp_filter.py:6 | `splitlines()` gives line-break-free lines, with no trailing empty line |
| Text.IntToString | services/logical.py:24 | The definition of `str(i)`, stated by NatToStringDigits, ParseIntOfIntToString and IntToStringInjective |
| Text.Lower | services/nmos_discovery.py:43-44 | `lower()` on ASCII text keeps the length; its idempotence is LowerIdempotent |
| Text.NatToStringDigits | services/logical.py:24 | `str(n)` is a non-empty digit run whose value is n |
| Text.ParseInt | protocols/restapi.py:203 | The definition of `int()` on text: surrounding whitespace, an optional sign, a digit group with single underscores; stated by the lemmas beside it |
| Text.ParseIntOfIntToString | protocols/bmdvideohub.py:193 | `int(str(i)) == i` |
| Text.IntToStringInjective | services/logical.py:24 | `str` is injective on integers |
| Text.ContainsIffOccurs | services/nmos_discovery.py:47 | `in` on strings is the existence of an occurrence |

## Left out

- Sockets, asyncio and threads. A panel is a number with a log of the strings it was sent. The `"\n\n"` terminator and the encoding on the wire are not modelled. A failed `drain` is a `dead` set of panels given as a parameter.
- Logging (`print`) is left out, and so is the `matched` counter of reconciliation.
- The order in which `broadcast_routing_update` visits the panel snapshot is not modelled. The model proves the outcome for every order.
- In `handle_client`, the model computes the five blocks before registering the panel. Nothing reads the panel set in between, so the outcome is the same.
- The reads of the network and files are parameters:
  - `refresh_discovery` and `read_cache`: a sequence of cached receivers;
  - `load_logical_ids`: a registry value;
  - `load_nodes`: dropped.
- `change_source` and `disconnect_receiver` are oracles returning a status record or an exception text.
- The HTTP request to `/active/` is an oracle from receiver UUID to reported sender. The `active_result` part of the status response is not modelled.
- `save_logical_ids` (JSON file writing) and the reload the settings routes request from the emulator are not modelled.
- `list_logical_groups` and `ping` in protocols/restapi.py are not modelled, and neither are the Flask request, `jsonify`, `redirect` and rendering. The `index()` sort in routes/main.py is not modelled either; only its key is.
- `detect_nmos_and_connection_versions` and the HTTP part of `fetch_node_data` are not modelled.
- Logical IDs are integers or absent. A JSON record holding a non-integer ID, or an explicit `null` key, is read as absent.
- PatchBus.PatchOne: a device answer that holds the key `message` with value null makes the source's `.get("message", "")` give None; the model gives `""`, because the device oracle's message is a string or absent.
- The device oracle is a function, so two identical calls get identical answers. A `take_many` request naming the same destination twice therefore gets the same answer twice, which a real device need not give.
- NmosDiscovery.FetchUrl: a node whose `versions.nmos` is JSON null makes the source build a URL with `/node/None/`; the model reads a null version as absent and uses `v1.3`.
- NmosDiscovery.GetResourceType: JSON nulls that make the source raise are not modelled; the model reads `format`, `label` and `description` as strings and `tags` as lists of strings. A null `label` or `description` raises in `.lower()`, a null `format` in the `in` test, and a null `tags`, a null tag list or a non-string tag in the tag scan.
- MainRoutes.ExtractSortKey: a JSON-null `label` raises in `.lower()` and a null `tags` in `.items()`; the model reads the label as a string and the tags as lists of strings.
- Settings.LogicalRegistry.UpdateLogicalId: a `logical_id` form value that is not integer text makes `int()` raise, and so does an `entry_type` other than sources or receivers; neither is modelled.
- Videohub.VideohubEmulator.RefreshRoutingFromNmos: a cached receiver whose `subscription` is JSON null makes `.get` raise, and the outer handler then ends reconciliation keeping only the updates made so far; the model reads a null subscription as one without a sender.
- Settings values are JSON scalars (booleans, integers, strings, null).
- Per-essence results are maps. The key order of the result dictionaries (skipped essences first in `emit_patch`) is not modelled.
- `\d` and the digits `int()` accepts are ASCII only; Python accepts further Unicode digits. `lower()` folds only ASCII letters. Whitespace (`\s`, `strip`, `split()` and the padding `int()` strips) is Python's full `str.isspace()` set.
- Settings.LogicalRegistry.AddLogicalId: `entry_type` is sources or receivers. A non-integer `logical_id` text, which raises in `int()`, is not modelled.
- Settings.LogicalRegistry.UpdateLogicalId: an `original_name` that is not in the table makes the source raise `KeyError`. The model reports `MissingOriginal` and changes nothing, which is also what the source's failure leaves on disk.

Where the Videohub protocol's documented behaviour and the code disagree, the model follows the code:
- `OUTPUT LABELS:`, `INPUT LABELS:` and `VIDEOHUB DEVICE:` on their own are answered `NAK`, because the lookup keys lack the trailing colon. `VIDEO OUTPUT ROUTING:` on its own misses the lookup too and is handled as a routing write with an empty body: the panel gets `ACK`, no echo, and the table is broadcast to every panel, the sender included.
- `PING:` is answered only when its block ends with a blank line, like every block.
- Reconciliation keeps a previous entry for an unmatched receiver, and a reload empties the routing table first.
- The REST gate reads `settings.json` raw, so a missing `enable_restapi` key disables the API. `load_settings` would default it to true.
