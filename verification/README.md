# Ombot in Dafny

A model of the parts of Ombot whose correctness is hard to see from one function:
how it merges, composes and repairs configuration, how it signs and guards
requests, how it pairs, how it keeps one connection to the gateway, and how it
delivers each reply once. Time, ids, keys, the verifier, hashes and the locale's
sort order are parameters; files, sockets and timers are values and events.

## How it is laid out

- `Json.dfy`, `JsText.dfy`: JSON values as the code holds them, with the order of
  keys, and the texts that `JSON.stringify`, `String` and `sort` make of them.
- `ConfigMerge.dfy`: the merge as functions. `MergeLoops.dfy`: its loops, proved to
  compute those functions. `MergeLaws.dfy`, `MergeAssoc.dfy`, `MergeAssocExact.dfy`,
  `PatchTwice.dfy`, `PatchTwiceExact.dfy`, `TwoPaths.dfy`, `ParsedConfigs.dfy`: its algebra.
  `LastWriter.dfy`, `PluginLaws.dfy`: what it makes of each path and each plugin entry.
- `RepairRoute.dfy`, `RepairLaws.dfy`, `SelfHeal.dfy`, `HealSteps.dfy`, `HealLaws.dfy`: file
  repair and the healer.
- `RouteSync.dfy`: the two targets of route sync. `RouteSyncLast.dfy`, `RouteSyncCases.dfy`:
  with no fragment after the route-sync fragment. `RouteSyncLater.dfy`: with any.
  `FailingInputs.dfy`: inputs at which the conditions of the config laws matter.
- `TextLaws.dfy`, `DecimalLaws.dfy`, `KeyOrder.dfy`, `IndexKeys.dfy`: trimming, numbers,
  the order of texts and keys. `PrintLaws.dfy`: a JSON reader, and printing undone by it.
- `SigningPayload.dfy`, `SigningLaws.dfy`, `SignedFields.dfy`: the three signed texts, what
  they tell apart and what they say. `ReqGuard.dfy`, `SignedOnce.dfy`: the nonce cache, and
  what it means for signed texts. `Pairing.dfy`, `ChallengeLaws.dfy`: the handshake and the
  requests of a session.
- `ReplyText.dfy`, `ReplyFields.dfy`, `ReplyDeduper.dfy`: text extraction, delivery, duplicates.
- `KeyStore.dfy`, `KeyFiles.dfy`, `KeyRotation.dfy`: chatroom keys, their files and their
  re-encryption.
- `RateWindow.dfy`: the message limit.
- `GatewayMachine.dfy`: one function per event of the gateway client.
  `GatewayLaws.dfy`: the invariant every event keeps. `GatewayRuns.dfy`: what follows
  for every run. `GatewayProgress.dfy`: what each event does to socket, handshake and turn,
  and what the client waits for. `GatewayStale.dfy`: what answers to a closed socket's
  requests change.
  `GatewayClient.dfy`: the class, each handler proved to do its event.

Where the program updates in place there is a class or a loop, proved against a
function on values; the laws are about those functions, and say what they do by the
fields of their inputs and not by their own definitions.

Some laws do not hold without a condition, and then the condition is exact and an
input that fails is given.

- Route sync merges a patch into its own fragment and composes, or into the composed
  config. Later fragments override the patch in the first target and not in the second,
  and the blockrun repair runs on the fragment alone in one and on the whole in the other.
  The two give the same config exactly when the plain merges agree around the blockrun
  entry and the repairs of that entry end the same. On a first sync they agree for every
  keyed patch exactly when the earlier fragments compose to no blockrun entry and every
  later one is empty, and a patch agrees with all fragments exactly when it is empty.
- Merging is associative over all targets exactly when the last config puts objects, plugins
  lists and plugin configs only over others or over nothing; a plugin config may be new only
  in a new entry or in one with nothing but its id.
- Applying a patch twice can undo the blockrun repair: a patch that sets `api` to a blank
  text is repaired the first time and kept the second time.
- A nonce, and a signed text, can be accepted twice when the time to live is shorter than
  twice the maximum age.
- The message limit is one per connection: the window goes when the connection closes.
- The gateway client keeps its pending requests when a socket closes. When an old connect is
  answered on a newer socket, legacy connect loses its frame bound, and the client can
  count as connected on a socket on which it sent no connect. With insecure-skip on,
  connect frames on one socket are not bounded at all.
- While every send succeeds, an open socket of the gateway client always waits for something.
  One connect whose send fails leaves it open with no timer and no request out.
- The header of `tools/openclaw-repair-route.mjs` says it repairs nested models; the code
  leaves them where `models.models` holds no object `providers`, and says so.

## Model

| member | source | states |
|---|---|---|
| `MergeLoops.DeepMerge` | tools/openclaw-json-merge.mjs:128-145 | The key-by-key loop over a mutated target computes `Merge`: an array at `plugins` merges by id, objects merge recursively (replacing a non-object), everything else is replaced, new keys go last |
| `MergeLoops.MergeKey` | tools/openclaw-json-merge.mjs:129-144 | What one key of the source does to the target |
| `MergeLoops.MergePluginLists` | tools/openclaw-json-merge.mjs:10-32 | Entries that are no objects or have no truthy id are skipped, an unknown id is appended, a known one is overlaid in its place |
| `MergeLoops.MergeEntry` | tools/openclaw-json-merge.mjs:13-30 | What one patch entry does to the list: skipped, appended, or overlaid in its place |
| `MergeLoops.OverlayEntry` | tools/openclaw-json-merge.mjs:20-29 | `config` merges into the existing config (or into a fresh object), every other key is replaced |
| `MergeLoops.MergeConfigs` | tools/openclaw-json-merge.mjs:21-24 | The `config` part of the overlay alone |
| `MergeLoops.CopyKeys` | tools/openclaw-json-merge.mjs:25-28 | The loop that copies every key but `config` |
| `MergeLoops.NormalizeNestedModelsKey` | tools/openclaw-json-merge.mjs:38-54 | Hoists `models.models.providers` into `models.providers` and drops `models.models`, only when all of them are objects; what that does to every path is `LastWriter.HoistExactly` |
| `MergeLoops.MergeOpenclawPatch` | tools/openclaw-json-merge.mjs:152-161 | Normalise both sides, merge, normalise, repair |
| `MergeLoops.MergeOrderedFragments` | tools/openclaw-json-merge.mjs:168-179 | The fold over the fragments skips what is no object, normalises the others, then normalises and repairs the result |
| `MergeLoops.MergeAssignsAll` | tools/openclaw-json-merge.mjs:128-145 | Assigning one source key after the other ends in the merged object, key order included |
| `MergeLaws.MergeStaysFlat` | tools/openclaw-json-merge.mjs:38-54 | Merging two configs with nothing to hoist never creates something to hoist |
| `MergeLaws.FoldIsFlat` | tools/openclaw-json-merge.mjs:168-175 | After the fold nothing is left to hoist |
| `MergeLaws.CleanPlugins` | tools/openclaw-json-merge.mjs:10-32 | Merging any plugins list into one with distinct ids keeps the ids distinct |
| `MergeLaws.FoldIsClean` | tools/openclaw-json-merge.mjs:168-175 | Every plugins list reached through objects of a composed config has admissible entries with distinct ids |
| `MergeLaws.RebuildClean` | tools/openclaw-json-merge.mjs:128-145 | Merging such a config into `{}` gives it back, key order included |
| `MergeLaws.ComposeIsAFixedPoint` | tools/openclaw-json-merge.mjs:168-179 | For all fragments: composing the composed config gives it back |
| `PatchTwice.SelfMerge` | tools/openclaw-json-merge.mjs:128-145 | Merging a config with distinct plain plugin ids into itself gives it back |
| `PatchTwice.MergeTwice` | tools/openclaw-json-merge.mjs:128-145 | `deepMerge` with the same patch twice equals once, by induction through plugin lists and plugin configs |
| `PatchTwice.PluginsTwice` | tools/openclaw-json-merge.mjs:10-32 | The same for plugins lists: entries of other ids never disturb a settled entry |
| `PatchTwice.PatchTwiceIsOnce` | tools/openclaw-json-merge.mjs:152-161 | `mergeOpenclawPatch` twice equals once when the blockrun repair does not fire |
| `PatchTwiceExact.EntryAgain` | tools/openclaw-json-merge.mjs:91-113 | A completed blockrun entry, patched and repaired again, is the same exactly when the patch does not blank a field the repair fills in |
| `PatchTwiceExact.DroppedAgain` | tools/openclaw-json-merge.mjs:91-113 | A blockrun entry dropped for want of a base URL and brought back by the patch is dropped again, with the key order as before |
| `PatchTwiceExact.PatchTwiceExactly` | tools/openclaw-json-merge.mjs:91-161 | For every base and every keyed patch: twice equals once if and only if the patch does not undo the repair (it blanks `api` or `apiKey` of a completed blockrun without listing `models`) |
| `FailingInputs.UndoesRepairSomewhere` | tools/openclaw-json-merge.mjs:91-161 | A patch that does undo the repair: a new blockrun with a base URL and a blank `api` |
| `MergeAssoc.PluginsAssoc` | tools/openclaw-json-merge.mjs:10-32 | Merging two keyed plugins lists one after the other equals merging the second into the first and that into the list, entry by entry and in the same order |
| `MergeAssoc.MergeIsAssociative` | tools/openclaw-json-merge.mjs:128-145 | `deepMerge` is associative on parsed, keyed sources where the second is tight on the first: an object, plugins list or plugin config goes only over another or over nothing, and a new config only into a new entry or one with just its id |
| `MergeAssocExact.LooseSplits` | tools/openclaw-json-merge.mjs:10-145 | Where the second source is not so, a target is built on which the two ways of merging differ, down through plugins lists and plugin configs |
| `MergeAssocExact.AssociativeExactly` | tools/openclaw-json-merge.mjs:10-145 | So merging is associative over every parsed target if and only if the second source is tight on the first |
| `TwoPaths.AgreeWhenValid` | tools/openclaw-json-merge.mjs:152-179 | A law of the two merge functions: patching a composed config equals composing with the patch as one more fragment, when the merged fragments hold no invalid blockrun overlay |
| `TwoPaths.DifferWithBaseUrl` | tools/openclaw-json-merge.mjs:91-113 | With an invalid overlay that has a base URL, a patch that blanks `api` tells those two apart |
| `TwoPaths.DifferWithoutBaseUrl` | tools/openclaw-json-merge.mjs:91-113 | Without a base URL, a patch that brings `blockrun` back after another new key tells them apart by key order |
| `TwoPaths.TwoPathsAgreeExactly` | tools/openclaw-json-merge.mjs:152-179 | The merge functions agree in this way for every patch if and only if the merged fragments hold no invalid blockrun overlay |
| `RouteSync.RouteSyncExactly` | tools/ombot-admin-lib/route-sync.sh:102-216 | For all fragments before and after, all route-sync fragments and all patches: the two targets give the same config if and only if the merges without repairs agree around the blockrun entry, and that entry ends the same and in the same place, repaired in the fragment and after composing, or before and after the patch |
| `RouteSync.AgreeWhenValidAndSame` | tools/ombot-admin-lib/route-sync.sh:102-216 | They do when neither the composed config nor the patched fragment needs the repair and the merges without repairs agree |
| `RouteSyncLast.OneConfig` | tools/ombot-admin-lib/route-sync.sh:102-216 | With no fragment after the route-sync fragment, and a keyed patch tight on it, the merges without repairs agree |
| `RouteSyncLast.LastFragmentExactly` | tools/ombot-admin-lib/route-sync.sh:102-216 | So in that case the targets agree if and only if the merged config has no providers or the blockrun entry ends the same and keeps its place |
| `RouteSyncLater.PathsAgreeExactly` | tools/ombot-admin-lib/route-sync.sh:102-216 | For a patch tight on the fragment, at every path outside plugins lists and blockrun: the targets have the same there if and only if the patch leaves the path alone, or no later fragment decides it, or the last that does says what the patch says |
| `RouteSyncLater.LaterSpeaks` | tools/ombot-admin-lib/route-sync.sh:102-216 | If a later fragment says anything, some keyed patch of one plain value tells the targets apart, whatever came before |
| `RouteSyncLast.AgreeWhenBothValid` | tools/ombot-admin-lib/route-sync.sh:102-216 | With no fragment after it and a keyed patch tight on it, the targets agree when neither the composed config nor the patched fragment needs the repair |
| `RouteSync.RefusedExactly` | tools/openclaw-validate-runtime-config.mjs:38-65 | The validator refuses the patched fragment if and only if its merged `models.models` is an object without an object `providers` |
| `RouteSync.MissingFragment` | tools/openclaw-merge-route-fragment.mjs:17-25 | A missing fragment file counts as an empty one |
| `RouteSync.RepairAfterwards` | tools/ombot-admin-lib/route-sync.sh:102-216 | The repair that follows finds nothing to do, whichever target was chosen |
| `RouteSyncLater.SafeFragmentsExactly` | tools/ombot-admin-lib/route-sync.sh:102-216 | On a first sync the targets agree for every keyed patch if and only if no earlier fragment composes to a blockrun entry and every later fragment is empty |
| `RouteSyncLater.SafePatchExactly` | tools/ombot-admin-lib/route-sync.sh:102-216 | On a first sync a patch agrees with all fragments before and after if and only if it is empty |
| `RouteSyncCases.SafeAsLastExactly` | tools/ombot-admin-lib/route-sync.sh:102-216 | When no fragment comes later, a keyed patch agrees with all earlier ones if and only if it has no blockrun entry |
| `RouteSyncCases.LeafEntryDiffers` | tools/openclaw-json-merge.mjs:91-113 | An entry that is no object is kept by one target and repaired away by the other |
| `RouteSyncCases.NewKeyDiffers` | tools/openclaw-json-merge.mjs:91-113 | A patch that only adds a key to a blockrun entry is lost in an empty fragment |
| `RouteSyncCases.MovedEntryDiffers` | tools/openclaw-json-merge.mjs:91-113 | An entry dropped for want of a base URL and brought back by the patch changes places in one target |
| `FailingInputs.NullApiDiffers` | tools/openclaw-merge-route-fragment.mjs:17-28 | A patch that only sets `api` to null tells the targets apart over every valid blockrun entry whose `api` is not null |
| `FailingInputs.NewBaseUrlDiffers` | tools/openclaw-merge-route-fragment.mjs:17-28 | A patch that only sets the base URL does so too: the fragment gets the defaults, and they override the composed `api` |
| `FailingInputs.LaterFragmentWins` | tools/ombot-admin-lib/route-sync.sh:102-216 | A fragment sorted after the route-sync fragment overrides the patch in one target and not in the other |
| `FailingInputs.LooseFragmentDiffers` | tools/openclaw-json-merge.mjs:128-145 | A patch that is not tight on the fragment can make the targets differ outside `models` as well |
| `LastWriter.MergeWrites` | tools/openclaw-json-merge.mjs:128-145 | Outside plugins lists a merge changes exactly the paths the source decides |
| `PluginLaws.MergeEverywhere` | tools/openclaw-json-merge.mjs:128-145 | What a merge makes of every path: a list at a key named plugins merges with the one there, anything else the source has replaces what was there, the rest stays |
| `PluginLaws.StepExactly` | tools/openclaw-json-merge.mjs:10-32 | One patch entry is skipped without a truthy id, laid over the first entry with the same text, number or boolean id in its place, or put at the end; an overlay keeps the other keys, merges `config` into an object, and leaves a list there alone |
| `PluginLaws.EntriesInOrder` | tools/openclaw-json-merge.mjs:13-30 | The entries of a patch are merged one after the other |
| `LastWriter.HoistExactly` | tools/openclaw-json-merge.mjs:38-54 | Below `models.providers` the nested providers decide, and where they do not, those already there; nothing is left at `models.models`; every other path is as it was |
| `LastWriter.NothingToHoist` | tools/openclaw-json-merge.mjs:38-54 | Without an object at `models.models.providers` nothing changes |
| `LastWriter.HoistedWrites` | tools/openclaw-json-merge.mjs:38-54 | What a fragment decides about a path after hoisting can be read off the fragment as it is |
| `LastWriter.PatchWins` | tools/openclaw-json-merge.mjs:152-161 | A patched config has at a path what the patch, as it is, decides, otherwise what the base decides, otherwise nothing |
| `RepairLaws.BlockrunExactly` | tools/openclaw-json-merge.mjs:91-113 | A blockrun entry without a model is completed when it has a base URL (its texts kept, the defaults written out, one model) and dropped when it has none; every other key, at every level, and the key order stay |
| `LastWriter.RepairOnlyTouchesBlockrun` | tools/openclaw-json-merge.mjs:91-113 | The repair changes no path outside `models.providers.blockrun` |
| `LastWriter.LastWriterWins` | tools/openclaw-json-merge.mjs:128-179 | What a composed config has at a path is what the last fragment that decides it says, read off the fragments as they are, and nothing if none does |
| `ParsedConfigs.ParsedFold` | tools/openclaw-json-merge.mjs:168-179 | Composing keeps each key listed exactly once |
| `RepairRoute.RepairObject` | tools/openclaw-repair-route.mjs:52-70 | The in-place steps: hoist, strip an orphan blockrun, repair; which of them ran; the `changed` flag |
| `RepairRoute.RepairFile` | tools/openclaw-repair-route.mjs:46-87 | The new file text, the action list and `changed` for every text, also for invalid JSON and non-objects; a file with nothing to repair keeps its bytes |
| `RepairRoute.StillInvalidExactly` | tools/openclaw-repair-route.mjs:46-87 | After a repair the config is invalid if and only if the original `models.models` was an object without an object `providers` |
| `RepairRoute.ReportsChangeAgain` | tools/openclaw-repair-route.mjs:46-87 | A second run reports a change again exactly in that case |
| `FailingInputs.StuckSomewhere` | tools/openclaw-repair-route.mjs:46-87 | An empty `models.models` is such a config: left as it is, reported as a change, still invalid |
| `RepairRoute.RepairTwice` | tools/openclaw-repair-route.mjs:22-87 | Repairing a repaired config changes nothing |
| `RepairRoute.RepairFileTwice` | tools/openclaw-repair-route.mjs:46-87 | A second run leaves the text of the file as it is |
| `RepairRoute.RepairStaysInModels` | tools/openclaw-repair-route.mjs:22-87 | Nothing outside `models` changes; a valid config does not change at all |
| `RepairLaws.RouteRepairExactly` | tools/openclaw-repair-route.mjs:22-87 | On the hoisted config: nothing to do unless the blockrun entry lists no model; then it is stripped without the ombrouter plugin, and repaired as by the merge with it |
| `RepairLaws.OrphanExactly` | tools/openclaw-repair-route.mjs:22-40 | Stripping drops the entry, then `providers` and `models` exactly when nothing else is in them; every other key stays |
| `RepairLaws.ActionsExactly` | tools/openclaw-repair-route.mjs:46-87 | The list of actions and whether the file is written, by what the config holds |
| `SelfHeal.FragmentNamesAre` | tools/openclaw-compose.mjs:62-69 | The listing holds exactly the `.json` names that are neither hidden nor backups |
| `HealSteps.FragmentNameExactly` | tools/openclaw-compose.mjs:62-69 | Fragment files are those whose name ends in `.json` and does not start with a dot |
| `SelfHeal.Healer.RepairBeforeCompose` | openclawConfigSelfHeal.js:152-171 | The loop repairs every fragment file, the runtime config and its copy, and no other file |
| `SelfHeal.Healer.EnsureGatewayModeLocal` | openclawConfigSelfHeal.js:173-198 | The transport fragment gets `gateway.mode` `local` if it exists, is writable and parses; otherwise nothing is written |
| `SelfHeal.Healer.Heal` | openclawConfigSelfHeal.js:475-600 | Disabled, cooldown, `config_ok`, failed or composed: the outcome, every file afterwards and `lastHealAt` |
| `HealSteps.ConfigOkExactly` | openclawConfigSelfHeal.js:279-352 | A heal leaves every file alone if and only if there are no fragments, or all of them parse, the runtime config is the text of their composition and its mode is `local` |
| `HealSteps.PreparedExactly` | openclawConfigSelfHeal.js:152-198 | Before composing, each fragment is repaired, the transport fragment also set to `local`, and the runtime config and its copy repaired; no other file changes |
| `HealSteps.LocalModeExactly` | openclawConfigSelfHeal.js:173-198 | Setting the mode keeps every other key of the file and of its `gateway`, and replaces a `gateway` that is no object; a file already local keeps its text |
| `HealSteps.RecomposedExactly` | openclawConfigSelfHeal.js:475-600 | It composes if and only if the prepared fragments are all objects and nothing else fails; then the runtime config is their composition, and so is its copy if that can be written |
| `HealLaws.FoldDecides` | tools/openclaw-json-merge.mjs:168-179 | The value at a path after the fold is what the fragments, applied in order, decide |
| `HealLaws.PreparedWrites` | openclawConfigSelfHeal.js:152-198 | Repairing and forcing the mode leaves every fragment's say on `gateway.mode` alone, but for the transport fragment, which then says `local` |
| `HealLaws.PreparedMode` | openclawConfigSelfHeal.js:152-198 | The composed mode is `local` unless a fragment listed after the transport fragment decides otherwise |
| `HealLaws.HealConvergesExactly` | openclawConfigSelfHeal.js:279-352 | After a heal that composed, the assessment is `ok` if and only if the later fragments leave the mode `local` |
| `FailingInputs.HealStaysRemote` | openclawConfigSelfHeal.js:279-352 | With one later fragment that sets any other mode, under any name, the heal composes and the assessment stays `mode not local` |
| `HealLaws.HealConverges` | openclawConfigSelfHeal.js:475-600 | If no later fragment replaces `gateway` or sets another mode, one heal settles it: the next heal takes the `config_ok` path and rewrites no file |
| `HealLaws.HealTwice` | openclawConfigSelfHeal.js:475-600 | Settled or not, a second heal leaves every file as the first one left it |
| `PrintLaws.PrintUnique` | securityGuards.js:52-67 | Printed JSON is prefix-free: if two prints with any tails are equal, the values and the tails are equal (strings escaped as in section 7 of RFC 8259) |
| `PrintLaws.ReadsBack` | securityGuards.js:52-67 | A reader that knows only the JSON grammar gets every printed value back, escapes of section 7 of RFC 8259 included, and leaves what follows it |
| `PrintLaws.ParseBack` | securityGuards.js:52-67 | `JSON.parse` undoes `JSON.stringify` |
| `TextLaws.TextLessExactly` | securityGuards.js:8-17 | The default order of texts is the dictionary order of their UTF-16 code units |
| `TextLaws.BeginningsFirst` | securityGuards.js:8-17 | A proper beginning of a text comes before it |
| `TextLaws.TrimExactly` | securityGuards.js:104-110 | `trim` drops blanks at both ends and nothing else |
| `TextLaws.TruthyExactly` | securityGuards.js:19-29 | What counts as false: nothing, null, false, zero and the empty text |
| `TextLaws.IntTextBack` | securityGuards.js:57-58 | A whole number is the value of the digits it prints |
| `TextLaws.TruncatedExactly` | securityGuards.js:57-58 | `Math.trunc` goes towards zero by less than one |
| `DecimalLaws.PointExactly` | securityGuards.js:57 | A decimal text is worth its digits over ten for each digit after the point |
| `DecimalLaws.ExponentExactly` | securityGuards.js:57 | An exponent multiplies by that power of ten, a negative one divides |
| `IndexKeys.IsIndexExactly` | securityGuards.js:8-17 | The keys an object lists first are the decimal prints of the numbers below 2^32 - 1 |
| `IndexKeys.ListingExactly` | securityGuards.js:8-17 | They are listed by number, and the other keys after them in the order they were added |
| `SignedFields.TextExactly` | securityGuards.js:52-67 | `String(...)` of a text is the text, of an object `[object Object]`, of any other plain value its JSON |
| `SignedFields.JoinExactly` | securityGuards.js:52-67 | `String(...)` of a list is its entries with commas between, where null prints as nothing |
| `SignedFields.StableReadsBack` | securityGuards.js:52-67 | Read back, the stable payload is an object with its six members in order: id, method and nonce as texts, the params with their own keys ascending and their values as they are, the whole part of the timestamp, and the type or req |
| `SignedFields.LegacyReadsBack` | securityGuards.js:19-29 | Read back, the legacy payload holds the six fields of the request or their defaults, in its own order |
| `SignedFields.CanonicalReadsBack` | securityGuards.js:35-45 | Read back, the canonical payload is the legacy object up to key order, with its keys listed in order at every depth |
| `SignedFields.SortedDeepExactly` | securityGuards.js:8-17 | `sortKeysDeep` changes nothing but the order of keys, and at every depth lists indices first, by number, and the rest in UTF-16 order |
| `PrintLaws.PrintInjective` | securityGuards.js:52-67 | Different values print differently |
| `KeyOrder.SortForgetsOrder` | securityGuards.js:8-17 | Two orders of the same keys sort to the same list |
| `KeyOrder.ListingMembers` | securityGuards.js:8-17 | Listing index-like keys first loses and repeats no key |
| `SigningLaws.StableIsPrint` | securityGuards.js:52-67 | The hand-built template is the print of one JSON value |
| `SigningLaws.StableExactly` | securityGuards.js:52-67 | Two stable payloads are equal if and only if the signed bodies are |
| `SigningLaws.StableIsInjective` | securityGuards.js:52-67 | Equal stable payloads have equal id, method, nonce, type, whole timestamp and params |
| `SigningLaws.SortingForgetsExactlyOrder` | securityGuards.js:8-17 | `sortKeysDeep` maps two values to the same one if and only if they differ in key order alone |
| `SigningLaws.CanonicalExactly` | securityGuards.js:35-45 | Two canonical payloads are equal if and only if the bodies differ in key order alone |
| `SigningLaws.CanonicalIgnoresKeyOrder` | securityGuards.js:35-45 | Reordering keys anywhere inside `params` leaves the canonical payload unchanged |
| `SigningLaws.FormsAgree` | securityGuards.js:35-67 | Canonical and stable payload coincide on string fields, a whole timestamp, sorted nested params and no index-like keys |
| `ReqGuard.NonceGuard.PruneSeenNonces` | securityGuards.js:69-73 | The deleting loop leaves exactly the entries within the time to live |
| `ReqGuard.NonceGuard.ValidateReqSignature` | securityGuards.js:88-123 | The verdict of every branch in order, and the cache it leaves; when a signature counts is `ReqGuard.VerdictExactly` |
| `ReqGuard.VerdictExactly` | securityGuards.js:88-123 | In every run a call is rejected for the first of the written-out checks that fails, and accepted if and only if none does; the last is that the verifier says yes to one of the three texts |
| `ReqGuard.AcceptedWasVerified` | securityGuards.js:112-120 | With signatures required, every accepted call has a signature that verifies under its key over its stable, canonical or legacy text |
| `ReqGuard.VerifiedIsAccepted` | securityGuards.js:88-123 | Past the earlier checks, with a nonce not accepted within the time to live, one such text is enough |
| `ReqGuard.OptionalAcceptsAll` | securityGuards.js:97 | Without required signatures every call is accepted and nothing is remembered |
| `ReqGuard.CallFields` | securityGuards.js:98-114 | The nonce and the signature are read as trimmed texts, empty when the field is falsy |
| `ReqGuard.AfterIsFaithful` | securityGuards.js:88-123 | In every run the cache holds acceptance times only and misses none that is still within its time to live |
| `ReqGuard.ReplayExactly` | securityGuards.js:88-123 | Past the earlier checks `replay` is returned if and only if that nonce was accepted within the last time to live |
| `ReqGuard.NoPairAcceptedTwice` | securityGuards.js:88-123 | With a clock that never goes back and a time to live of at least twice the maximum age, no run accepts a (nonce, timestamp) pair twice |
| `ReqGuard.SameNonceApart` | securityGuards.js:88-123 | Two calls accepted with one nonce are more than the time to live apart, and each is within the maximum age of its timestamp |
| `ReqGuard.ShortTtlAcceptsTwice` | securityGuards.js:88-123 | With a shorter time to live, or without required signatures, some run does |
| `ReqGuard.ReplayWindowExactly` | securityGuards.js:88-123 | So the bound is exact: no run accepts a pair twice if and only if signatures are required and the cache outlives the whole window |
| `ReqGuard.DefaultsAreSafe` | index.js:46-48 | The default settings meet the bound with equality |
| `SignedOnce.NoTextAcceptedTwice` | securityGuards.js:35-123 | No two accepted calls share a signed text, not even read as different forms, when the time to live covers twice the maximum age: exactly on a clock and age of whole milliseconds, with one millisecond to spare on any other |
| `SignedOnce.ShortTtlAcceptsText` | securityGuards.js:35-123 | Otherwise a well-signed call passes twice with the same texts, as early and as late as its age allows |
| `SignedOnce.TextOnceExactly` | securityGuards.js:35-123 | So on whole milliseconds no run accepts a signed text twice if and only if signatures are required and the time to live covers twice the maximum age |
| `Pairing.MachineRelaySession.ValidateAndPrepareRegister` | machineRelaySession.js:381-474 | A challenge is issued exactly for a compatible register message with a usable key; the key is taken over before that is known |
| `Pairing.NewChallenge` | machineRelaySession.js:431-445 | The challenge carries the fields of the register message and lives for the configured time, at least a second |
| `ChallengeLaws.CompatibilityExactly` | machineRelaySession.js:797-814 | A client is compatible if and only if its version is a number not below the minimum, nor below the server's unless older ones are allowed, and no required capability is missing; otherwise the first of these that fails is the reason |
| `ChallengeLaws.ChallengeReadsBack` | securityGuards.js:125-138 | Read back, the signed challenge text is an object with the nine fields of the challenge, keys ascending |
| `Pairing.MachineRelaySession.EvaluateResponse` | securityGuards.js:125-210 | The response is checked against the challenge held, over the printed text of that challenge, and recorded; the state becomes paired or rejected |
| `ChallengeLaws.RefusalExactly` | securityGuards.js:145-210 | A response is refused for the first of the eleven written-out checks that fails, and accepted when none does |
| `ChallengeLaws.EvaluatedExactly` | machineRelaySession.js:476-508 | In every session a response makes it ready if and only if it passes all of them against the latest challenge |
| `Pairing.MachineRelaySession.HandleRegisterChallengeResponse` | machineRelaySession.js:476-508 | Refused without an issued challenge; rejected, or paired and ready in one step |
| `Pairing.MachineRelaySession.RelaySignedReq` | machineRelaySession.js:513-581 | A request is passed on exactly when the session is ready, the peer is there and the guard accepts; the guard's cache is updated only then or when it refuses |
| `Pairing.ReadyMeansJustVerified` | machineRelaySession.js:476-508 | Every entry into the ready state directly follows a response to the latest challenge, with its nonce, unexpired, verified over the printed text of that challenge and attested where asked |
| `Pairing.ReadyTextIsUnique` | securityGuards.js:125-210 | The text verified there is the signed text of no other challenge of the session, under whatever response, but for the attestation flag; with fresh nonces it names the very challenge |
| `Pairing.EvaluatedOnce` | machineRelaySession.js:476-508 | Each issued challenge is evaluated at most once |
| `Pairing.ForwardedOnlyWhenReady` | machineRelaySession.js:513-664 | Between a request that reached the guard and the entry into the ready state there are only such requests, and it is passed on exactly when the guard accepts it after all earlier requests of the session |
| `Pairing.GuardSawEverything` | machineRelaySession.js:513-581 | Every verdict in a session is the guard's verdict in the run of all its requests |
| `Pairing.PassedOnExactly` | machineRelaySession.js:513-581 | With signatures required, a request is passed on if and only if none of the guard's written-out checks fails after all earlier requests of the session |
| `Pairing.PassedOnWasVerified` | machineRelaySession.js:513-581 | With signatures required, every request passed on was signed: its signature verifies over one of its texts |
| `Pairing.NoPairForwardedTwice` | machineRelaySession.js:513-581 | No session passes on the same nonce and timestamp twice, with a time to live of at least twice the maximum age |
| `Pairing.NoTextForwardedTwice` | machineRelaySession.js:513-581 | No session passes on two requests with a common signed text, with a time to live that covers twice the maximum age |
| `Pairing.ChallengeTextIsInjective` | securityGuards.js:125-138 | The signed challenge text determines the challenge, but for the attestation flag |
| `Pairing.SameSignedTexts` | securityGuards.js:125-210 | Equal response texts come from challenges equal but for the attestation flag, and from one printed timestamp |
| `ReplyText.TextFromMessageContent` | gatewayResponseText.js:15-32 | The loop over content blocks joins their trimmed texts, or finds none |
| `ReplyText.TextFromData` | gatewayResponseText.js:38-52 | Extracted text always has a character that is not blank (mutually recursive with the next) |
| `ReplyText.TextFromObject` | gatewayResponseText.js:58-84 | The same for payload objects |
| `ReplyText.AssistantText` | gatewayResponseText.js:107-127 | The same for whole frames; an error frame always yields text |
| `ReplyText.Evaluate` | gatewayAssistantDispatch.js:70-133 | A delivery decision carries text only if it is not blank, and a run id only if it is not blank; what is delivered is `ReplyFields.TextIsDelivered` and its neighbours |
| `ReplyFields.ContentExactly` | gatewayResponseText.js:15-32 | Content is a text that is not blank, or the joined texts of its blocks |
| `ReplyFields.PayloadExactly` | gatewayResponseText.js:58-84 | In a payload text goes before data, data before message, message before content |
| `ReplyFields.DataExactly` | gatewayResponseText.js:38-52 | In data text goes before delta, delta before message, message before content |
| `ReplyFields.RunIdExactly` | gatewayAssistantDispatch.js:19-39 | The first run id or idempotency key with text, from the frame, its payload and the data of that; last, a response's own id |
| `ReplyFields.TextIsDelivered` | gatewayAssistantDispatch.js:70-182 | A final chat event, an agent event whose phase ends, and a response that is no error deliver the trimmed text of their payload if and only if its key is not remembered |
| `ReplyFields.EventDelivers` | gatewayAssistantDispatch.js:70-112 | An event delivers exactly what its payload says if it is a final chat event or an agent event at its end, and its key is not remembered; every other event delivers nothing. Where the state, phase, lifecycle, stream and status are looked for is written out |
| `ReplyFields.ResponseDelivers` | gatewayAssistantDispatch.js:113-133 | A response that did not fail delivers what its payload says or else its own text, and nothing when it is a bare acknowledgement |
| `ReplyFields.ErrorIsDelivered` | gatewayResponseText.js:107-127 | A failed response delivers the message of its error, or else its code, or else the error itself, marked as an error |
| `ReplyFields.OtherFramesAreSilent` | gatewayAssistantDispatch.js:131-133 | Frames that are neither events nor responses deliver nothing |
| `ReplyFields.KeysExactly` | gatewayAssistantDispatch.js:153-162 | Two replies have one key if and only if they have one run, or have none and one trimmed text |
| `ReplyDeduper.GatewayReplyDeduper.ShouldDeliver` | gatewayAssistantDispatch.js:158-169 | False exactly for blank text and for keys among the last `maxEntries` accepted since the reset; the set and the list stay in step |
| `ReplyDeduper.GatewayReplyDeduper.Evict` | gatewayAssistantDispatch.js:164-167 | The eviction loop keeps exactly the last `maxEntries` keys |
| `ReplyDeduper.GatewayReplyDeduper.Reset` | gatewayAssistantDispatch.js:148-151 | Forgets every key |
| `ReplyDeduper.GatewayReplyDeduper.AssistantTextForConsumer` | gatewayAssistantDispatch.js:177-182 | Delivers the decided text exactly when its key is not remembered |
| `ReplyDeduper.DeliveredIsFinal` | gatewayAssistantDispatch.js:70-182 | Delivered text is not blank and never comes from an acknowledgement or a streaming event |
| `ReplyDeduper.NoEarlyRepeat` | gatewayAssistantDispatch.js:136-170 | In every run two deliveries under one key lie more than `maxEntries` accepted keys apart |
| `ReplyDeduper.SameRunOnce` | gatewayAssistantDispatch.js:136-182 | Of two frames of one run, the later stays silent until `maxEntries` later keys were accepted |
| `KeyStore.ChatroomStore.Save` | chatroomStorage.js:151-179 | The one file (which one that is, character by character: `KeyFiles.NameExactly`) that is written and its whole content; without explicit peer keys the stored ones are kept |
| `KeyFiles.NameExactly` | chatroomStorage.js:72-75 | A file name character by character: the id with an underscore for each UTF-16 unit outside the safe set, 128 places at most, `default` for none |
| `KeyFiles.PlainPath` | chatroomStorage.js:77-81 | Ids of 1 to 128 safe characters name their directory and file as they are |
| `KeyFiles.SaveElsewhere` | chatroomStorage.js:133-179 | For two different pairs of such ids, what one loads is the same before and after a save of the other |
| `KeyFiles.SaveThenLoad` | chatroomStorage.js:133-179 | A load right after a save gives the key pair, the peer key of the participant saved, and for another its own stored key, or that of `default`, or the one saved |
| `KeyFiles.SaveKeepsOthers` | chatroomStorage.js:151-194 | Saving one participant's peer key keeps those of the others |
| `KeyFiles.OldPathExactly` | chatroomStorage.js:133-146 | Without a readable file of its own a conversation has keys exactly for the default agent with a readable file at the old path |
| `KeyFiles.SealedExactly` | chatroomStorage.js:28-70 | A sealed file is sealed by the first key and opens under every list that contains it |
| `KeyStore.ChatroomStore.Load` | chatroomStorage.js:133-146 | The key pair and the peer key, from the new path or, for the default agent, the old one |
| `KeyStore.ChatroomStore.Rotate` | chatroomStorage.js:196-229 | The loop re-encrypts each readable record; the counts of those rotated and of those skipped |
| `KeyRotation.RotatesReadable` | chatroomStorage.js:196-229 | The number rotated is the number of listed files that some key opened before |
| `KeyRotation.SafeFilenameTwice` | chatroomStorage.js:72-75 | `safeFilename` is idempotent and never empty |
| `KeyRotation.OwnPath` | chatroomStorage.js:77-81 | A record written by this code goes back to its own file |
| `KeyRotation.WrittenIsConsistent` | chatroomStorage.js:151-179 | A record this code wrote, with or without keys, stores its default participant as its own peer key, under whatever keys it is read |
| `KeyRotation.ReadRecord` | chatroomStorage.js:100-127 | What reading back a saved record yields, for every record and every key list that opens it, plain records among them |
| `KeyRotation.RewriteKeepsExactly` | chatroomStorage.js:196-229 | A rewritten record loads under the first key alone with the same key pair, and with the same peer key for every participant if and only if it was consistent |
| `KeyRotation.RotateAllLocal` | chatroomStorage.js:196-229 | Every listed file is rewritten once, every other file stays |
| `KeyRotation.RotationLosesNothing` | chatroomStorage.js:196-229 | After a rotation every consistent record in the store loads under the first key alone with what it held before |
| `KeyRotation.WrittenRecordsSurvive` | chatroomStorage.js:151-229 | So when this code wrote every listed file, plain or under a key that is still listed, after a rotation each loads under the first key alone with what it held before |
| `KeyRotation.UnreadableStays` | chatroomStorage.js:211-215 | A file that no key opens stays as it was |
| `RateWindow.RateLimiter.AllowMessage` | index.js:174-182 | The verdict and the stored window; a refusal stores nothing |
| `RateWindow.RateLimiter.Forget` | index.js:289-296 | Closing a connection leaves its client no accepted messages and every other client its own |
| `RateWindow.FilterRecent` | index.js:177 | The filter keeps exactly the times within the last minute |
| `RateWindow.WindowShowsHistory` | index.js:174-182 | Although old entries are dropped, the stored window shows the same recent accepts as the whole history since the last close |
| `RateWindow.AcceptExactly` | index.js:174-182 | With a clock that never goes back, a message is accepted if and only if fewer than the maximum were accepted on this connection in the previous 60000 ms |
| `RateWindow.PassedExactly` | index.js:174-182 | By the verdicts of the run alone: a message passes if and only if fewer than the maximum of messages of its connection passed less than 60000 ms before |
| `RateWindow.NoMinuteOverflows` | index.js:174-291 | No half-open minute holds more than the maximum since the connection opened |
| `RateWindow.AllowancePerConnection` | index.js:174-291 | Over all connections of a client, no half-open minute holds more than the maximum for each time the connection closed in it, and once more |
| `RateWindow.OverflowAcrossCloses` | index.js:174-291 | For every number of closes a run reaches that bound: the window goes with the connection, and the client id is the address and port |
| `RateWindow.SameWithoutClose` | index.js:174-291 | In runs that never close the connection the bound is one over the whole run |
| `RateWindow.OthersDoNotCount` | index.js:174-291 | Messages and closes of other clients change nothing for this one |
| `GatewayClient.GatewayAgentClient.constructor` | gatewayAgentClient.js:154-192 | The initial state meets the global invariant |
| `GatewayClient.GatewayAgentClient.EnsureConnected` | gatewayAgentClient.js:536-614 | Starts to connect if there is no socket; keeps the invariant |
| `GatewayClient.GatewayAgentClient.ReconnectTimerFires` | gatewayAgentClient.js:230-238 | Clears the timer and connects if there is no socket |
| `GatewayClient.GatewayAgentClient.PortWaitEnds` | gatewayAgentClient.js:541-574 | Port down, destroyed meanwhile, socket not created, or a new socket |
| `GatewayClient.GatewayAgentClient.SocketOpen` | gatewayAgentClient.js:576-579 | Starts the handshake |
| `GatewayClient.GatewayAgentClient.BeginHandshakeAfterOpen` | gatewayAgentClient.js:317-339 | A blind connect with insecure-skip or legacy connect, otherwise the challenge timer |
| `GatewayClient.GatewayAgentClient.SocketClose` | gatewayAgentClient.js:585-597 | Forgets the socket and the handshake and arms the reconnect timer unless destroyed |
| `GatewayClient.GatewayAgentClient.ChallengeTimerFires` | gatewayAgentClient.js:290-315 | Blind connect or close, unless a connect went out meanwhile |
| `GatewayClient.GatewayAgentClient.HandleConnectChallengeEvent` | gatewayAgentClient.js:341-364 | Closes on a missing nonce, otherwise notes it and connects once |
| `GatewayClient.GatewayAgentClient.SendConnectHandshake` | gatewayAgentClient.js:486-534 | The pending entry and the frame of a connect request, also when the send fails |
| `GatewayClient.GatewayAgentClient.ConnectReplied` | gatewayAgentClient.js:499-527 | Success, a challenge to a blind connect, or a refusal |
| `GatewayClient.GatewayAgentClient.ConnectRefused` | gatewayAgentClient.js:504-526 | Only a blind connect is answered with another connect; every other refusal closes the socket (`GatewayProgress.ClosesExactly`) |
| `GatewayClient.GatewayAgentClient.FinishConnectSuccess` | gatewayAgentClient.js:464-481 | Connected only if enough is granted; then the queue drains |
| `GatewayClient.GatewayAgentClient.DrainQueue` | gatewayAgentClient.js:642-664 | Takes the first item if nothing is in flight and it can go somewhere; the pending entry and the frame of the turn |
| `GatewayClient.GatewayAgentClient.SendAgentTurn` | gatewayAgentClient.js:671-750 | The pending entry and the frame of a turn, which carries the item taken from the queue; a failed send leaves no entry and settles the turn |
| `GatewayClient.GatewayAgentClient.EnqueueAgentTurn` | gatewayAgentClient.js:218-228 | Appends and drains |
| `GatewayClient.GatewayAgentClient.AgentReplied` | gatewayAgentClient.js:701-740 | Settles the turn, by the fallback first when the reply is a refusal |
| `GatewayClient.GatewayAgentClient.TurnTimeout` | gatewayAgentClient.js:693-699 | Drops the pending entry and settles the turn |
| `GatewayClient.GatewayAgentClient.FallbackSettled` | gatewayAgentClient.js:262-281 | The fallback provider answers or fails; either way the turn settles |
| `GatewayClient.GatewayAgentClient.TurnEnds` | gatewayAgentClient.js:660-663 | Clears the in-flight flag and drains again |
| `GatewayClient.GatewayAgentClient.Destroy` | gatewayAgentClient.js:194-212 | Closes, disarms every timer, clears pending and queue |
| `GatewayLaws.SendKeepsBounds` | gatewayAgentClient.js:486-534 | Sending keeps the frame bound whenever there is room for the frame |
| `GatewayLaws.DrainKeeps` | gatewayAgentClient.js:642-664 | Draining keeps the global invariant and leaves no item that could be sent |
| `GatewayLaws.ConnectAnswerKeeps` | gatewayAgentClient.js:499-527 | Every reply to a connect keeps the global invariant, and a reply on its own socket also the frame bound |
| `GatewayRuns.StepKeeps` | gatewayAgentClient.js:144-751 | Every event keeps the global invariant, and keeps the frame bound unless it answers an older socket's request |
| `GatewayRuns.EveryRunKeeps` | gatewayAgentClient.js:144-751 | The global invariant holds after every sequence of events, also when requests of a closed socket are answered on a later one |
| `GatewayRuns.OwnRunKeeps` | gatewayAgentClient.js:144-751 | The frame bound holds besides while every answer comes in on the socket of its request |
| `GatewayRuns.HistoryIsReal` | gatewayAgentClient.js:144-751 | Nonces, hellos and enqueued items recorded in the state are those of the events of the run |
| `GatewayRuns.NeverDoubled` | gatewayAgentClient.js:566-600 | At most one opened socket has not closed, across all interleavings |
| `GatewayRuns.NeverStranded` | gatewayAgentClient.js:230-238 | Once started and until destroyed the client waits for the port, holds a socket that has not closed, or has its reconnect timer armed |
| `GatewayProgress.NeverWaitsForNothing` | gatewayAgentClient.js:290-534 | In every run whose sends succeed, a held socket that is open while the client is not connected has the challenge timer armed, or a connect that went out on it unanswered |
| `GatewayProgress.FailedSendStrands` | gatewayAgentClient.js:486-534 | One failed send is enough to leave an open socket with nothing to wait for: no timer, no connect |
| `GatewayProgress.ClosesExactly` | gatewayAgentClient.js:290-534 | In every run the client closes its open socket exactly at a challenge timer with no connect sent and no legacy connect, a challenge without a nonce, a hello that grants too little, and a refusal that is no challenge to a blind connect |
| `GatewayProgress.ConnectsExactly` | gatewayAgentClient.js:317-534 | In every run a connect frame goes out exactly at the listed events, blind or with the nonce just received |
| `GatewayProgress.AuthorizedExactly` | gatewayAgentClient.js:443-481 | Enough is granted if and only if the list that counts is missing, empty or contains `operator.write` |
| `GatewayProgress.ChallengeInExactly` | gatewayAgentClient.js:504-512 | The challenge in a refusal: from the payload, or else from the details of the error |
| `GatewayProgress.NothingAfterDestroy` | gatewayAgentClient.js:194-212 | After destroy no event opens a socket, sends a frame, arms the reconnect timer or connects |
| `GatewayRuns.HandshakeBound` | gatewayAgentClient.js:317-534 | Without insecure-skip, and with answers on their own sockets, a socket carries at most two connect frames; only the last has a device block, with a nonce received on that socket |
| `GatewayRuns.HandshakeBoundExactly` | gatewayAgentClient.js:317-534 | With answers on their own sockets no run breaks the two-frame bound if and only if insecure-skip is off |
| `GatewayStale.OneFrameEach` | gatewayAgentClient.js:317-534 | Without blind connects a socket carries at most one connect frame, with a nonce received on that socket, whatever older requests are answered on it |
| `GatewayStale.StaleFrames` | gatewayAgentClient.js:486-600 | With legacy connect, refusals of older connects that were never answered make a socket carry one more frame each |
| `GatewayStale.AnyHandshakeBoundExactly` | gatewayAgentClient.js:317-600 | Wherever answers come in, no run breaks the two-frame bound if and only if neither insecure-skip nor legacy connect is on |
| `GatewayRuns.BlindForever` | gatewayAgentClient.js:504-512 | With insecure-skip a gateway that keeps answering with challenges is sent any number of blind frames |
| `GatewayRuns.ConnectedOnlyWhenGranted` | gatewayAgentClient.js:443-481 | The connected flag means an ok reply came in on the socket held whose grants are absent, empty or contain `operator.write`; with answers on their own sockets, that a connect frame went out on it |
| `GatewayStale.ConnectedUnaskedExactly` | gatewayAgentClient.js:464-600 | The client becomes connected on a socket that never carried a connect frame exactly by an ok, authorized answer, on such a socket, to an older socket's request |
| `GatewayStale.ConnectedUnaskedSomewhere` | gatewayAgentClient.js:464-600 | Under every setting some run does that, since a close leaves the pending requests in place |
| `GatewayRuns.TurnsInOrder` | gatewayAgentClient.js:642-751 | Until destroyed: taken plus queued is what was enqueued, in order; each agent frame carries the item enqueued at its position, positions go up, and one turn waits at a time; nothing waits that could be sent |
| `GatewayProgress.TurnsExactly` | gatewayAgentClient.js:642-751 | In every run the first waiting item is taken exactly when the client looks at its queue, no other turn is in flight, and the gateway or the fallback can take it; where it goes, and what each event makes of the turn in flight |
| `GatewayProgress.TurnCanEnd` | gatewayAgentClient.js:660-740 | A turn in flight can always end without the gateway: after at most two events of its own it is over or the next has begun |

## Left out

- Object-valued plugin ids: the code compares them by reference in cloned trees, so they never match; the model says they never match.
- An array-valued plugin `config` would get named properties in JavaScript; the model leaves it as it is.
- Route sync: the writing, owning and validating of files around the two merges; its inline merge for an installation without tools, which neither hoists nor repairs; and a runtime config that is not the one last composed. Its compose step stops at a fragment that is no object; the model of it skips that.
- RouteSyncLast.AgreeWhenBothValid: is about a route-sync fragment that sorts last; with later ones it takes the agreement of the plain merges as a condition, which is RouteSync.AgreeWhenValidAndSame.
- RouteSyncLast.LastFragmentExactly: the same; RouteSync.RouteSyncExactly has no such condition.
- A number that does not print as a whole one is worth exactly the decimal it prints; rounding of doubles is not modelled.
- Values come out of `JSON.parse`: the loops and the printers require each key to be listed once and numbers to print as numbers.
- `__proto__` as a key, and participant ids that name inherited properties such as `constructor`.
- The position of index-like keys appended during a merge; keys are appended last. Sorted printing does model it.
- Strings hold Unicode scalar values: lone surrogates are not modelled. Integers of 1e21 and more print with an exponent in JavaScript.
- How a timestamp, protocol version or body field is coerced by `Number(...)`: the coerced value is an input.
- Ed25519, NaCl box, SHA-256, Base64 and AES-GCM: the verifier and hash are functions passed in, sealed files open under the sealing key only, equal hashes are taken as equal texts. A verifier that throws counts as one that says no.
- `ComposeLock`, strict keys, partial writes and other failures of compose outside the fragments: one `fault` input, after which no file of the compose has changed.
- The healer's port probe, service restart and sharing of one running heal; its file writes are assumed to succeed, and the runtime config and its copy lie outside the fragment directory and differ.
- Key rotation visits a listing of `.json` files with distinct paths; other files and the old directory are not rotated. Key files that hold a JSON array as `participants` or as a key are not modelled; this code never writes them.
- `maxEntries` of the deduper is a natural number; the message limit is an integer.
- The near-copy of the gateway client in `openclawGatewayBridge.js` (lines 607-685 and 798-918) is modelled once, as the client. The copy connects without looking at the socket itself (its callers do), keeps queue and pending on stop, sends keepalive pings, and hands replies to a phone session instead of callbacks.
- GatewayMachine events assume fresh request ids and sockets, callbacks that do not throw, environment settings that do not change, and a gateway that answers only ids it was sent, on any socket.
- Reply texts, message acknowledgements and the deduper reset of a turn are not outputs of the gateway machine; the deduper is modelled by itself.
- The fallback provider's HTTP call is one event that settles the turn.
- Pairing.ForwardedOnlyWhenReady: a request passed on is one that passed the guard; single-client mode may still refuse its method or find no gateway.
- Pairing.ReadyMeansJustVerified: it is about the step into the ready state; a later register message replaces the key before it is checked, so no claim is made about the key held afterwards.
- `failClose`, the middleware relay body, Hermes calls, provisioning scripts, logging, metrics, the audit log and small pure helpers such as URL normalisation and session key hashing.
