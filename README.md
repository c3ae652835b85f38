# Tag-list panel of the registry console, in Dafny

This project models the state bookkeeping of `TagComponent`, the panel of the
registry's web console that lists the image tags of one repository. The panel
deletes tags through a confirmation dialog and submits vulnerability scans. It
keeps a map of the tags whose scan is in flight, with a counter beside it, and
a timer polls the tag service while that counter is positive. It also shows a
tag's digest for copying.

The component is the class `TagPanel.TagComponent` (file `tag_panel.dfy`). Its
fields are the component's own: `tags`, `loading`, `tagsInScanning` (a map from
tag name to tag name), `scanningTagCount`, `digestId`, `manifestInfoTitle`,
`showTagManifestOpened` and `copyFailed`. Each method changes only the fields
the source's method assigns, named field by field in its `modifies` clause.
The inputs `projectId`, `repoName` and `registryUrl` are constants set by the
constructor.

The panel's collaborators are outside the model:

- The tag service, the scanning service and the confirmation dialog are not modelled.
- Each asynchronous call is split in two. The method that issues it appends a
  `Request` to the `requests` log.
- A separate `...Resolved` method is the promise's `then`/`catch` callback. It
  takes an `Outcome` (`Resolved(value)` or `Rejected(error)`) as a parameter.
- What the panel reports goes to the `events` log: errors, the info notice,
  `refreshRepo`, the tag-click event and the dialog it opens.

The facts about the scan reconciliation are stated on plain functions of the
fetched list and proved as lemmas:

- `ScanningNames(items)`: the names of in-flight tags.
- `InFlightCount(items)`: the number of in-flight tags.
- `DistinctInFlightNames(items)`: no two in-flight tags share a name.

`UpdateScanningResolved` is proved against these functions through its loop
invariants.

`tag_scenarios.dfy` holds scenario methods. Each takes a fresh component through
one scenario, and its contract states the final state.

JavaScript truthiness is written out explicitly:

- An unset `projectId` is `0`.
- An unset `repoName` is the empty string.
- `tagsInScanning[tagId]` is truthy when the key is present and its value (the
  tag id itself) is not empty (`AlreadyScanning`).

Three behaviours of the code are easy to miss:

- Calling `scanTag` twice before the first call settles issues two scan
  requests, not one. The name is only marked when the call succeeds (`ScanTwiceScenario`).
- The counter equals the number of marked names only under conditions. The
  fetched in-flight names must be distinct (`InFlightCountVersusNames`). A scan
  may be marked only for a name not yet present (`ScanResolved`). Duplicate
  names, and an empty tag id, which passes the guard, make the counter run
  ahead of the map (`DuplicateNamesScenario`, `ScanTwiceScenario`).
- A signed tag still opens a dialog from `deleteTag`. It is an informational
  dialog with the notary command and a close button.

## Model

| member | source | states |
|---|---|---|
| `TagPanel.InFlightCount` | src/ui_ng/lib/src/tag/tag.component.ts:242-248 | the number of in-flight tags is at most the length of the fetched list |
| `TagPanel.InFlightCountIsPositionCount` | src/ui_ng/lib/src/tag/tag.component.ts:242-248 | the counter the loop builds equals the number of positions in the fetched list that hold a tag whose scan overview is present and pending or running |
| `TagPanel.GuardAdmitsFreshOrEmpty` | src/ui_ng/lib/src/tag/tag.component.ts:220-228 | when map and counter are consistent, the truthiness guard of `scanTag` lets an id through if and only if it is not yet marked or it is the empty id |
| `TagPanel.DeletionMessage` | src/ui_ng/lib/src/tag/tag.component.ts:176-193 | a signed tag gets the denied title and summary keys, the close button and the notary removal command naming the registry, repository and tag; an unsigned tag gets the delete keys, the delete/cancel buttons and the tag name as content; the tag is the payload and the panel is the target either way |
| `TagPanel.ScanningNamesSnoc` | src/ui_ng/lib/src/tag/tag.component.ts:242-250 | processing one more fetched tag adds its name to the scanning names exactly when its scan overview is present and pending or running |
| `TagPanel.DistinctInFlightNamesSnoc` | src/ui_ng/lib/src/tag/tag.component.ts:242-250 | a list has no repeated in-flight name exactly when its prefix has none and its last element, if in flight, repeats no earlier in-flight name |
| `TagPanel.InFlightCountVersusNames` | src/ui_ng/lib/src/tag/tag.component.ts:239-250 | the rebuilt counter is never below the number of distinct scanning names, and equals it if and only if no two in-flight tags share a name |
| `TagPanel.ReconcileStep` | src/ui_ng/lib/src/tag/tag.component.ts:243-249 | one iteration of the reconciliation loop keeps the map's keys equal to the scanning names of the processed prefix, every value equal to its key, and the counter equal to the in-flight count of that prefix |
| `TagPanel.ConfirmedDeletionDialog` | src/ui_ng/lib/src/tag/tag.component.ts:105-124 | confirming the dialog that `deleteTag` opened leads to a delete request if and only if the tag is unsigned |
| `TagPanel.TagComponent.constructor` | src/ui_ng/lib/src/tag/tag.component.ts:74-91 | a new panel has no tags, is not loading, has an empty scanning map with count 0, no digest, closed digest dialog, no copy failure, no timer, and empty logs |
| `TagPanel.TagComponent.OnInit` | src/ui_ng/lib/src/tag/tag.component.ts:127-144 | an unset project id reports "Project ID cannot be unset." and does nothing else; otherwise an unset repository name reports "Repo name cannot be unset." and does nothing else; otherwise the tags are fetched as `retrieve` does and the state-check timer is started |
| `TagPanel.TagComponent.Tick` | src/ui_ng/lib/src/tag/tag.component.ts:139-143 | a timer tick issues a reconciliation fetch if and only if the scanning count is positive, and otherwise changes nothing |
| `TagPanel.TagComponent.Retrieve` | src/ui_ng/lib/src/tag/tag.component.ts:152-157 | before fetching, the tag list is emptied and loading is set; exactly one tag fetch is issued |
| `TagPanel.TagComponent.RetrieveResolved` | src/ui_ng/lib/src/tag/tag.component.ts:158-168 | loading ends either way; on success the list becomes the fetched items and `refreshRepo(true)` is emitted once exactly when they are empty, nothing otherwise; on failure the list is kept and exactly one error is reported |
| `TagPanel.TagComponent.DeleteTag` | src/ui_ng/lib/src/tag/tag.component.ts:173-196 | a present tag opens exactly the dialog `DeletionMessage` describes; an absent tag does nothing |
| `TagPanel.TagComponent.ConfirmDeletion` | src/ui_ng/lib/src/tag/tag.component.ts:105-115 | a delete request for the tag's name is issued if and only if the acknowledgement is present, comes from the tag panel, is confirmed, carries a tag and that tag is unsigned; every other acknowledgement issues nothing |
| `TagPanel.TagComponent.DeleteResolved` | src/ui_ng/lib/src/tag/tag.component.ts:116-121 | a successful delete runs `retrieve` (list emptied, loading, one tag fetch) and shows the deleted-tag notice; a failed one reports exactly one error and changes nothing else |
| `TagPanel.TagComponent.ShowDigestId` | src/ui_ng/lib/src/tag/tag.component.ts:198-205 | for a present tag the digest dialog opens with the copy-digest title and that tag's digest and the copy-failure flag is cleared; an absent tag changes nothing |
| `TagPanel.TagComponent.OnTagClick` | src/ui_ng/lib/src/tag/tag.component.ts:207-216 | a present tag emits one click event carrying the project id, repository name and tag name; an absent tag emits nothing |
| `TagPanel.TagComponent.ScanTag` | src/ui_ng/lib/src/tag/tag.component.ts:218-223 | when the tag id is already marked with a truthy value no scan request is issued and nothing changes; otherwise exactly one scan request for it is issued |
| `TagPanel.TagComponent.ScanResolved` | src/ui_ng/lib/src/tag/tag.component.ts:224-230 | a successful scan start adds the tag id to the map and raises the counter by exactly one; a failed one changes neither and reports exactly one error; marking a name not yet present keeps counter and map consistent |
| `TagPanel.TagComponent.UpdateScanningStates` | src/ui_ng/lib/src/tag/tag.component.ts:233-235 | exactly one tag fetch is issued |
| `TagPanel.TagComponent.UpdateScanningResolved` | src/ui_ng/lib/src/tag/tag.component.ts:236-256 | on success the map's keys are exactly the names of fetched tags whose scan is pending or running, each mapped to itself, the counter is the number of such tags, and the list is replaced wholesale; counter and map then agree if and only if those names are distinct; on failure list, map and counter are unchanged and exactly one error is reported |
| `TagPanel.TagComponent.OnCopySuccess` | src/ui_ng/lib/src/tag/tag.component.ts:261-265 | a successful copy clears the failure flag and closes the digest dialog |
| `TagPanel.TagComponent.OnCopyError` | src/ui_ng/lib/src/tag/tag.component.ts:267-270 | a failed copy sets the failure flag and leaves the dialog as it is |
| `TagScenarios.ReconcileScenario` | src/ui_ng/lib/src/tag/tag.component.ts:233-252 | with one scan marked, a tick polls, and a fetch of running `v1` and unscanned `v2` leaves exactly `v1` marked with count 1 |
| `TagScenarios.DuplicateNamesScenario` | src/ui_ng/lib/src/tag/tag.component.ts:242-248 | a fetch listing running `v1` twice leaves one key and a count of 2 |
| `TagScenarios.ScanTwiceScenario` | src/ui_ng/lib/src/tag/tag.component.ts:218-231 | two scans of one tag issue one request only if the first succeeded before the second and the id is non-empty, otherwise two; once all settle the single key is counted as often as requests went out |
| `TagScenarios.DeleteConfirmedScenario` | src/ui_ng/lib/src/tag/tag.component.ts:105-121 | confirming deletion of unsigned `v2` issues the delete after the initial fetch, then a reload fetch, and ends with the deleted-tag notice |
| `TagScenarios.SignedDeletionScenario` | src/ui_ng/lib/src/tag/tag.component.ts:176-180 | a signed tag opens the close-only dialog with the notary command, and confirming it issues no request |
| `TagScenarios.CopyDigestScenario` | src/ui_ng/lib/src/tag/tag.component.ts:261-270 | after showing a digest, a successful copy closes the dialog without the failure flag and a failed one keeps it open and flagged |

## Left out

- Angular lifecycle, decorators, change detection and the `setInterval`/`setTimeout` refresh nudges (lines 169-170 and 257-258) are rendering plumbing with no effect on the modelled state.
- The RxJS timer and its unsubscription in `ngOnDestroy` (lines 139 and 146-150) are left out. Real time is not modelled; each tick is one call of `Tick`, allowed once `OnInit` has started the timer.
- Settlement order is free. A `...Resolved` method is not tied to the request it answers, so overlapping fetches that settle in any order can be expressed. No ordering between them is proved.
- The tag service, the scanning service, the translation service, the error handler and the confirmation dialog's internals are foreign calls. Their results are the `Outcome` parameters; their inputs are entries of `requests` and `events`.
- The deleted-tag notice is logged with its translation key (`InfoShown`). The translated text and its asynchronous lookup are not modelled.
- Error values are modelled as strings and forwarded unchanged.
- A tag fetch that resolves with `null` instead of a list is not modelled. For `retrieve` the `this.tags &&` guard would skip `refreshRepo`; for `updateScanningStates` the loop would throw after the reset.
- `tagsInScanning` is a plain JavaScript object, so a lookup also finds inherited property names such as `toString`. The model's map holds only the keys written, so `AlreadyScanning` is false for such names.
- `tagsInScanning` as a plain object also drops a write under the name `__proto__`, which is a valid tag name: the inherited setter ignores a string value, so no key is stored while the counter still rises. The model stores the key.
- UpdateScanningResolved: for a fetch whose in-flight names include `__proto__`, the source ends with one key fewer than the model's keys, so the stated agreement of map and counter for distinct names does not hold in the source for that name (a fetch of one running `__proto__` leaves the source with an empty map and count 1).
- ScanResolved: a successful scan of `__proto__` raises the counter in the source without storing a key, so the consistency the contract states for a fresh name does not hold in the source for that name.
- `projectId` values `NaN` and `undefined` are collapsed into `0`. An undefined `repoName` is the empty string. The uninitialised `tags`, `digestId`, `manifestInfoTitle` and `showTagManifestOpened` start as `[]`, `None`, `""` and `false`.
- Scan statuses other than pending and running are merged into one value, `OtherStatus`. The panel only tests for those two.
- The DOM text selection in `onError` (lines 271-273) is left out.
- `console.debug` (line 237) is left out.
- The `CustomComparator` sort on the `created` date (line 83) belongs to a library outside this model.
- The inputs `isEmbedded`, `hasSignedIn`, `hasProjectAdminRole`, `withNotary` and `withClair`, and the fields `staticBackdrop` and `closable`, only feed the template.
- The `$event` arguments of `onSuccess` and `onError` are unused by the source and are not parameters here.
