# Dreamz dashboard components in Dafny

A model of the state logic behind six screens of the Dreamz Discord dashboard
(a React front end): the video bundle composer, the embed builder, the
moderation panel, the upload form, the channel assignment screen and the
settings page. Each React component is a Dafny class whose fields are its
`useState` variables. Each event handler is a method that replaces those
fields. The new value is given by a pure function of the old state, such as
a `map` by id, a `filter`, or an append under a guard. Values the component
derives on every render (the ticked videos, their total size, the validity
test, the active rule count, `formatDuration`) are pure functions. Lemmas
about those functions state what the screens promise: what changes and what
stays in place, what toggling twice gives back, and which invariant each
handler keeps.

Modules:

- `Wrappers`: an `Option` type.
- `Seqs`: the list operations the handlers use, with their lemmas. These are
  `filter`, map-where-the-id-matches, remove-every-occurrence, and
  duplicate-freedom, by value or by key.
- `Text`: `String.prototype.trim`, the decimal `toString` of a non-negative
  integer, and `padStart`.
- `VideoBundling`: `VideoBundler.tsx`.
- `Embeds`: `EmbedBuilder.tsx`.
- `Moderation`: `ModerationPanel.tsx`.
- `Upload`: `UploadVideo.tsx`.
- `ChannelAssign`: `ChannelAssignment.tsx`.
- `Settings`: `DashboardSettings.tsx`.

Ids that the code takes from `Date.now()` (a new bundle, embed field or
moderation rule) come in as a method parameter. A precondition says the id
is not already in the list. The code itself does not guarantee this: two
clicks in the same millisecond would repeat an id. Under that precondition,
each class invariant states that ids stay distinct.

`isValidSelection` (`VideoBundler.tsx:88`) tests only the number of ticked
videos and their total size. An empty selection passes it, so `createBundle`
accepts one and appends an empty bundle. Only the Create button's `disabled`
test (`VideoBundler.tsx:267`) refuses an empty selection. The model keeps the
two apart: `IsValidSelection` admits the empty selection, `CreateBundle`
accepts it, and `CreateEnabled` is the button's condition.

## Model

| member | source | states |
|---|---|---|
| Seqs.Filter | src/components/dashboard/VideoBundler.tsx:83 | `Array.prototype.filter` with a pure predicate; `FilterMembers`, `FilterIsSubsequence`, `FilterKeepsCount`, `FilterLength` and `FilterAppend` prove that it keeps exactly the passing elements, in order, with their multiplicities. |
| Seqs.MapWhere | src/components/dashboard/VideoBundler.tsx:91-93 | The `map(x => test(x) ? change(x) : x)` pattern every by-id handler uses; `MapWhereAt` proves it pointwise, and `MapWhereTwice`, `MapWhereNoMatch` and `MapWhereDistinctBy` give its laws. |
| Seqs.RemoveAll | src/components/dashboard/UploadVideo.tsx:27 | `filter(y => y !== x)`; `RemoveAllSpec` proves that it drops every occurrence of `x` and keeps the rest in order, and `AppendThenRemove` that it undoes appending an absent `x`. |
| VideoBundling.SelectedVideos | src/components/dashboard/VideoBundler.tsx:83 | `selectedVideos`, the ticked entries of the catalog; `SelectedVideosSpec` proves what it holds. |
| VideoBundling.TotalSize | src/components/dashboard/VideoBundler.tsx:84 | `totalSelectedSize`, the `reduce` sum of sizes; `TotalSizeAppend`, `TotalSizeSubsequence`, `TotalSizeUniform` and `TotalSizeAtLeastMember` prove its laws. |
| VideoBundling.IsValidSelection | src/components/dashboard/VideoBundler.tsx:88 | `isValidSelection`: at most 10 ticked videos and at most 500 MiB; the lemmas below decide it for full, empty, eleven-video and oversized selections. |
| VideoBundling.CreateEnabled | src/components/dashboard/VideoBundler.tsx:267 | The Create button's enabling test: a non-blank name, a valid selection and at least one ticked video; `EmptySelectionPasses` and `EnabledButtonCreates` relate it to `IsValidSelection`. |
| VideoBundling.NewBundle | src/components/dashboard/VideoBundler.tsx:99-106 | The bundle `createBundle` builds; `NewBundleWellFormed` proves its contents and limits. |
| VideoBundling.FormatDuration | src/components/dashboard/VideoBundler.tsx:71-75 | `formatDuration`; `FormatDurationSpec` proves the `m:ss` form and its value. |
| VideoBundling.ToggleVideo | src/components/dashboard/VideoBundler.tsx:90-94 | The catalog after `toggleVideoSelection`; `ToggleVideoSpec` and `ToggleVideoTwice` prove its effect and its inverse. |
| VideoBundling.ClearSelection | src/components/dashboard/VideoBundler.tsx:112 | The catalog after the clearing `map`; `ClearSelectionSpec`, `ClearSelectionTwice` and `ClearSelectionKeepsSize` prove its effect. |
| VideoBundling.RemoveBundleFrom | src/components/dashboard/VideoBundler.tsx:115-117 | The bundles after `removeBundle`; `RemoveBundleSpec` proves its effect. |
| VideoBundling.SetTiers | src/components/dashboard/VideoBundler.tsx:119-123 | The bundles after `updateBundleTiers`; `SetTiersSpec` proves its effect. |
| VideoBundling.SetChannels | src/components/dashboard/VideoBundler.tsx:125-129 | The bundles after `updateBundleChannels`; `SetChannelsSpec` proves its effect. |
| VideoBundling.CheckedList | src/components/dashboard/VideoBundler.tsx:366-370 | The list a checkbox hands on: appended when checked, filtered when not; `CheckedListSpec` proves its effect. |
| VideoBundling.SelectedVideosSpec | src/components/dashboard/VideoBundler.tsx:83 | The derived selection holds exactly the ticked catalog entries. They are in catalog order, each as often as in the catalog. |
| VideoBundling.TotalSizeAppend | src/components/dashboard/VideoBundler.tsx:84 | The summed size of two lists laid end to end is the sum of their sizes. So the `reduce` total does not depend on how the list is split. |
| VideoBundling.TotalSizeSubsequence | src/components/dashboard/VideoBundler.tsx:84 | A sublist never weighs more than the list it is taken from. |
| VideoBundling.TotalSizeUniform | src/components/dashboard/VideoBundler.tsx:84 | `n` videos of `size` bytes each total `n * size` bytes. |
| VideoBundling.TotalSizeAtLeastMember | src/components/dashboard/VideoBundler.tsx:84 | The total is at least the size of any one member. |
| VideoBundling.AllSelectedValidity | src/components/dashboard/VideoBundler.tsx:83-88 | When every entry is ticked, the selection is valid iff there are at most 10 entries and at most 500·1024·1024 bytes in all. |
| VideoBundling.TenVideosOfFiftyMillionBytesPass | src/components/dashboard/VideoBundler.tsx:85-88 | Ten ticked videos of 50,000,000 bytes each (500,000,000 in all) pass both limits. |
| VideoBundling.ElevenVideosFail | src/components/dashboard/VideoBundler.tsx:86-88 | Eleven ticked videos fail the count limit, whatever their sizes. |
| VideoBundling.OversizedVideoFails | src/components/dashboard/VideoBundler.tsx:84-88 | One ticked video over 500 MiB makes the selection invalid. |
| VideoBundling.EmptySelectionPasses | src/components/dashboard/VideoBundler.tsx:83-88 | With nothing ticked, the selection is empty and the validity test passes, yet the Create button is disabled for every name. |
| VideoBundling.EnabledButtonCreates | src/components/dashboard/VideoBundler.tsx:96-113 | An enabled Create button implies that `createBundle`'s guard passes and that the new bundle holds at least one video. |
| VideoBundling.ClearSelectionKeepsSize | src/components/dashboard/VideoBundler.tsx:112 | Clearing the ticks does not change the catalog's total size. |
| VideoBundling.MockCatalogSize | src/components/dashboard/VideoBundler.tsx:41-52 | The initial catalog holds ten videos of 483,000,000 bytes in all. |
| VideoBundling.MockCatalogAlwaysValid | src/components/dashboard/VideoBundler.tsx:41-88 | Whatever is ticked in the initial catalog passes both limits. |
| VideoBundling.ToggleVideoSpec | src/components/dashboard/VideoBundler.tsx:90-94 | `toggleVideoSelection` flips `selected` on the entries with that id. Every other entry, the length and the order are unchanged. |
| VideoBundling.ToggleVideoTwice | src/components/dashboard/VideoBundler.tsx:90-94 | Toggling the same id twice restores the catalog. |
| VideoBundling.ClearSelectionSpec | src/components/dashboard/VideoBundler.tsx:112 | After clearing, every entry is unticked and keeps its id, name, size and duration, in the same order. |
| VideoBundling.ClearSelectionTwice | src/components/dashboard/VideoBundler.tsx:112 | Clearing twice is the same as clearing once. |
| VideoBundling.CatalogAfterToggle | src/components/dashboard/VideoBundler.tsx:90-94 | Toggling changes the catalog only in its ticks. |
| VideoBundling.NewBundleWellFormed | src/components/dashboard/VideoBundler.tsx:99-106 | The new bundle has the given id and the name as typed. Its videos are exactly the ticked catalog entries, in catalog order and as often as in the catalog, at most 10. `totalSize` is their sum, at most 500 MiB. Tiers and channels are empty. |
| VideoBundling.RemoveBundleSpec | src/components/dashboard/VideoBundler.tsx:115-117 | `removeBundle` drops exactly the bundles with that id and keeps the rest in order, with their multiplicities. An absent id changes nothing. |
| VideoBundling.SetTiersSpec | src/components/dashboard/VideoBundler.tsx:119-123 | `updateBundleTiers` replaces only the tiers of the matching bundles. Every other field and every other bundle stay as they were, and well-formed bundles stay well-formed. |
| VideoBundling.SetChannelsSpec | src/components/dashboard/VideoBundler.tsx:125-129 | `updateBundleChannels` is the same as `updateBundleTiers`, for the channel list. |
| VideoBundling.CheckedListSpec | src/components/dashboard/VideoBundler.tsx:366-394 | Checking a box appends the value. Unchecking removes every occurrence and keeps the rest. A duplicate-free list stays duplicate-free when the box reflects membership. |
| VideoBundling.NatToStringLength | src/components/dashboard/VideoBundler.tsx:72-74 | A number below 100 has at most two decimal digits. |
| VideoBundling.PadOneDigit | src/components/dashboard/VideoBundler.tsx:74 | Padding one digit to two with a leading `0` keeps its value. |
| VideoBundling.PaddedSeconds | src/components/dashboard/VideoBundler.tsx:73-74 | The seconds part of a number below 60 is always two digits and denotes the number. |
| VideoBundling.FormatDurationSpec | src/components/dashboard/VideoBundler.tsx:71-75 | `formatDuration(s)` is `m:ss`, where `m` is the decimal form of `mins`, `ss` has two digits, `ss < 60` and `mins * 60 + ss == s`. |
| VideoBundling.VideoBundler.constructor | src/components/dashboard/VideoBundler.tsx:78-81 | Starts with the mock catalog, no bundles, an empty name and the upload step. |
| VideoBundling.VideoBundler.SetBundleName | src/components/dashboard/VideoBundler.tsx:220 | The name input stores the typed text and changes nothing else. |
| VideoBundling.VideoBundler.ToggleVideoSelection | src/components/dashboard/VideoBundler.tsx:90-94 | The catalog becomes `ToggleVideo` of the old one, and the other fields are unchanged. The invariant is kept: same catalog apart from ticks, distinct bundle ids, well-formed bundles. |
| VideoBundling.VideoBundler.CreateBundle | src/components/dashboard/VideoBundler.tsx:96-113 | If the trimmed name is empty or the selection is invalid, nothing changes. Otherwise one bundle `NewBundle(id, name, videos)` is appended, the name is cleared, every tick is cleared, and the step is kept. |
| VideoBundling.VideoBundler.RemoveBundle | src/components/dashboard/VideoBundler.tsx:115-117 | The bundles become `RemoveBundleFrom` of the old ones, and the other fields are unchanged. |
| VideoBundling.VideoBundler.UpdateBundleTiers | src/components/dashboard/VideoBundler.tsx:119-123 | The bundles become `SetTiers` of the old ones, and the other fields are unchanged. |
| VideoBundling.VideoBundler.UpdateBundleChannels | src/components/dashboard/VideoBundler.tsx:125-129 | The bundles become `SetChannels` of the old ones, and the other fields are unchanged. |
| VideoBundling.VideoBundler.TierChecked | src/components/dashboard/VideoBundler.tsx:366-370 | A tier checkbox on a bundle sets that bundle's tiers to `CheckedList` of its current ones. |
| VideoBundling.VideoBundler.ChannelChecked | src/components/dashboard/VideoBundler.tsx:390-394 | The same for a channel checkbox. |
| VideoBundling.VideoBundler.NextStep | src/components/dashboard/VideoBundler.tsx:305-308 | From the upload step, the next button goes to the assign step only when a bundle exists. |
| VideoBundling.VideoBundler.Back | src/components/dashboard/VideoBundler.tsx:332 | From the assign step, the back button returns to the upload step. |
| Embeds.Get | src/components/dashboard/EmbedBuilder.tsx:33-50 | Each top-level field reads back a value of its declared kind. |
| Embeds.SetField | src/components/dashboard/EmbedBuilder.tsx:87-92 | The embed after `updateEmbedData`; `SetFieldSpec` and `SetFieldToOwnValue` prove its effect. |
| Embeds.SetFieldSpec | src/components/dashboard/EmbedBuilder.tsx:87-92 | `updateEmbedData` stores the value under its key. Every other key, the author, the footer and the fields are unchanged. |
| Embeds.SetFieldToOwnValue | src/components/dashboard/EmbedBuilder.tsx:87-92 | Writing back the value a key already holds changes nothing. |
| Embeds.SetNested | src/components/dashboard/EmbedBuilder.tsx:94-102 | The embed after `updateNestedField`; `SetNestedSpec` proves its effect. |
| Embeds.SetNestedSpec | src/components/dashboard/EmbedBuilder.tsx:94-102 | `updateNestedField` stores the value in one sub-field of the author or footer. The other sub-record and every other field stay as they were. |
| Embeds.GetProperty | src/components/dashboard/EmbedBuilder.tsx:26-31 | Each field property reads back a value of its declared kind. |
| Embeds.SetProperty | src/components/dashboard/EmbedBuilder.tsx:121 | `{ ...field, [property]: value }` for a value of the property's kind. |
| Embeds.SetPropertySpec | src/components/dashboard/EmbedBuilder.tsx:121 | The written property reads back the value; the id and the other properties are unchanged. |
| Embeds.UpdateFields | src/components/dashboard/EmbedBuilder.tsx:117-124 | The fields after `updateField`; `UpdateFieldsSpec` proves its effect. |
| Embeds.UpdateFieldsSpec | src/components/dashboard/EmbedBuilder.tsx:117-124 | `updateField` keeps the length and order. Fields with another id are unchanged. On matching fields only the named property changes, to the given value. |
| Embeds.RemoveFieldFrom | src/components/dashboard/EmbedBuilder.tsx:126-131 | The fields after `removeField`; `RemoveFieldSpec` and `AddThenRemoveField` prove its effect. |
| Embeds.RemoveFieldSpec | src/components/dashboard/EmbedBuilder.tsx:126-131 | `removeField` drops exactly the fields with that id and keeps the rest in order. An absent id changes nothing. |
| Embeds.AddThenRemoveField | src/components/dashboard/EmbedBuilder.tsx:104-131 | Removing a just-added field with a new id restores the list. |
| Embeds.AddMentionTo | src/components/dashboard/EmbedBuilder.tsx:133-137 | The mentions after `addMention`; `AddMentionSpec` and `AddThenRemoveMention` prove its effect. |
| Embeds.AddMentionSpec | src/components/dashboard/EmbedBuilder.tsx:133-137 | `addMention` appends an absent mention, is a no-op on a present one, and never creates a duplicate. |
| Embeds.AddThenRemoveMention | src/components/dashboard/EmbedBuilder.tsx:133-141 | Adding an absent mention and then removing it restores the list. |
| Embeds.ToggleMention | src/components/dashboard/EmbedBuilder.tsx:190-195 | The mentions after a mention button press; `ToggleMentionSpec` and `ToggleMentionTwice` prove its effect. |
| Embeds.ToggleMentionSpec | src/components/dashboard/EmbedBuilder.tsx:190-195 | The mention button flips whether the mention is present, keeps every other mention, and keeps the list duplicate-free. |
| Embeds.ToggleMentionTwice | src/components/dashboard/EmbedBuilder.tsx:190-195 | Two presses on an absent mention restore the list. |
| Embeds.ToggleMentionTwiceReorders | src/components/dashboard/EmbedBuilder.tsx:190-195 | Two presses on a present mention move it to the end, so toggling twice is not an identity on order. |
| Embeds.EmbedBuilder.constructor | src/components/dashboard/EmbedBuilder.tsx:71-85 | Starts with the empty embed in colour `#5865F2`, no mentions, no channel and no message. |
| Embeds.EmbedBuilder.UpdateEmbedData | src/components/dashboard/EmbedBuilder.tsx:87-92 | The embed becomes `SetField` of the old one. Mentions, channel and message are unchanged. |
| Embeds.EmbedBuilder.UpdateNestedField | src/components/dashboard/EmbedBuilder.tsx:94-102 | The embed becomes `SetNested` of the old one. The rest is unchanged. |
| Embeds.NewField | src/components/dashboard/EmbedBuilder.tsx:105-110 | The field `addField` appends: the given id, empty name and value, not inline; `AddThenRemoveField` proves that removing it restores the list. |
| Embeds.EmbedBuilder.AddField | src/components/dashboard/EmbedBuilder.tsx:104-115 | One field with the given id, empty name and value and `inline = false` is appended. The invariant of distinct field ids is kept. |
| Embeds.EmbedBuilder.UpdateField | src/components/dashboard/EmbedBuilder.tsx:117-124 | The fields become `UpdateFields` of the old ones. The rest is unchanged. |
| Embeds.EmbedBuilder.RemoveField | src/components/dashboard/EmbedBuilder.tsx:126-131 | The fields become `RemoveFieldFrom` of the old ones. The rest is unchanged. |
| Embeds.EmbedBuilder.AddMention | src/components/dashboard/EmbedBuilder.tsx:133-137 | The mentions become `AddMentionTo` of the old ones, and stay duplicate-free. |
| Embeds.EmbedBuilder.RemoveMention | src/components/dashboard/EmbedBuilder.tsx:139-141 | Every occurrence of the mention is removed. |
| Embeds.EmbedBuilder.MentionButton | src/components/dashboard/EmbedBuilder.tsx:190-195 | The mentions become `ToggleMention` of the old ones. |
| Embeds.EmbedBuilder.SetMessageContent | src/components/dashboard/EmbedBuilder.tsx:173 | The message box stores the typed text. |
| Embeds.EmbedBuilder.SetSelectedChannel | src/components/dashboard/EmbedBuilder.tsx:519 | The channel select stores the chosen channel. |
| Moderation.CanAdd | src/components/dashboard/ModerationPanel.tsx:98 | `addRule`'s guard: name and pattern both present and non-empty. |
| Moderation.RuleFromDraft | src/components/dashboard/ModerationPanel.tsx:100-109 | The rule `addRule` builds; the two round-trip lemmas below relate it to the draft. |
| Moderation.ActiveCount | src/components/dashboard/ModerationPanel.tsx:197 | The Active Rules figure, `rules.filter(r => r.enabled).length`; `ActiveCountSpec` and the lemmas after it prove its bounds and how each handler moves it. |
| Moderation.ToggleRuleIn | src/components/dashboard/ModerationPanel.tsx:88-90 | The rules after `toggleRule`; `ToggleRuleSpec` and `ToggleRuleTwice` prove its effect. |
| Moderation.DeleteRuleFrom | src/components/dashboard/ModerationPanel.tsx:94 | The rules after `deleteRule`; `DeleteRuleSpec` and `DeleteRuleActiveCount` prove its effect. |
| Moderation.ToggleRuleSpec | src/components/dashboard/ModerationPanel.tsx:87-91 | `toggleRule` flips `enabled` on the rules with that id. Every other rule, the length and the order are unchanged. |
| Moderation.ToggleRuleTwice | src/components/dashboard/ModerationPanel.tsx:87-91 | Toggling the same rule twice restores the list. |
| Moderation.DeleteRuleSpec | src/components/dashboard/ModerationPanel.tsx:93-95 | `deleteRule` removes every rule with that id and keeps the rest in order. An absent id changes nothing. |
| Moderation.RuleFromDraftRoundTrip | src/components/dashboard/ModerationPanel.tsx:100-109 | The added rule carries the given id, and reading it back as a draft gives the form's draft, with an absent description read as `""`. |
| Moderation.DraftOfRoundTrip | src/components/dashboard/ModerationPanel.tsx:98-109 | Every rule with a non-empty name and pattern passes the guard as a draft and is rebuilt from that draft unchanged. |
| Moderation.ActiveCountSpec | src/components/dashboard/ModerationPanel.tsx:197 | The Active Rules figure equals the number of positions holding an enabled rule, and never exceeds the number of rules. |
| Moderation.ShiftedSize | src/components/dashboard/ModerationPanel.tsx:197 | Moving a set of positions up by one keeps its size. This is the counting step used in `ActiveCountSpec`. |
| Moderation.ActiveFilterMonotone | src/components/dashboard/ModerationPanel.tsx:197 | Filtering the rules never raises the number of enabled ones. |
| Moderation.DeleteRuleActiveCount | src/components/dashboard/ModerationPanel.tsx:93-95 | Deleting never raises the Active Rules figure. |
| Moderation.AddRuleActiveCount | src/components/dashboard/ModerationPanel.tsx:111 | Adding a rule raises the figure by one exactly when the rule is enabled. |
| Moderation.ModerationPanel.constructor | src/components/dashboard/ModerationPanel.tsx:35-85 | Starts with the four default rules, the empty draft and the form closed. |
| Moderation.ModerationPanel.ToggleRule | src/components/dashboard/ModerationPanel.tsx:87-91 | The rules become `ToggleRuleIn` of the old ones, and rule ids stay distinct. |
| Moderation.ModerationPanel.DeleteRule | src/components/dashboard/ModerationPanel.tsx:93-95 | The rules become `DeleteRuleFrom` of the old ones, and rule ids stay distinct. |
| Moderation.ModerationPanel.EditDraft | src/components/dashboard/ModerationPanel.tsx:236-312 | A form input replaces the draft and changes nothing else. |
| Moderation.ModerationPanel.AddRule | src/components/dashboard/ModerationPanel.tsx:97-121 | With an empty or missing name or pattern, nothing changes. Otherwise `RuleFromDraft` is appended, the draft is reset, and the form is closed; the new last rule has the given id and reads back as the draft, and the Active Rules figure rises by one exactly when the draft was enabled. |
| Moderation.ModerationPanel.ToggleAddForm | src/components/dashboard/ModerationPanel.tsx:151 | The header's Add Rule button flips `showAddRule`. |
| Moderation.ModerationPanel.Cancel | src/components/dashboard/ModerationPanel.tsx:322 | Cancel closes the form and keeps the draft. |
| Text.IsSpace | src/components/dashboard/UploadVideo.tsx:20 | The characters `trim` strips: the ECMAScript WhiteSpace and LineTerminator code points. |
| Text.LeadingSpaces | src/components/dashboard/UploadVideo.tsx:20 | The count of leading characters that `trim` strips: all white space, followed by a non-space or the end. |
| Text.KeptLength | src/components/dashboard/UploadVideo.tsx:20 | The length left once trailing white space is cut: the cut part is all white space, and the last kept character is not. |
| Text.Trim | src/components/dashboard/UploadVideo.tsx:20 | `String.prototype.trim`; `TrimSpec`, `TrimEmpty` and `TrimIdempotent` prove what it strips. |
| Text.TrimSpec | src/components/dashboard/UploadVideo.tsx:20 | `trim` returns a slice with white space alone on either side. A non-empty result neither starts nor ends with white space. |
| Text.TrimEmpty | src/components/dashboard/VideoBundler.tsx:97 | `trim` returns `""` exactly for strings made only of white space. |
| Text.TrimIdempotent | src/components/dashboard/UploadVideo.tsx:20 | Trimming a trimmed string changes nothing. |
| Text.NatToString | src/components/dashboard/VideoBundler.tsx:74 | `toString` of a non-negative integer is a non-empty run of digits. |
| Text.NatToStringValue | src/components/dashboard/VideoBundler.tsx:74 | The digits denote the number and have no leading zero unless the number is 0. It is one digit exactly below 10. |
| Text.PadStart | src/components/dashboard/VideoBundler.tsx:74 | `padStart` ends with the original string, reaches the requested width, and fills the front with the pad character. |
| Upload.CleanTag | src/components/dashboard/UploadVideo.tsx:21 | A tag as `addTag` stores it: non-empty and trimmed; the invariant `AddTagSpec` and `RemoveTagSpec` keep. |
| Upload.TagAccepted | src/components/dashboard/UploadVideo.tsx:20 | `addTag`'s guard: the trimmed input is non-empty and not yet a tag. |
| Upload.AddTagTo | src/components/dashboard/UploadVideo.tsx:19-24 | The tags after `addTag`; `AddTagSpec` and the lemmas after it prove its effect. |
| Upload.RemoveTagFrom | src/components/dashboard/UploadVideo.tsx:26-28 | The tags after `removeTag`; `RemoveTagSpec` and `AddThenRemoveTag` prove its effect. |
| Upload.DragActiveAfter | src/components/dashboard/UploadVideo.tsx:30-38 | The highlight after one drag event; the lemmas below prove what a run of events leads to. |
| Upload.AddTagSpec | src/components/dashboard/UploadVideo.tsx:19-24 | `addTag` appends the trimmed input exactly when it is non-empty and new, and changes nothing otherwise. The tags stay distinct, non-empty and trimmed. |
| Upload.AddTagTwice | src/components/dashboard/UploadVideo.tsx:19-24 | Pressing Add twice on the same input adds the tag once. |
| Upload.AddTagIgnoresPadding | src/components/dashboard/UploadVideo.tsx:20-21 | An input and its trimmed form add the same tag. |
| Upload.BlankTagRejected | src/components/dashboard/UploadVideo.tsx:20 | An input of white space alone adds nothing. |
| Upload.AddThenRemoveTag | src/components/dashboard/UploadVideo.tsx:19-28 | Removing a tag that was just added restores the list. |
| Upload.RemoveTagSpec | src/components/dashboard/UploadVideo.tsx:26-28 | `removeTag` drops that tag and keeps every other one, and the list's invariant holds. |
| Upload.DragAfterAllAppend | src/components/dashboard/UploadVideo.tsx:30-38 | Handling one more event continues from the highlight reached so far. |
| Upload.DragAfterAllSplit | src/components/dashboard/UploadVideo.tsx:30-38 | Handling two runs of events is handling the first and then the second from where it left off. |
| Upload.DragActiveIdempotent | src/components/dashboard/UploadVideo.tsx:30-38 | A repeated event, such as the stream of `dragover`s, changes nothing more. |
| Upload.DragIgnoresOthers | src/components/dashboard/UploadVideo.tsx:33-37 | Events other than enter, over and leave leave the highlight as it was. |
| Upload.DragDecidedByLast | src/components/dashboard/UploadVideo.tsx:33-37 | After any run of events the zone is highlighted exactly when the last enter, over or leave among them was an enter or an over. |
| Upload.UploadVideo.constructor | src/components/dashboard/UploadVideo.tsx:14-17 | Starts with no tags, an empty box, no schedule and no highlight. |
| Upload.UploadVideo.SetNewTag | src/components/dashboard/UploadVideo.tsx:149 | Typing stores the text in the box. |
| Upload.UploadVideo.AddTag | src/components/dashboard/UploadVideo.tsx:19-24 | The tags become `AddTagTo` of the old ones. The box is cleared only when a tag was added. The tags stay distinct, non-empty and trimmed. |
| Upload.UploadVideo.RemoveTag | src/components/dashboard/UploadVideo.tsx:26-28 | The tags become `RemoveTagFrom` of the old ones, and the invariant is kept. |
| Upload.UploadVideo.SetSchedulePost | src/components/dashboard/UploadVideo.tsx:178-181 | The switch stores its state. |
| Upload.UploadVideo.HandleDrag | src/components/dashboard/UploadVideo.tsx:30-38 | The highlight becomes `DragActiveAfter(old highlight, event type)`, and nothing else changes. The invariant is kept that the highlight is the one the drag events since the last drop lead to. |
| Upload.UploadVideo.HandleDrop | src/components/dashboard/UploadVideo.tsx:40-45 | A drop always turns the highlight off and starts a new run of drag events. |
| ChannelAssign.FindChannel | src/components/dashboard/ChannelAssignment.tsx:54 | `find` returns the first channel with that id, or nothing exactly when no channel has it. |
| ChannelAssign.GetChannelName | src/components/dashboard/ChannelAssignment.tsx:53-55 | `getChannelName`; `GetChannelNameSpec` proves which name is shown. |
| ChannelAssign.GetChannelNameSpec | src/components/dashboard/ChannelAssignment.tsx:53-55 | A known channel id shows that channel's name, and an unknown id shows itself. |
| ChannelAssign.ChannelIdsDistinct | src/components/dashboard/ChannelAssignment.tsx:24-29 | No two sidebar channels share an id, so the channel `find` returns is the only one with its id. |
| ChannelAssign.KnownChannelName | src/components/dashboard/ChannelAssignment.tsx:24-55 | `vip` is shown as `#vip-content`. |
| ChannelAssign.UnknownChannelName | src/components/dashboard/ChannelAssignment.tsx:53-55 | An id missing from the sidebar is shown as it is. |
| ChannelAssign.AssignChannel | src/components/dashboard/ChannelAssignment.tsx:37-41 | The videos after `assignChannelToVideos`; `AssignChannelSpec`, `AssignNothing` and `AssignChannelTwice` prove its effect. |
| ChannelAssign.AssignChannelSpec | src/components/dashboard/ChannelAssignment.tsx:36-43 | Assignment sets `channel` to the chosen one on exactly the selected videos. It keeps the length, the order, and every video's id, name, size and duration. |
| ChannelAssign.AssignNothing | src/components/dashboard/ChannelAssignment.tsx:36-41 | With nothing selected, assignment changes nothing. |
| ChannelAssign.AssignChannelTwice | src/components/dashboard/ChannelAssignment.tsx:36-41 | Assigning the same selection to the same channel again changes nothing. |
| ChannelAssign.ToggleSelection | src/components/dashboard/ChannelAssignment.tsx:46-50 | The selection after `toggleVideoSelection`; `ToggleSelectionSpec` and `ToggleSelectionTwice` prove its effect. |
| ChannelAssign.ToggleSelectionSpec | src/components/dashboard/ChannelAssignment.tsx:45-51 | Toggling an id flips its membership, leaves every other id alone, and keeps the selection duplicate-free. |
| ChannelAssign.ToggleSelectionTwice | src/components/dashboard/ChannelAssignment.tsx:45-51 | Checking and then unchecking a video restores the selection. |
| ChannelAssign.ChannelAssignment.constructor | src/components/dashboard/ChannelAssignment.tsx:32-34 | Starts with the mock videos, the `general` channel and an empty selection. |
| ChannelAssign.ChannelAssignment.ToggleVideoSelection | src/components/dashboard/ChannelAssignment.tsx:45-51 | The selection becomes `ToggleSelection` of the old one, and stays duplicate-free. |
| ChannelAssign.ChannelAssignment.AssignChannelToVideos | src/components/dashboard/ChannelAssignment.tsx:36-43 | The videos become `AssignChannel` of the old ones, and the selection is emptied. The videos remain the uploads except for their channels. |
| ChannelAssign.ChannelAssignment.SelectChannel | src/components/dashboard/ChannelAssignment.tsx:81 | A sidebar click stores the chosen channel. |
| Settings.ToggleChannelIn | src/components/dashboard/DashboardSettings.tsx:23-29 | The channels after `toggleChannel`; the four lemmas below prove its effect. |
| Settings.ToggleChannelSpec | src/components/dashboard/DashboardSettings.tsx:23-29 | `toggleChannel` flips `enabled` on exactly the channels with that id. Length, order, ids, names and descriptions are kept. |
| Settings.ToggleChannelTwice | src/components/dashboard/DashboardSettings.tsx:23-29 | Toggling the same id twice restores the list. |
| Settings.ToggleUnknownChannel | src/components/dashboard/DashboardSettings.tsx:24-28 | An id no channel has leaves the list unchanged. |
| Settings.ToggleChannelsCommute | src/components/dashboard/DashboardSettings.tsx:23-29 | Two switches give the same list in either order. |
| Settings.DashboardSettings.constructor | src/components/dashboard/DashboardSettings.tsx:11-21 | Starts with the five mock channels and the bot connected. |
| Settings.DashboardSettings.ToggleChannel | src/components/dashboard/DashboardSettings.tsx:23-29 | The channels become `ToggleChannelIn` of the old ones, and channel ids stay distinct. |

## Left out

- Rendering, class names, styling, icons and the colour and icon mappers (`getTierIcon`, `getTierColor`, `getActionColor`, `getTypeIcon`): presentation with no state.
- `formatFileSize` (`VideoBundler.tsx:63-69`) and the size progress bar: floating point (`Math.log`, `Math.pow`, `toFixed`, division).
- `Date.now()`: the clock. The id comes in as a parameter, under a precondition that it is new.
- `copyToClipboard` and the preview's locale timestamp: the browser clipboard, `JSON.stringify` and date formatting.
- `preventDefault`/`stopPropagation` in the drag handlers: DOM plumbing. The dropped files are not read by the code either.
- `Stats.tsx`, `ScheduledPosts.tsx`, `Announcements.tsx`, `Index.tsx` and `DreamzLogo.tsx` are not part of this model. They show static data or hold tab state.
- UI library components (Select, Tabs, Sidebar, Checkbox, Switch): their code is not shown. Their events become method calls with the value they deliver.
- JavaScript numbers: sizes, seconds and durations are unbounded naturals, and the settings page's channel ids are integers (rule, bundle, field and video ids are strings). Sizes in the mock data are far below 2^53, so the sums there are exact.
- Moderation.ModerationPanel.EditDraft: `parseInt` in the duration box can produce `NaN`, which is not modelled. A duration is a whole number or absent.
- Embeds.EmbedBuilder.UpdateEmbedData: the source takes `value: any`. The model requires a value of the key's declared kind (a string, or a boolean for `timestamp`), because writing a value of another kind breaks the record's type.
- Embeds.EmbedBuilder.UpdateField: the same restriction for `property: string, value: any`. Only `name`, `value` and `inline`, each with a value of its kind, are modelled.
- Embeds.EmbedBuilder.UpdateNestedField: only the author and footer sub-fields are modelled: the four the form writes (`EmbedBuilder.tsx:289`, `295`, `307`, `313`), plus `author.url`, which the record declares and the form never writes. A call with another parent or field name, which would add a property to the record, is not.
- VideoBundling.VideoBundler.NextStep: the `bundle` step of the step type is never entered by the code. The class invariant excludes it, and the UI's disabled button becomes a no-op.
- VideoBundling.VideoBundler.TierChecked: the checkbox handlers close over the bundle shown in the row. The model takes the row's index and the bundle stored there.
- The bundler's per-tier channel catalogue (`mockChannels`) is only displayed. Channel ids are free strings in the model.
- Upload.UploadVideo.HandleDrag: the event is reduced to its `type` string.
- Text.NatToString: only the non-negative integers `formatDuration` formats are covered. Negative, fractional and non-finite numbers are not, nor the exponential form JavaScript uses from 10^21 up.
