# resume-ai rules, modelled in Dafny

This project models the small pure rules inside resume-ai, a web application
for writing resumes with an AI assistant. Each component is one module:

- `ProfileCard` covers the profile card: its completion percentage, the list of
  missing sections and the status badge.
- `LoginForm` covers the login form's email and password validators and its
  submit gate.
- `ApiKeys` covers the settings page's API-key registry and the choice of
  default model.
- `Chatbot` covers the assistant's resume edits: the `getResume` projection,
  accepting per-item suggestions, and the whole-resume update with its undo.
  `ChatErrors` covers the error banner under the chat.
- `BasicInfo` covers the "Fill from Profile" button.
- `ProjectsEditor` covers the project editor. `UserProfiles` covers the
  profile page's project list and the "Reset Profile" dialog.
- `DocumentSettingsForm` covers the document settings form: clamped number
  inputs, defaults, lazy initialisation and restoring defaults.
- `TextImport` covers the "Import Resume Content" dialog.
- `LinkEditor` covers the link box of the rich-text editor.

`ResumeTypes` holds the records of `src/lib/types.ts`. An optional key that is
absent from the object is `None`, and a nullable column that holds null is
`None` too. `Wrappers`, `Strings` and `Lists` hold `Option`/`Result` and the
JavaScript string and array operations the components use:

- `trim` and its whitespace set;
- `includes`, `startsWith` and `toLowerCase`;
- `join` and `split`;
- `filter` by index, `splice(i, 1)`, and replacing an element by `map`.

Everything is a pure function over immutable values. A React state update is
a function from the old state to the new one. The contracts say both what
changes and that nothing else does.

## Model

| member | source | states |
|---|---|---|
| ProfileCard.Completion | src/components/profile/profile-card.tsx:19-33 | the completion is at most 100; it is 100 exactly when all eight checks pass, and at least 90 only then |
| ProfileCard.CompletionTable | src/components/profile/profile-card.tsx:31-32 | with k checks passing the completion is round-half-up(100·k/8), the table 0, 13, 25, 38, 50, 63, 75, 88, 100 |
| ProfileCard.RoundHalfUp | src/components/profile/profile-card.tsx:32 | `Math.round(num/den)` is the integer within half a unit of the quotient, halves going up |
| ProfileCard.PercentOfEight | src/components/profile/profile-card.tsx:32 | the nine possible percentages of eight checks |
| ProfileCard.ChecksAreSectionTests | src/components/profile/profile-card.tsx:20-29 | the eight completion checks are, in order, the per-section "filled" tests |
| ProfileCard.MissingFollowsSectionOrder | src/components/profile/profile-card.tsx:35-48 | the missing list is the unfilled section names in the fixed order Basic Info … Projects |
| ProfileCard.MissingSections | src/components/profile/profile-card.tsx:34-47 | at most eight names, and none exactly when every section is filled |
| ProfileCard.MissingCountsFailedChecks | src/components/profile/profile-card.tsx:20-45 | the number of missing sections is 8 minus the number of passing checks |
| ProfileCard.CountIsFilledBefore | src/components/profile/profile-card.tsx:31 | counting true checks over a prefix counts the filled sections in it |
| ProfileCard.UnfilledLength | src/components/profile/profile-card.tsx:38-45 | a prefix of the missing list is as long as the sections in it minus the filled ones |
| ProfileCard.MissingHasNoDuplicates | src/components/profile/profile-card.tsx:38-45 | no section name is listed twice, and a name is listed exactly when its section is unfilled |
| ProfileCard.UnfilledMembersDistinct | src/components/profile/profile-card.tsx:38-45 | membership and distinctness of every prefix of the missing list |
| ProfileCard.SectionNamesDistinct | src/components/profile/profile-card.tsx:38-45 | the eight labels pushed are pairwise different |
| ProfileCard.NothingMissingIffFull | src/components/profile/profile-card.tsx:19-48 | the missing list is empty exactly when the completion is 100 |
| ProfileCard.BasicInfoMissing | src/components/profile/profile-card.tsx:21-38 | "Basic Info" is missing exactly when either name is null or empty |
| ProfileCard.ProfileStatus | src/components/profile/profile-card.tsx:50-89 | the badge is Complete from 90, Almost Complete from 70, In Progress from 40 and Just Started below, each as an iff |
| ProfileCard.StatusLabel | src/components/profile/profile-card.tsx:56-89 | each of the four labels belongs to exactly one badge |
| ProfileCard.CompleteIffNothingMissing | src/components/profile/profile-card.tsx:19-89 | the badge reads Complete exactly when no section is missing |
| LoginForm.ValidateEmail | src/components/auth/login-form.tsx:29-32 | the result is "" exactly for local@domain with a dotted domain, otherwise the fixed message |
| LoginForm.EmailShapeMatchesPattern | src/components/auth/login-form.tsx:30 | the shape test accepts exactly the strings `^[^\s@]+@[^\s@]+\.[^\s@]+$` matches |
| LoginForm.ShapeGivesPattern | src/components/auth/login-form.tsx:30 | every accepted shape matches the pattern |
| LoginForm.PatternGivesShape | src/components/auth/login-form.tsx:30 | every string matching the pattern has the accepted shape |
| LoginForm.AcceptedEmailShape | src/components/auth/login-form.tsx:30-31 | an accepted email has exactly one '@', no whitespace and at least five characters |
| LoginForm.IndexOf | src/components/auth/login-form.tsx:30 | the first position of a character, or -1 when it does not occur |
| LoginForm.ValidatePassword | src/components/auth/login-form.tsx:34-36 | the result is "" exactly when the password is at least 8 UTF-16 code units long, as `length` counts, otherwise the fixed message |
| LoginForm.PasswordCountsCodeUnits | src/components/auth/login-form.tsx:35 | four characters outside the Basic Multilingual Plane pass the length test, four letters do not |
| LoginForm.Submit | src/components/auth/login-form.tsx:38-54 | once the submit event reaches it, `handleSubmit` records both errors and calls login exactly when both validators pass; the server error is then cleared, and the loading flag ends down when login resolves and stays up when it rejects |
| LoginForm.RejectedLoginStaysLoading | src/components/auth/login-form.tsx:48-54 | a rejected login leaves the form loading; a resolved one differs from it only in the flag |
| LoginForm.EditEmail | src/components/auth/login-form.tsx:78-81 | typing stores the email and clears its error; nothing else changes |
| LoginForm.EditPassword | src/components/auth/login-form.tsx:100-103 | typing stores the password and clears its error; nothing else changes |
| LoginForm.BlurEmail | src/components/auth/login-form.tsx:82 | leaving the field sets only its error, empty exactly for an accepted email |
| LoginForm.BlurPassword | src/components/auth/login-form.tsx:104 | leaving the field sets only its error, empty exactly for a password of at least 8 UTF-16 code units |
| ApiKeys.FindModel | src/components/settings/api-keys-form.tsx:131 | a model is found exactly when the table lists its id |
| ApiKeys.FindIndex | src/components/settings/api-keys-form.tsx:106 | the first index of an entry for the service, or -1 exactly when there is none |
| ApiKeys.ExistingKey | src/components/settings/api-keys-form.tsx:140-141 | a stored entry for the service is returned exactly when one exists |
| ApiKeys.Upsert | src/components/settings/api-keys-form.tsx:105-113 | an existing service's first entry is replaced in place with the length kept; otherwise the key is appended |
| ApiKeys.UpsertKeepsOneKeyPerService | src/components/settings/api-keys-form.tsx:105-113 | upsert keeps at most one entry per service, and that entry is the new key |
| ApiKeys.UpsertThenLookup | src/components/settings/api-keys-form.tsx:140-141 | after an upsert the lookup returns the new key |
| ApiKeys.UpsertKeepsServices | src/components/settings/api-keys-form.tsx:105-113 | every service with a key before an upsert has one after |
| ApiKeys.UpdateKey | src/components/settings/api-keys-form.tsx:92-120 | a blank draft changes nothing; otherwise the trimmed key is upserted and the draft cleared |
| ApiKeys.UpdateKeyStoresTrimmed | src/components/settings/api-keys-form.tsx:99-103 | after a save the stored key is the trimmed draft |
| ApiKeys.RemoveKey | src/components/settings/api-keys-form.tsx:122-138 | the keys become the order-keeping filter of the service's entries, so every entry of the service goes and the others stay; only its visibility flag is dropped, the other flags keep their values; the drafts stay; the default falls back to gpt-4o-mini exactly when it is another known model of that provider |
| ApiKeys.RemoveKeyKeepsOrder | src/components/settings/api-keys-form.tsx:123 | the surviving keys keep their order: cutting the list anywhere, the result is the filtered front followed by the filtered back |
| ApiKeys.Without | src/components/settings/api-keys-form.tsx:123 | the filter keeps exactly the entries of other services |
| ApiKeys.WithoutKeepsOrder | src/components/settings/api-keys-form.tsx:123 | the filter keeps the surviving entries in their order |
| ApiKeys.WithoutOtherServiceIsIdentity | src/components/settings/api-keys-form.tsx:123 | removing a service that has no entry leaves the list as it was |
| ApiKeys.WithoutKeepsOneKeyPerService | src/components/settings/api-keys-form.tsx:123 | remove keeps at most one entry per service |
| ApiKeys.SelectableCases | src/components/settings/api-keys-form.tsx:160-165 | gpt-4o-mini is always selectable, another listed model exactly when its provider has a key, an unknown id never |
| ApiKeys.IsModelSelectable | src/components/settings/api-keys-form.tsx:160-165 | only a model listed in the table can be selected |
| ApiKeys.ChangeModel | src/components/settings/api-keys-form.tsx:143-158 | the default is set exactly when the model is selectable, otherwise nothing changes |
| ApiKeys.UpdateKeyKeepsValid | src/components/settings/api-keys-form.tsx:92-120 | saving a key keeps one key per service and a selectable default |
| ApiKeys.RemoveKeyKeepsValid | src/components/settings/api-keys-form.tsx:122-138 | removing a key keeps one key per service and a selectable default |
| ApiKeys.ChangeModelKeepsValid | src/components/settings/api-keys-form.tsx:143-158 | changing the model keeps one key per service and a selectable default |
| Chatbot.PersonalInfoOf | src/components/resume/assistant/chatbot.tsx:91-100 | `personal_info` holds exactly the eight contact fields with the resume's values |
| Chatbot.GetResume | src/components/resume/assistant/chatbot.tsx:102-116 | 'all' yields the six sections, each with its value, plus target_role; otherwise exactly the requested keys, each with its section's value, which is undefined for a name that is not a section |
| Chatbot.TargetRoleOnlyWithAll | src/components/resume/assistant/chatbot.tsx:113-116 | asked for by name without 'all', target_role reads undefined |
| Chatbot.SectionOf | src/components/resume/assistant/chatbot.tsx:102-109 | a name reads undefined exactly when it is not one of the six section keys |
| Chatbot.SectionValues | src/components/resume/assistant/chatbot.tsx:91-109 | each known section name reads its own field, and any other name reads undefined |
| Chatbot.ToolConfigOf | src/components/resume/assistant/chatbot.tsx:364-393 | the five known tool names have a configuration and no other name does; only modifyWholeResume is the whole-resume tool |
| Chatbot.ToolTargets | src/components/resume/assistant/chatbot.tsx:364-384 | each suggest tool targets its own list field |
| Chatbot.AcceptSuggestion | src/components/resume/assistant/chatbot.tsx:429-432 | the target list keeps its length and gets the suggestion at the index, every other element and field unchanged |
| Chatbot.AcceptOutOfRange | src/components/resume/assistant/chatbot.tsx:429-432 | an index outside the list leaves the resume unchanged |
| Chatbot.Decide | src/components/resume/assistant/chatbot.tsx:429-434 | reject changes nothing; accept changes only the target list |
| Chatbot.ApplyUpdate | src/components/resume/assistant/chatbot.tsx:160-179 | only the sent basic_info keys and the sent lists are written; certifications, metadata and every other field are untouched |
| Chatbot.ModifyWholeResume | src/components/resume/assistant/chatbot.tsx:138-179 | the pre-update resume is held as the snapshot and the update is applied |
| Chatbot.EnsureSnapshot | src/components/resume/assistant/chatbot.tsx:396-399 | with no snapshot held, the current resume becomes the snapshot; with one held, nothing changes; the resume is untouched |
| Chatbot.SnapshotThenRejectRestores | src/components/resume/assistant/chatbot.tsx:396-399 | rejecting a card right after it took its snapshot leaves the resume as it was and clears the snapshot |
| Chatbot.Restore | src/components/resume/assistant/chatbot.tsx:185-192 | the intended restore, not the one written: every field of the snapshot but id, created_at and updated_at comes back, absent keys included, and those three keep the current values |
| Chatbot.RestoreAsWritten | src/components/resume/assistant/chatbot.tsx:186-192 | the restore as written: the required fields come back from the snapshot; an optional key comes back only when the snapshot carries it, and otherwise keeps the current value; id, created_at and updated_at keep the current values; the card rendered for the tool invocation repeats this loop at lines 405-411 |
| Chatbot.RejectWholeResume | src/components/resume/assistant/chatbot.tsx:184-196 | the intended reject: without a snapshot nothing happens; with one, its content comes back through the intended restore and the snapshot is cleared; the rendered card repeats this handler at lines 404-416 |
| Chatbot.ModifyThenRejectRestores | src/components/resume/assistant/chatbot.tsx:157-196 | snapshot, update and reject give back the original resume with no snapshot held |
| Chatbot.RestoreAsWrittenKeepsNewContact | src/components/resume/assistant/chatbot.tsx:186-192 | the restore as written leaves in place a contact value the update set on a field the snapshot lacked |
| Chatbot.RestoreAsWrittenCounterexample | src/components/resume/assistant/chatbot.tsx:186-192 | a concrete resume without a website whose undo keeps the assistant's website |
| Chatbot.RestoreAgreesWhenKeysPresent | src/components/resume/assistant/chatbot.tsx:186-192 | when the snapshot carries every optional key, the restore as written and the intended restore agree |
| ChatErrors.ErrorMessage | src/components/resume/assistant/chatbot.tsx:472-483 | a string error is shown verbatim; an error object always gets one of the four fixed messages |
| ChatErrors.MessageIdentifiesCause | src/components/resume/assistant/chatbot.tsx:474-483 | each fixed message is shown exactly when its cause is the first that matches: missing OpenAI key, rejected Anthropic key, rejected OpenAI key, none |
| ChatErrors.MentionOfApiKeyShowsSettings | src/components/resume/assistant/chatbot.tsx:485-486 | an error text mentioning "API key" in any letter case offers the settings page |
| ChatErrors.ShowsSettingsButton | src/components/resume/assistant/chatbot.tsx:485-486 | the button needs an error text of at least seven characters, and any mention of "authentication" in the lower-cased text shows it |
| ChatErrors.MissingKeyTextShowsSettings | src/components/resume/assistant/chatbot.tsx:472-486 | a string error with the missing-key text is shown verbatim and offers the settings page |
| ChatErrors.AuthenticationMessageShowsSettings | src/components/resume/assistant/chatbot.tsx:485-486 | an Error whose message mentions authentication offers the settings page |
| ChatErrors.ContainsLower | src/components/resume/assistant/chatbot.tsx:485-486 | lower-casing keeps an occurrence of a substring |
| BasicInfo.FillFromProfile | src/components/resume/basic-info-form.tsx:16-37 | without a profile nothing changes; only the eight contact fields can change, each taking the profile's value exactly when it is a non-empty string |
| BasicInfo.CopyTruthy | src/components/resume/basic-info-form.tsx:32-36 | copying over a list of fields changes exactly the listed fields with a truthy profile value |
| BasicInfo.FillIdempotent | src/components/resume/basic-info-form.tsx:32-36 | filling twice is filling once |
| BasicInfo.FillKeepsOwnValues | src/components/resume/basic-info-form.tsx:32-36 | a null or empty profile value keeps the resume's value |
| BasicInfo.FillOutcome | src/components/resume/basic-info-form.tsx:32-36 | every field the profile fills ends non-empty, and a profile with nothing usable changes nothing |
| ProjectsEditor.ApplyEdit | src/components/editor/projects.tsx:15 | the named field takes the new value and every other field keeps its own |
| ProjectsEditor.ChangeProject | src/components/editor/projects.tsx:9-17 | only the project at the index is edited; the others stay |
| ProjectsEditor.AddAccomplishment | src/components/editor/projects.tsx:19-23 | "" is appended to that project's accomplishments only |
| ProjectsEditor.RemoveAccomplishment | src/components/editor/projects.tsx:25-29 | splice(accIndex, 1) on that project's accomplishments only |
| ProjectsEditor.RemoveRenderedAccomplishment | src/components/editor/projects.tsx:25-29 | for a rendered index exactly that accomplishment is removed |
| ProjectsEditor.EditAccomplishment | src/components/editor/projects.tsx:114-117 | the typed text replaces one accomplishment; the others and the other projects stay |
| ProjectsEditor.AddProject | src/components/editor/projects.tsx:31-39 | one empty project is appended and the existing ones stay |
| ProjectsEditor.RemoveProject | src/components/editor/projects.tsx:41-44 | exactly the project at the index goes, order kept; an index outside the list changes nothing |
| ProjectsEditor.AddThenRemoveProject | src/components/editor/projects.tsx:31-44 | adding then removing the new project restores the list |
| ProjectsEditor.AddThenRemoveAccomplishment | src/components/editor/projects.tsx:19-29 | adding then removing the new accomplishment, by index or by -1, restores the list |
| ProjectsEditor.TypeTechnologies | src/components/editor/projects.tsx:90 | the typed text is split on ", " into the project's technologies, nothing else changes |
| ProjectsEditor.TechnologiesText | src/components/editor/projects.tsx:89 | the box is empty exactly for no entries or one empty entry; one entry is shown as itself; two or more show at least one separator |
| ProjectsEditor.TypedTextIsShown | src/components/editor/projects.tsx:89-90 | what is typed into the technologies box is what it shows next |
| ProjectsEditor.ShownListIsKept | src/components/editor/projects.tsx:89-90 | a non-empty list without ", " inside its entries survives the join and split |
| ProjectsEditor.EmptyListComesBackAsOneEntry | src/components/editor/projects.tsx:89-90 | an empty list comes back as [""] |
| ProjectsEditor.UrlText | src/components/editor/projects.tsx:101 | the URL box shows the URL, or "" without one |
| Strings.JoinSplit | src/components/editor/projects.tsx:89-90 | joining the split of a text gives the text back |
| Strings.SplitJoin | src/components/editor/projects.tsx:89-90 | splitting the join of a non-empty list without separators inside gives the list back |
| Strings.TrimEmptyIffBlank | src/components/resume/management/dialogs/text-import-dialog.tsx:88 | a trimmed text is empty exactly when the text is all whitespace |
| Strings.Utf16Length | src/components/auth/login-form.tsx:35 | `length` counts between one and two code units per character, and exactly one each when every character lies in the Basic Multilingual Plane |
| Strings.Utf16LengthAppend | src/components/auth/login-form.tsx:35 | the code-unit length of a concatenation is the sum of the parts' lengths |
| Lists.SpliceOneRemoves | src/components/editor/projects.tsx:27 | splice(start, 1) removes the element at start, counts a negative start from the end, clamps it to the first element, and removes nothing past the end |
| UserProfiles.ChangeProject | src/components/profile/profile-projects.tsx:10-14 | only the entry at the index is replaced, the length is kept, other fields stay |
| UserProfiles.AddProject | src/components/profile/profile-projects.tsx:16-18 | "" is appended, other fields stay |
| UserProfiles.RemoveProject | src/components/profile/profile-projects.tsx:20-23 | exactly the entry at the index goes, order kept, other fields stay |
| UserProfiles.ProjectEditsUndo | src/components/profile/profile-projects.tsx:10-23 | add then remove, and edit then edit back, restore the profile |
| UserProfiles.Clear | src/components/profile/reset-profile.tsx:24-37 | the ten listed fields become '' or [], while id and the unlisted fields keep their values |
| UserProfiles.ClearIdempotent | src/components/profile/reset-profile.tsx:24-37 | clearing a cleared profile changes nothing more |
| UserProfiles.ClearedProfilesAgree | src/components/profile/reset-profile.tsx:24-37 | two profiles with the same id and the same unlisted fields clear to the same profile |
| UserProfiles.ClearFixesCleared | src/components/profile/reset-profile.tsx:24-37 | a profile whose ten listed fields are already empty is left as it is |
| UserProfiles.Step | src/components/profile/reset-profile.tsx:22-55 | confirming clears the profile and closes the dialog; cancel only closes it; opening only opens it |
| UserProfiles.OnlyConfirmClears | src/components/profile/reset-profile.tsx:38-55 | only the confirm button touches the profile |
| DocumentSettingsForm.Increment | src/components/resume/editor/forms/document-settings-form.tsx:25-28 | the up arrow never exceeds max, and gives value+step whenever that fits |
| DocumentSettingsForm.Decrement | src/components/resume/editor/forms/document-settings-form.tsx:30-33 | the down arrow never goes below min, and gives value−step whenever that fits |
| DocumentSettingsForm.ArrowsStayInRange | src/components/resume/editor/forms/document-settings-form.tsx:25-33 | from inside the range both arrows stay inside it and move by at most one step |
| DocumentSettingsForm.ArrowsUndoEachOther | src/components/resume/editor/forms/document-settings-form.tsx:25-33 | away from the bounds each arrow undoes the other |
| DocumentSettingsForm.ArrowsKeepGrid | src/components/resume/editor/forms/document-settings-form.tsx:25-33 | from a value on the step grid an arrow lands on the grid or on a bound |
| DocumentSettingsForm.Shown | src/components/resume/editor/forms/document-settings-form.tsx:132 | a control shows the stored value, or its fallback when the field is missing |
| DocumentSettingsForm.SetNumber | src/components/resume/editor/forms/document-settings-form.tsx:113-141 | one field takes the new value and every other field, the footer switch included, keeps its own |
| DocumentSettingsForm.PressUp | src/components/resume/editor/forms/document-settings-form.tsx:131-141 | the arrow changes only its own field, to the clamped increment of what it showed |
| DocumentSettingsForm.PressDown | src/components/resume/editor/forms/document-settings-form.tsx:131-141 | the arrow changes only its own field, to the clamped decrement of what it showed |
| DocumentSettingsForm.SetFooter | src/components/resume/editor/forms/document-settings-form.tsx:296-303 | the switch sets only the footer flag |
| DocumentSettingsForm.VisibleFields | src/components/resume/editor/forms/document-settings-form.tsx:310-348 | every section input is shown, and the footer width exactly while the footer is on |
| DocumentSettingsForm.RestoreDefaults | src/components/resume/editor/forms/document-settings-form.tsx:121-123 | the default table replaces the whole object, so the footer goes off and its width control disappears |
| DocumentSettingsForm.Render | src/components/resume/editor/forms/document-settings-form.tsx:102-106 | missing settings are initialised to the defaults and nothing is rendered |
| DocumentSettingsForm.DefaultsOnGrid | src/components/resume/editor/forms/document-settings-form.tsx:66-256 | the defaults hold every field but the footer width, each inside its control's range and on its step grid |
| DocumentSettingsForm.FallbacksMatchDefaults | src/components/resume/editor/forms/document-settings-form.tsx:81-231 | each fallback equals the table default except for skills item spacing (4 against 2) |
| TextImport.AppendText | src/components/resume/management/dialogs/text-import-dialog.tsx:52 | the result is the text alone after empty content, otherwise the content, a blank line, the text; it starts with the content and ends with the text |
| TextImport.AppendTwice | src/components/resume/management/dialogs/text-import-dialog.tsx:52-75 | two appends keep both texts in order, separated by a blank line |
| TextImport.FirstPdf | src/components/resume/management/dialogs/text-import-dialog.tsx:47 | the first PDF among the files, or none exactly when there is none |
| TextImport.Drag | src/components/resume/management/dialogs/text-import-dialog.tsx:31-39 | enter and over light the drop zone, leave dims it, other events change nothing |
| TextImport.Drop | src/components/resume/management/dialogs/text-import-dialog.tsx:41-68 | with no PDF the content stays and the invalid-file toast shows; the extracted text is appended; a failed extraction keeps the content |
| TextImport.FileInput | src/components/resume/management/dialogs/text-import-dialog.tsx:70-85 | a missing or non-PDF file is ignored; otherwise it behaves like a drop |
| TextImport.DropAgreesWithFileInput | src/components/resume/management/dialogs/text-import-dialog.tsx:41-85 | dropping a PDF and choosing it give the same content and toast |
| TextImport.Import | src/components/resume/management/dialogs/text-import-dialog.tsx:87-122 | blank content calls no AI and changes nothing; success writes the returned keys, clears the content and closes; failure keeps everything |
| TextImport.ImportAdoptsCompleteResult | src/components/resume/management/dialogs/text-import-dialog.tsx:99-104 | a returned resume with every key replaces the resume outright |
| TextImport.ImportKeepsOmittedContacts | src/components/resume/management/dialogs/text-import-dialog.tsx:102-104 | a contact key the returned object lacks keeps the resume's value |
| LinkEditor.NormalizeLink | my-resume-builder/src/components/Editor.tsx:48-53 | empty stays empty, a URL with an http or https scheme is unchanged, anything else gets "https://" in front |
| LinkEditor.NormalizedHasScheme | my-resume-builder/src/components/Editor.tsx:51-52 | every non-empty result starts with a scheme and ends with the typed text |
| LinkEditor.NormalizeIdempotent | my-resume-builder/src/components/Editor.tsx:51-52 | normalising twice is normalising once |
| LinkEditor.UpperCaseSchemeIsPrefixed | my-resume-builder/src/components/Editor.tsx:51 | the scheme test is case-sensitive: "HTTPS://a.io" becomes "https://HTTPS://a.io" |
| ResumeTypes.WithContact | src/components/resume/basic-info-form.tsx:33 | writing one contact field sets it and leaves every other field as it was |
| ResumeTypes.WritePresentKeysCopies | src/components/resume/management/dialogs/text-import-dialog.tsx:102-104 | writing every key of a source that carries all optional keys yields that source |
| ResumeTypes.WritePresentKeysKeepsMetadata | src/components/resume/assistant/chatbot.tsx:189-193 | skipping `id`, `created_at` and `updated_at`, the same write yields the source with the target's metadata |
| ResumeTypes.WritePresentKeysKeepsAbsent | src/components/resume/management/dialogs/text-import-dialog.tsx:102-104 | a contact key the source lacks is not written, so the target keeps its value |

## Left out

- The server actions in `src/app/auth/login/actions.ts` are left out. They are thin calls into the hosted authentication and database service.
- Filesystem I/O (`save-content/route.ts`, `getResumeContent.ts`, `page.tsx` of `my-resume-builder`) is left out. So are the rich-text editor's toolbar commands, `handleSave` and `generateHTML`. Applying the normalised link to the editor is left out too.
- UI wiring with no rules is left out: the editor panel, the import-method radio group, the delete dialog, styling and toasts other than the dialog's own.
- The database migration is left out. It declares a schema and has no behaviour.
- The chat runtime is left out: `useChat` streaming, loading flags, scrolling and localStorage persistence. The React timing of `originalResume` is left out as well. The reject closures read the snapshot captured at render time, while the model treats the snapshot as an explicit value.
- Foreign calls are parameters: `addTextToResume`, `pdfToText` and `new Date()`. The AI's tool-call arguments are parameters too. `login` enters `LoginForm.Submit` only as whether its promise resolves or rejects. Its result is ignored by the source.
- `Number(value.toFixed(2))` is not modelled. Numbers are integer hundredths, where it is the identity.
- Chatbot.ApplyUpdate: only the eight contact keys of `basic_info` are modelled. A key outside them that the AI might send would also be written.
- `toLowerCase` is modelled on ASCII letters only.
- ProjectsEditor.ChangeProject: the index is required to lie in the list, because every input that calls it is rendered for an existing project. Outside the list the source would write a new, sparse element. The same holds for `UserProfiles.ChangeProject` and `ProjectsEditor.EditAccomplishment`.
- ProjectsEditor.AddAccomplishment: the index is required to lie in the list. Outside it, `updatedProjects[index]` is undefined, so reading `.accomplishments` throws a TypeError before `setResume` runs, and the state is unchanged.
- ProjectsEditor.RemoveAccomplishment: the project index is required to lie in the list. Outside it the handler throws the same TypeError before `setResume`, and the state is unchanged.
- The in-place mutation of the previous state's accomplishments array in `handleAddAccomplishment` and `handleRemoveAccomplishment` is not modelled. The shallow copy shares the project objects.
- The `UserProfile` declaration is not part of this model. Its fields come from the components that use it, and list entries are modelled as text.
- `ServiceName` is modelled as any string.
- LoginForm.Submit: the model starts once the browser lets the submit event through. The form has no `noValidate`, and its email input is `type="email"` and `required` and its password input `required`. The browser checks these before `handleSubmit` runs, and those checks are not modelled. An empty form, or an address such as "a@b..c" that the pattern accepts but the browser's email check rejects, never reaches the handler.
- Several handlers write a resume key by key in a loop of `onChange` or `onResumeChange` calls. The model assumes that each write applies on top of the one before it. The parent's handler is not part of this model. If it copied a stale `resume` on every call, as `setResume({ ...resume, … })` does in `src/components/editor/projects.tsx`, only the last write of a loop would survive. The members that rest on this assumption are `BasicInfo.CopyTruthy`, `Chatbot.ApplyUpdate`, `Chatbot.RestoreAsWritten`, and `TextImport.Import` through `ResumeTypes.WritePresentKeys`.
- Chatbot.RestoreAsWritten: `None` stands both for a key that is absent and for a key that holds null. A stored row that carries `website: null` has the key, and the source writes that null back. The model reads it as absent, so the current value is kept. The Findings row's discrepancy is therefore limited to keys missing from the snapshot object. Rows loaded from the database usually carry every column.
- The saved-styles dialog, which replaces the whole settings object, is not part of this model.
- `getResume` with a section name that is also an inherited property of a plain object (such as `constructor`) is not modelled. Such a name yields undefined here.

## Findings

| source | as written | input that shows it | evidently intended | confidence | as-written member | corrected member |
|---|---|---|---|---|---|---|
| src/components/resume/assistant/chatbot.tsx:186-192 | the reject handler restores only `Object.keys(originalResume)`, so an optional field absent from the snapshot keeps whatever the update wrote; the card rendered for the tool invocation repeats the same loop at lines 405-411 | a resume with no `website` key; `modifyWholeResume` sends `basic_info.website = "ada.dev"`; reject leaves the website set | reject returns every non-metadata field to its pre-update value, removing fields the update added | not executed; low to medium, since rows loaded from the database usually carry every column as null | Chatbot.RestoreAsWrittenCounterexample | Chatbot.ModifyThenRejectRestores |
