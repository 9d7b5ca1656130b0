# Attaching behaviour of BrowserCMS, modelled in Dafny

The model covers `Cms::Behaviors::Attaching`. A content block with
`belongs_to_attachment` owns an attachment: a file with a path and a
section. The behaviour adds these to the host record:

- virtual fields: `attachment_file`, `attachment_file_name`,
  `attachment_file_path`, `attachment_section_id` and `attachment_section`;
- a validation step, `process_attachment`, that builds and fills the
  attachment;
- a save step, `update_attachment_if_changed`, that saves the attachment
  or reverts it and records its version on the host;
- a post-save step that clears the cached fields;
- the remap of the attachment's own validation errors onto the host;
- the publish, versioning and link helpers.

Files:

- `wrappers.dfy`: `Option`.
- `text.dfy`: Ruby's `blank?` and `downcase` (ASCII), `File.basename`, and
  decimal rendering with its inverse.
- `sanitization.dfy`: `SANITIZATION_REGEXES` and `sanitize_file_path`, as a
  fold of three `gsub` passes. It is proved equal to a per-character
  reference definition, and idempotent.
- `attaching_spec.dfy`: a value-level model.
  - `Record` is the host: its caches, a dirty mark, the attachment, its id
    and version, the archived and new-record flags, its error list, and a
    log of the calls it made on the attachment.
  - `Host` holds the host's answers to the `respond_to?` probes.
  - There is one function per instance method and one per callback step;
    `SaveCycle` chains them in callback order.
- `attaching_properties.dfy`: the properties of those functions.
- `examples.dfy`: worked examples on concrete file names.
- `attaching.dfy`: the same behaviour as objects.
  - Class `Attachment` models the attachment.
  - Class `AttachableRecord` models the host record. Its methods update the
    fields in place, with `modifies` clauses.
  - Each method is proved to leave the state that the matching function
    of `AttachingSpec` computes.

Some collaborators become parameters:

- a `Persistence` value of functions for the attachment's `save`,
  `revert_to` and `publish`;
- `root` for `Cms::Section.root.first`;
- `find` for `Cms::Attachment.find(id).as_of_version(v)`.

Two consequences of the code's callback wiring:

- The caches are cleared by an `after_save` callback
  (lib/cms/behaviors/attaching.rb:21), which runs only after a save went
  through. A save halted by validation keeps the caches
  (`AttachingProperties.SaveCycleOutcome`).
- `clear_attachment_ivars` leaves the `attachment_file_name` cache alone
  (lib/cms/behaviors/attaching.rb:126-131)
  (`AttachingProperties.ClearReadsAttachmentAgain`).

The attachment tracks unsaved changes as ActiveRecord's `changed?` does.
Writing a different `file_path`, `section` or `archived` value marks it
changed. Assigning `section` also sets `section_id`. So an archive flag
copied at lib/cms/behaviors/attaching.rb:164, or a path a hook derives,
makes `update_attachment_if_changed` save the attachment
(`AttachingProperties.ArchiveChangeIsPersisted`).

## Model

| member | source | states |
|---|---|---|
| Text.Downcase | lib/cms/behaviors/attaching.rb:151 | `downcase` keeps the length, lowers A-Z one by one, and leaves no upper-case letter |
| Text.DowncaseKeepsLowerCase | lib/cms/behaviors/attaching.rb:151 | a name without upper-case letters is left unchanged by `downcase` |
| Text.BasenameIsLastComponent | lib/cms/behaviors/attaching.rb:151 | `File.basename` gives "/" or a slash-free component; it is non-empty for a non-empty name |
| Text.BasenameOfPlainName | lib/cms/behaviors/attaching.rb:151 | the basename of a name without '/' is the name itself |
| Text.BlankIffEmptyWithoutWhitespace | lib/cms/behaviors/attaching.rb:104 | for text without whitespace, `blank?` holds exactly when it is empty |
| Text.ShowOpt | lib/cms/behaviors/attaching.rb:192 | interpolating an id or version gives "" exactly for nil |
| Text.ReadShowOpt | lib/cms/behaviors/attaching.rb:192 | the interpolated id or version reads back as the same value, nil included |
| Text.ParseNatToString | lib/cms/behaviors/attaching.rb:192 | the decimal text of a number parses back to that number |
| Sanitization.Gsub | lib/cms/behaviors/attaching.rb:157 | one `gsub` pass leaves only characters of the input outside the class, or characters of the replacement; a replacement of at most one character does not lengthen the text |
| Sanitization.GsubAppend | lib/cms/behaviors/attaching.rb:157 | a `gsub` pass distributes over concatenation |
| Sanitization.GsubOneChar | lib/cms/behaviors/attaching.rb:157 | on one character, a pass gives the replacement exactly when the class matches |
| Sanitization.SanitizeInOrder | lib/cms/behaviors/attaching.rb:155-159 | the fold applies whitespace to "_", then `&+()` to "-", then deletes the illegal characters, in that order |
| Sanitization.SanitizeOneChar | lib/cms/behaviors/attaching.rb:4 | one character sanitises to its per-character replacement |
| Sanitization.SanitizeAppend | lib/cms/behaviors/attaching.rb:155-159 | sanitising distributes over concatenation |
| Sanitization.SanitizeIsCharwise | lib/cms/behaviors/attaching.rb:155-159 | the three-pass fold equals the independent per-character definition |
| Sanitization.CleanEachIsClean | lib/cms/behaviors/attaching.rb:4 | the per-character definition leaves no whitespace, joiner or illegal character |
| Sanitization.CleanEachFixesClean | lib/cms/behaviors/attaching.rb:4 | text with none of those characters is unchanged by the per-character definition |
| Sanitization.SanitizedIsClean | lib/cms/behaviors/attaching.rb:155-159 | a sanitised path holds no character any of the three rules matches |
| Sanitization.SanitizeIdempotent | lib/cms/behaviors/attaching.rb:155-159 | sanitising twice equals sanitising once |
| Sanitization.SanitizedBlankIffEmpty | lib/cms/behaviors/attaching.rb:155-159 | a sanitised path is blank exactly when it is empty |
| Sanitization.CleanEachExample | lib/cms/behaviors/attaching.rb:4 | "a b&c=d" becomes "a_b-cd" |
| AttachingSpec.ReadFile | lib/cms/behaviors/attaching.rb:39-41 | the `attachment_file` getter changes only the file cache, which then holds the value it answers |
| AttachingSpec.ReadFileName | lib/cms/behaviors/attaching.rb:50-52 | the `attachment_file_name` getter changes only its cache, which then holds the answer |
| AttachingSpec.ReadFilePath | lib/cms/behaviors/attaching.rb:54-56 | the `attachment_file_path` getter changes only its cache, which then holds the answer |
| AttachingSpec.ReadSectionId | lib/cms/behaviors/attaching.rb:66-68 | the `attachment_section_id` getter changes only its cache, which then holds the answer |
| AttachingSpec.ReadSection | lib/cms/behaviors/attaching.rb:77-79 | the `attachment_section` getter changes only its cache, which then holds the answer |
| AttachingSpec.StageFile | lib/cms/behaviors/attaching.rb:101-102 | after staging an attachment exists and its upload slot holds the same file as the file cache |
| AttachingSpec.UseDefaultPath | lib/cms/behaviors/attaching.rb:149-153 | the default path step writes only the attachment's path, marking a change exactly for a different path, touches no cache but the file's, and leaves the attachment alone when the file is blank |
| AttachingSpec.UseDefaultSection | lib/cms/behaviors/attaching.rb:143-147 | the default section step sets the section to the root and the section id with it, marking a change exactly for a different id, and leaves the attachment alone when the file is blank |
| AttachingSpec.HandlePath | lib/cms/behaviors/attaching.rb:118-124 | path derivation writes only the attachment's path and the change mark, which is set exactly for a different path |
| AttachingSpec.HandleSection | lib/cms/behaviors/attaching.rb:134-140 | section derivation writes only the attachment's section, its id and the change mark, which is set exactly for a different id |
| AttachingProperties.ReadFilePathMemoises | lib/cms/behaviors/attaching.rb:54-56 | the getter answers the cache when set, else the attachment's path; it stores the answer, and a second read changes nothing |
| AttachingProperties.GettersFallBack | lib/cms/behaviors/attaching.rb:39-79 | each of the five getters answers its cache when set and the attachment's value otherwise, and a second read answers the same and changes nothing |
| AttachingProperties.BlankFormFile | lib/cms/behaviors/attaching.rb:39-48 | the empty form value set over a nil cache marks dirty, is answered by the getter instead of the attachment's upload, is staged on the attachment and makes it be saved |
| AttachingProperties.SetFileDirtyIffChanged | lib/cms/behaviors/attaching.rb:43-48 | `attachment_file=` marks the record dirty and stores the file exactly when it differs from the cache; an equal value changes nothing |
| AttachingProperties.ReadAfterSetFile | lib/cms/behaviors/attaching.rb:39-48 | reading after setting gives the set file, or the attachment's upload when nil was set |
| AttachingProperties.SetFilePathStoresSanitised | lib/cms/behaviors/attaching.rb:58-64 | `attachment_file_path=` stores the sanitised text (nil becomes ""), marks dirty exactly on a change, and the getter reads it back |
| AttachingProperties.SetFilePathReadBackIsNoOp | lib/cms/behaviors/attaching.rb:54-64 | writing back the path just read changes nothing |
| AttachingProperties.SetFilePathBlankIffEmpty | lib/cms/behaviors/attaching.rb:58-64 | the stored path is blank exactly when its sanitised text is empty |
| AttachingProperties.SetSectionIdDirtyIffChanged | lib/cms/behaviors/attaching.rb:66-75 | `attachment_section_id=` marks dirty and stores exactly on a change, and the getter reads the new id back |
| AttachingProperties.SetSectionKeepsIdInStep | lib/cms/behaviors/attaching.rb:81-87 | `attachment_section=` marks dirty exactly on a change, then caches the new section and its id (nil for nil); an equal section changes nothing; no other cache moves |
| AttachingProperties.SettersIdempotent | lib/cms/behaviors/attaching.rb:43-87 | each of the four setters applied twice equals applying it once |
| AttachingProperties.ClearReadsAttachmentAgain | lib/cms/behaviors/attaching.rb:126-131 | clearing resets the file, path, section id and section caches and nothing else; those four getters then read the attachment |
| AttachingProperties.ProcessWithoutUpload | lib/cms/behaviors/attaching.rb:91-99 | with no attachment and a blank file, validation fails exactly when a path or a section id is given, adding "You must upload a file" on `attachment_file`, and builds no attachment |
| AttachingProperties.HandlePathStaged | lib/cms/behaviors/attaching.rb:118-124 | on a staged attachment the path is written from the hook when defined, else the default when the file is not blank, else left alone |
| AttachingProperties.HandleSectionStaged | lib/cms/behaviors/attaching.rb:134-140 | on a staged attachment the section is written from the hook when defined, else the root when the file is not blank, else left alone |
| AttachingProperties.ProcessUploadSteps | lib/cms/behaviors/attaching.rb:100-112 | the upload branch builds, stages, derives the path, stops on a blank path, derives the section, and stops on a missing section |
| AttachingProperties.ProcessWithUpload | lib/cms/behaviors/attaching.rb:100-112 | with an attachment or a non-blank file, the attachment holds the pending file; success means a non-blank path and a section; the single error names the first failed requirement; only the file cache and the errors change on the host |
| AttachingProperties.ProcessUploadAttachment | lib/cms/behaviors/attaching.rb:100-112 | validation writes only the attachment's upload slot, path, section and section id; a blank path leaves the section alone; the attachment is marked changed exactly when it was or its path or section id moved |
| AttachingProperties.PathStepFrame | lib/cms/behaviors/attaching.rb:118-124 | path derivation writes only the path and marks a change exactly for a different one |
| AttachingProperties.SectionStepFrame | lib/cms/behaviors/attaching.rb:134-140 | section derivation writes only the section and its id and marks a change exactly for a different id |
| AttachingProperties.ProcessAddsAtMostOneError | lib/cms/behaviors/attaching.rb:89-115 | validation keeps earlier errors and adds exactly one when it fails and none when it passes |
| AttachingProperties.ProcessUsesHooks | lib/cms/behaviors/attaching.rb:117-140 | the host's hooks set the path and then the section, each seeing the state at that point |
| AttachingProperties.ProcessDefaultsWithFile | lib/cms/behaviors/attaching.rb:143-153 | without hooks and with a non-blank file, the path is "/attachments/" plus the lower-cased basename and the section is the root, its id in step; validation passes exactly when a root exists |
| AttachingProperties.ProcessDefaultsWithoutFile | lib/cms/behaviors/attaching.rb:143-153 | without hooks and with a blank file, only the upload slot of the attachment changes; cached values are not copied onto it |
| AttachingProperties.DefaultFilePathNotBlank | lib/cms/behaviors/attaching.rb:151 | the default path is never blank |
| AttachingProperties.DefaultFilePathShape | lib/cms/behaviors/attaching.rb:151 | the default path starts with "/attachments/" and extends it exactly when the original name is non-empty |
| AttachingProperties.RemapOneForOne | lib/cms/behaviors/attaching.rb:26-32 | each attachment error becomes one host error with the same message, on `attachment_file_path` exactly for `file_path` errors |
| AttachingProperties.ValidateAttachmentAppends | lib/cms/behaviors/attaching.rb:24-34 | a valid or missing attachment adds nothing; otherwise the remapped errors are appended in order |
| AttachingProperties.UpdateWithoutAttachment | lib/cms/behaviors/attaching.rb:161-173 | without an attachment the save step changes nothing |
| AttachingProperties.UpdatePolicy | lib/cms/behaviors/attaching.rb:161-173 | a requested revert wins; otherwise the attachment is saved only for a new record, an attachment with unsaved changes (the copied archived flag included) or a pending upload; archived is copied only for archivable types; the host ends on the draft version |
| AttachingProperties.UpdateKeepsHostFields | lib/cms/behaviors/attaching.rb:161-173 | the save step leaves the host's caches and errors alone |
| AttachingProperties.ArchiveChangeIsPersisted | lib/cms/behaviors/attaching.rb:164-168 | on an archivable type whose archived flag differs from the attachment's, the attachment is saved with the new flag, or reverted when a revert is requested |
| AttachingProperties.UpdateIgnoresSaveResult | lib/cms/behaviors/attaching.rb:168-169 | the success flag of the attachment's save has no effect on the record |
| AttachingProperties.AfterPublishDelegates | lib/cms/behaviors/attaching.rb:175-177 | publishing publishes the attachment when there is one and otherwise does nothing |
| AttachingProperties.AfterAsOfVersionSwaps | lib/cms/behaviors/attaching.rb:184-188 | the historical attachment replaces the current one exactly when both the id and the version are known |
| AttachingProperties.QueryStart | lib/cms/behaviors/attaching.rb:192 | finds the first '?' of a text, or its end |
| AttachingProperties.ParseLinkParts | lib/cms/behaviors/attaching.rb:192 | a link whose id text has no '?' splits back into its id text and its version text |
| AttachingProperties.VersionedLinkRoundTrip | lib/cms/behaviors/attaching.rb:192 | the versioned link parses back to the record's attachment id and version, nil included |
| AttachingProperties.AttachmentLinkCases | lib/cms/behaviors/attaching.rb:190-196 | the link is nil without an attachment, the path getter's answer when published and live, otherwise the versioned link of the id and version |
| AttachingProperties.SaveCycleOutcome | lib/cms/behaviors/attaching.rb:19-24 | earlier errors are dropped; a save goes through exactly when validation and the attachment pass, which is exactly when it ends without errors; it then runs the save policy and resets the four caches; a halted save calls nothing on the attachment and keeps the caches |
| AttachingExamples.DowncaseExample | lib/cms/behaviors/attaching.rb:151 | "My Photo.PNG" lowers to "my photo.png" |
| AttachingExamples.DefaultFilePathExample | lib/cms/behaviors/attaching.rb:151 | an upload named "My Photo.PNG" gets the default path "/attachments/my photo.png", not sanitised |
| AttachingExamples.ReportPath | lib/cms/behaviors/attaching.rb:151 | an upload named "report.pdf" gets "/attachments/report.pdf" |
| AttachingExamples.ReportUploadCycle | lib/cms/behaviors/attaching.rb:89-173 | a new record with a pending "report.pdf" validates under the root section, saves its attachment, ends on the draft version and has its caches reset |
| AttachingExamples.SanitizeExample | lib/cms/behaviors/attaching.rb:155-159 | `sanitize_file_path("a b&c=d")` is "a_b-cd" |
| Attaching.Attachment.Build | lib/cms/behaviors/attaching.rb:101 | `build_attachment` gives an attachment with no path, name, section or upload, no errors and no changes |
| Attaching.Attachment.SetFilePath | lib/cms/behaviors/attaching.rb:151 | writing the path marks a change exactly for a different value |
| Attaching.Attachment.SetSection | lib/cms/behaviors/attaching.rb:145 | writing the section sets its id too and marks a change exactly for a different id |
| Attaching.Attachment.SetArchived | lib/cms/behaviors/attaching.rb:164 | writing the archived flag marks a change exactly for a different value |
| Attaching.Attachment.Save | lib/cms/behaviors/attaching.rb:168 | the attachment becomes what persistence saved, and the result is persistence's answer |
| Attaching.Attachment.RevertTo | lib/cms/behaviors/attaching.rb:166 | the attachment becomes the reverted version |
| Attaching.Attachment.Publish | lib/cms/behaviors/attaching.rb:176 | the attachment becomes the published one |
| Attaching.AttachableRecord.constructor | lib/cms/behaviors/attaching.rb:37 | a new record has empty caches, no attachment, no errors and is a new record |
| Attaching.AttachableRecord.AttachmentFile | lib/cms/behaviors/attaching.rb:39-41 | the getter's result and new state are those of `ReadFile` |
| Attaching.AttachableRecord.AttachmentFileName | lib/cms/behaviors/attaching.rb:50-52 | the getter's result and new state are those of `ReadFileName` |
| Attaching.AttachableRecord.AttachmentFilePath | lib/cms/behaviors/attaching.rb:54-56 | the getter's result and new state are those of `ReadFilePath` |
| Attaching.AttachableRecord.AttachmentSectionId | lib/cms/behaviors/attaching.rb:66-68 | the getter's result and new state are those of `ReadSectionId` |
| Attaching.AttachableRecord.AttachmentSection | lib/cms/behaviors/attaching.rb:77-79 | the getter's result and new state are those of `ReadSection` |
| Attaching.AttachableRecord.MarkDirty | lib/cms/behaviors/attaching.rb:200-203 | `dirty!` sets the dirty mark and changes nothing else |
| Attaching.AttachableRecord.SetAttachmentFile | lib/cms/behaviors/attaching.rb:43-48 | the new state is that of `SetFile`, whose properties are stated above |
| Attaching.AttachableRecord.SetAttachmentFilePath | lib/cms/behaviors/attaching.rb:58-64 | the new state is that of `SetFilePath` |
| Attaching.AttachableRecord.SetAttachmentSectionId | lib/cms/behaviors/attaching.rb:70-75 | the new state is that of `SetSectionId` |
| Attaching.AttachableRecord.SetAttachmentSection | lib/cms/behaviors/attaching.rb:81-87 | the new state is that of `SetSection` |
| Attaching.AttachableRecord.ClearAttachmentIvars | lib/cms/behaviors/attaching.rb:126-131 | the new state is that of `ClearCaches` |
| Attaching.AttachableRecord.UseDefaultAttachmentPath | lib/cms/behaviors/attaching.rb:149-153 | the new state is that of `UseDefaultPath` |
| Attaching.AttachableRecord.UseDefaultAttachmentSection | lib/cms/behaviors/attaching.rb:143-147 | the new state is that of `UseDefaultSection` |
| Attaching.AttachableRecord.HandleSettingAttachmentPath | lib/cms/behaviors/attaching.rb:118-124 | the new state is that of `HandlePath` |
| Attaching.AttachableRecord.HandleSettingAttachmentSection | lib/cms/behaviors/attaching.rb:134-140 | the new state is that of `HandleSection` |
| Attaching.AttachableRecord.ProcessAttachment | lib/cms/behaviors/attaching.rb:89-115 | result and new state are those of `Process`; an attachment is only ever newly built |
| Attaching.AttachableRecord.RefuseStrayFields | lib/cms/behaviors/attaching.rb:92-99 | result and new state are those of `ProcessNoUpload` |
| Attaching.AttachableRecord.StageFile | lib/cms/behaviors/attaching.rb:101-102 | the new state is that of `StageFile`; an attachment exists afterwards and is new if there was none |
| Attaching.AttachableRecord.StageUpload | lib/cms/behaviors/attaching.rb:100-112 | result and new state are those of `ProcessUpload`; an attachment always exists afterwards |
| Attaching.AttachableRecord.ValidateAttachmentFile | lib/cms/behaviors/attaching.rb:24-34 | the loop appends the remapped attachment errors, as `ValidateAttachment` says |
| Attaching.AttachableRecord.UpdateAttachmentIfChanged | lib/cms/behaviors/attaching.rb:161-173 | the new state is that of `UpdateIfChanged` |
| Attaching.AttachableRecord.Save | lib/cms/behaviors/attaching.rb:19-24 | emptying the errors and running the callbacks in order gives the outcome of `SaveCycle` |
| Attaching.AttachableRecord.AfterPublish | lib/cms/behaviors/attaching.rb:175-177 | the new state is that of `AfterPublish` |
| Attaching.AttachableRecord.AfterAsOfVersion | lib/cms/behaviors/attaching.rb:184-188 | the new state is that of `AfterAsOfVersion`; a replacing attachment is new |
| Attaching.AttachableRecord.AttachmentLink | lib/cms/behaviors/attaching.rb:190-196 | result and new state are those of `AttachmentLink` |

## Left out

- Rails wiring is not modelled: the `belongs_to` association with `:dependent => :destroy`, callback registration, and `belongs_to_attachment?` (lib/cms/behaviors/attaching.rb:7-22). The callback order is modelled by `SaveCycle` and `AttachableRecord.Save`.
- The log lines are not modelled. The first line of `process_attachment` interpolates the `attachment_file` getter, so that read is kept.
- `dirty!` writes `updated_at = Time.now`. The clock is left out and a dirty mark stands for the timestamp.
- `file_size` is left out. It formats a floating-point number.
- The attachment's `save`, `revert_to`, `publish`, `valid?` and `draft`, plus `Cms::Section.root` and `Cms::Attachment.find(..).as_of_version(..)`, are not modelled: they live in other files. They become parameters, and `valid?` becomes the attachment's error list.
- `find`: modelled as a total function; a failing lookup is not modelled.
- `Text.Downcase`: lowers ASCII letters only, not all of Unicode.
- `Text.IsWhitespace`: `\s` and `blank?` are taken as ASCII whitespace.
- AttachingSpec.SetSectionId: the section id is an integer. A form posts it as text, so in the source `"5"` differs from the attachment's `5` and marks the record dirty, and `""` is blank but not nil; the model compares integers and has nil for the blank case.
- AttachingSpec.WritePath: a write marks the attachment changed and only persistence clears the mark. ActiveRecord also drops the mark when a later write restores the loaded value; the same holds for AttachingSpec.WriteSection and AttachingSpec.WriteArchived. Within one save each of these attributes is written at most once.
- AttachingSpec.SaveCycle: the error list is emptied before `process_attachment` runs, as `valid?` does when the before-validation callbacks run inside it. Under Rails versions that run those callbacks before emptying the list, a save halted by `process_attachment` keeps the earlier errors as well; the model does not cover that order.
- The `set_attachment_path` and `set_attachment_section` hooks are modelled as pure functions. Each sets only the path or only the section, through the attachment's writers, from the caches and the attachment.
- The new-record flag is not cleared by a save: persistence of the host row is not modelled.
- A freshly built attachment's draft version is 0, a placeholder for what persistence assigns.
