/** What the attachment protocol promises, stated over the functions of
    module AttachingSpec. */
module AttachingProperties {

  import opened Wrappers
  import opened Text
  import Sanitization
  import opened AttachingSpec

  function AttachedFile(r: Record): Option<Upload> {
    if r.att.Some? then r.att.value.tempFile else None
  }

  function AttachedFileName(r: Record): Option<string> {
    if r.att.Some? then r.att.value.fileName else None
  }

  function AttachedPath(r: Record): Option<string> {
    if r.att.Some? then r.att.value.filePath else None
  }

  function AttachedSection(r: Record): Option<Section> {
    if r.att.Some? then r.att.value.section else None
  }

  function AttachedSectionId(r: Record): Option<int> {
    if r.att.Some? then r.att.value.sectionId else None
  }

  // ----- Getters and setters -----

  /** A getter answers its cache when set and the attachment's value
      otherwise, remembers the answer, and a second read changes nothing. */
  lemma ReadFilePathMemoises(r: Record)
    ensures ReadFilePath(r).value == (if r.caches.filePath.Some? then r.caches.filePath else AttachedPath(r))
    ensures ReadFilePath(r).rec.caches.filePath == ReadFilePath(r).value
    ensures ReadFilePath(ReadFilePath(r).rec) == Read(ReadFilePath(r).value, ReadFilePath(r).rec)
  {
  }

  /** Every getter answers its cache when set and the attachment's value
      otherwise, leaves that answer in its cache and nothing else changed,
      and a second read answers the same and changes nothing. */
  lemma GettersFallBack(r: Record)
    ensures ReadFile(r).value == OrElse(r.caches.file, AttachedFile(r))
    ensures ReadFileName(r).value == OrElse(r.caches.fileName, AttachedFileName(r))
    ensures ReadFilePath(r).value == OrElse(r.caches.filePath, AttachedPath(r))
    ensures ReadSectionId(r).value == OrElse(r.caches.sectionId, AttachedSectionId(r))
    ensures ReadSection(r).value == OrElse(r.caches.section, AttachedSection(r))
    ensures ReadFile(ReadFile(r).rec) == ReadFile(r)
    ensures ReadFileName(ReadFileName(r).rec) == ReadFileName(r)
    ensures ReadFilePath(ReadFilePath(r).rec) == ReadFilePath(r)
    ensures ReadSectionId(ReadSectionId(r).rec) == ReadSectionId(r)
    ensures ReadSection(ReadSection(r).rec) == ReadSection(r)
  {
  }

  /** The empty value a form posts for an empty file field is kept as it
      is: setting it over a nil cache marks the record dirty, the getter
      answers it rather than the attachment's upload, and validation stages
      it on the attachment, whose save then runs. */
  lemma BlankFormFile(r: Record, h: Host, root: Option<Section>, p: Persistence)
    requires r.caches.file.None? && r.att.Some? && h.revertTarget.None?
    ensures var r1 := SetFile(r, Some(EmptyField));
      && r1.dirty
      && ReadFile(r1).value == Some(EmptyField)
      && var v := Process(r1, h, root);
      && v.rec.att.Some? && v.rec.att.value.tempFile == Some(EmptyField)
      && UpdateIfChanged(v.rec, h, p).calls == v.rec.calls + [Saved]
  {
    var r1 := SetFile(r, Some(EmptyField));
    ProcessWithUpload(r1, h, root);
    UpdatePolicy(Process(r1, h, root).rec, h, p);
  }

  /** `attachment_file=` marks dirty and stores exactly when the value differs. */
  lemma SetFileDirtyIffChanged(r: Record, f: Option<Upload>)
    ensures SetFile(r, f) == r.(dirty := r.dirty || r.caches.file != f, caches := r.caches.(file := f))
    ensures SetFile(r, f).dirty <==> r.dirty || r.caches.file != f
    ensures r.caches.file == f ==> SetFile(r, f) == r
  {
  }

  /** Reading the file back after setting it: a nil assignment falls back
      to the attachment's own upload. */
  lemma ReadAfterSetFile(r: Record, f: Option<Upload>)
    ensures ReadFile(SetFile(r, f)).value == (if f.Some? then f else AttachedFile(r))
  {
  }

  /** `attachment_file_path=` stores the sanitised text (nil stores ""),
      marks dirty exactly when that differs from the cache, and reading the
      path back yields it. */
  lemma SetFilePathStoresSanitised(r: Record, p: Option<string>)
    ensures var fp := Sanitization.SanitizeFilePath(ToS(p));
      && SetFilePath(r, p) == r.(dirty := r.dirty || r.caches.filePath != Some(fp), caches := r.caches.(filePath := Some(fp)))
      && ReadFilePath(SetFilePath(r, p)).value == Some(fp)
    ensures p.None? ==> SetFilePath(r, p).caches.filePath == Some("")
  {
  }

  /** Writing back the path just read from the setter changes nothing,
      because sanitising is idempotent. */
  lemma {:induction false} SetFilePathReadBackIsNoOp(r: Record, p: Option<string>)
    ensures var r1 := SetFilePath(r, p);
      SetFilePath(r1, ReadFilePath(r1).value) == r1
  {
    Sanitization.SanitizeIdempotent(ToS(p));
  }

  /** A sanitised path is blank only when it is empty. */
  lemma SetFilePathBlankIffEmpty(r: Record, p: Option<string>)
    ensures BlankOpt(SetFilePath(r, p).caches.filePath)
        <==> Sanitization.SanitizeFilePath(ToS(p)) == []
  {
    Sanitization.SanitizedBlankIffEmpty(ToS(p));
  }

  lemma SetSectionIdDirtyIffChanged(r: Record, id: Option<int>)
    ensures SetSectionId(r, id) == r.(dirty := r.dirty || r.caches.sectionId != id, caches := r.caches.(sectionId := id))
    ensures ReadSectionId(SetSectionId(r, id)).value == (if id.Some? then id else AttachedSectionId(r))
  {
  }

  /** `attachment_section=` marks dirty exactly on a change, and then keeps
      the cached section id equal to the new section's id (nil for nil);
      setting an equal section changes nothing at all. */
  lemma SetSectionKeepsIdInStep(r: Record, s: Option<Section>)
    ensures SetSection(r, s).dirty <==> r.dirty || r.caches.section != s
    ensures SetSection(r, s).caches.section == s
    ensures r.caches.section != s ==> SetSection(r, s).caches.sectionId == SectionIdOf(s)
    ensures r.caches.section == s ==> SetSection(r, s) == r
    ensures SetSection(r, s).caches.(sectionId := r.caches.sectionId, section := r.caches.section) == r.caches
  {
  }

  /** Every setter is idempotent. */
  lemma SettersIdempotent(r: Record, f: Option<Upload>, p: Option<string>, id: Option<int>, s: Option<Section>)
    ensures SetFile(SetFile(r, f), f) == SetFile(r, f)
    ensures SetFilePath(SetFilePath(r, p), p) == SetFilePath(r, p)
    ensures SetSectionId(SetSectionId(r, id), id) == SetSectionId(r, id)
    ensures SetSection(SetSection(r, s), s) == SetSection(r, s)
  {
  }

  /** After `clear_attachment_ivars` the four cleared getters read the
      attachment again; the file-name cache and everything else is kept. */
  lemma ClearReadsAttachmentAgain(r: Record)
    ensures ClearCaches(r).caches == EMPTY_CACHES.(fileName := r.caches.fileName)
    ensures ClearCaches(r).(caches := r.caches) == r
    ensures ReadFile(ClearCaches(r)).value == AttachedFile(r)
    ensures ReadFilePath(ClearCaches(r)).value == AttachedPath(r)
    ensures ReadSectionId(ClearCaches(r)).value == AttachedSectionId(r)
    ensures ReadSection(ClearCaches(r)).value == AttachedSection(r)
  {
  }

  // ----- Validation -----

  /** The file pending when validation starts. */
  function PendingFile(r: Record): Option<Upload> {
    OrElse(r.caches.file, AttachedFile(r))
  }

  /** With no attachment and no file, validation refuses a path or a section
      id with "You must upload a file" on `attachment_file`, accepts
      otherwise, and never builds an attachment. */
  lemma ProcessWithoutUpload(r: Record, h: Host, root: Option<Section>)
    requires r.att.None? && FileBlank(r.caches.file)
    ensures var v := Process(r, h, root);
      && v.rec.att.None?
      && (v.ok <==> BlankOpt(r.caches.filePath) && r.caches.sectionId.None?)
      && v.rec == r.(errors := r.errors + if v.ok then [] else [HostError(AttachmentFile, MUST_UPLOAD)])
  {
    assert ReadFile(r) == Read(r.caches.file, r);
    assert Process(r, h, root) == ProcessNoUpload(r);
    assert ReadFilePath(r) == Read(r.caches.filePath, r);
    assert ReadSectionId(r) == Read(r.caches.sectionId, r);
  }

  /** The attachment before validation, or a freshly built one. */
  function BaseAttachment(r: Record): AttachmentData {
    if r.att.Some? then r.att.value else NEW_ATTACHMENT
  }

  /** The record once the upload is staged: an attachment exists (built
      when absent) and both its upload slot and the file cache hold the
      pending file. */
  function Staged(r: Record): Record {
    r.(att := Some(BaseAttachment(r).(tempFile := PendingFile(r))), caches := r.caches.(file := PendingFile(r)))
  }

  predicate IsStaged(r: Record) {
    r.att.Some? && r.att.value.tempFile == r.caches.file
  }

  /** The attachment after path derivation on a staged record. */
  function PathStep(r: Record, h: Host): AttachmentData
    requires r.att.Some?
  {
    if h.pathHook.Some? then WritePath(r.att.value, h.pathHook.value(r.caches, r.att.value))
    else if !FileBlank(r.caches.file) then WritePath(r.att.value, Some(DefaultFilePath(r.caches.file.value)))
    else r.att.value
  }

  /** The attachment after section derivation on a staged record. */
  function SectionStep(r: Record, h: Host, root: Option<Section>): AttachmentData
    requires r.att.Some?
  {
    if h.sectionHook.Some? then WriteSection(r.att.value, h.sectionHook.value(r.caches, r.att.value))
    else if !FileBlank(r.caches.file) then WriteSection(r.att.value, root)
    else r.att.value
  }

  lemma HandlePathStaged(r: Record, h: Host)
    requires IsStaged(r)
    ensures HandlePath(r, h) == WithAttachment(r, PathStep(r, h))
  {
    assert ReadFile(r) == Read(r.caches.file, r);
  }

  lemma HandleSectionStaged(r: Record, h: Host, root: Option<Section>)
    requires IsStaged(r)
    ensures HandleSection(r, h, root) == WithAttachment(r, SectionStep(r, h, root))
  {
    assert ReadFile(r) == Read(r.caches.file, r);
  }

  /** The record after path derivation on the staged upload. */
  function Pathed(r: Record, h: Host): Record {
    var s := Staged(r);
    WithAttachment(s, PathStep(s, h))
  }

  /** The record after section derivation. */
  function Sectioned(r: Record, h: Host, root: Option<Section>): Record {
    var p := Pathed(r, h);
    WithAttachment(p, SectionStep(p, h, root))
  }

  /** Validation with an attachment or a pending file, step by step. */
  lemma {:induction false} ProcessUploadSteps(r: Record, h: Host, root: Option<Section>)
    requires r.att.Some? || !FileBlank(r.caches.file)
    ensures Process(r, h, root) ==
      if BlankOpt(Pathed(r, h).att.value.filePath) then
        Validation(false, AddError(Pathed(r, h), AttachmentFilePath, FILE_NAME_REQUIRED))
      else if Sectioned(r, h, root).att.value.section.None? then
        Validation(false, AddError(Sectioned(r, h, root), AttachmentFile, SECTION_REQUIRED))
      else Validation(true, Sectioned(r, h, root))
  {
    var logged := ReadFile(r).rec;
    assert Process(r, h, root) == ProcessUpload(logged, h, root);
    var staged := StageFile(logged);
    assert staged == Staged(r);
    HandlePathStaged(staged, h);
    var pathed := HandlePath(staged, h);
    assert pathed == Pathed(r, h);
    HandleSectionStaged(pathed, h, root);
    assert HandleSection(pathed, h, root) == Sectioned(r, h, root);
  }

  /** With an attachment or a pending file, validation leaves an attachment
      whose upload slot holds the pending file, derives the path first and
      stops there when it is blank, then needs a section, and adds at most
      one error, on the field of the first requirement that failed. */
  lemma ProcessWithUpload(r: Record, h: Host, root: Option<Section>)
    requires r.att.Some? || !FileBlank(r.caches.file)
    ensures var v := Process(r, h, root);
      && v.rec.att.Some?
      && var a := v.rec.att.value;
      && var pathBlank := BlankOpt(a.filePath);
      && a.tempFile == PendingFile(r)
      && (v.ok <==> !pathBlank && a.section.Some?)
      && v.rec.errors == r.errors + (
           if v.ok then []
           else if pathBlank then [HostError(AttachmentFilePath, FILE_NAME_REQUIRED)]
           else [HostError(AttachmentFile, SECTION_REQUIRED)])
      && v.rec.caches == r.caches.(file := PendingFile(r))
      && v.rec.(att := r.att, caches := r.caches, errors := r.errors) == r
  {
    ProcessUploadSteps(r, h, root);
    var staged, pathed := Staged(r), Pathed(r, h);
    assert staged.att.value.tempFile == PendingFile(r);
    PathStepFrame(staged, h);
    assert pathed.(att := r.att, caches := r.caches) == r;
    if !BlankOpt(pathed.att.value.filePath) {
      SectionStepFrame(pathed, h, root);
      assert Sectioned(r, h, root).(att := pathed.att) == pathed;
    }
  }

  /** Validation with an attachment or a pending file writes nothing on the
      attachment but its upload slot, path, section and section id; a blank
      path leaves the section alone; and the attachment reports unsaved
      changes exactly when it already did or its path or section id moved. */
  lemma ProcessUploadAttachment(r: Record, h: Host, root: Option<Section>)
    requires r.att.Some? || !FileBlank(r.caches.file)
    ensures var v := Process(r, h, root);
      && v.rec.att.Some?
      && var a := v.rec.att.value;
      && var b := BaseAttachment(r);
      && (BlankOpt(a.filePath) ==> a.section == b.section && a.sectionId == b.sectionId)
      && (a.changed <==> b.changed || a.filePath != b.filePath || a.sectionId != b.sectionId)
      && a.(tempFile := b.tempFile, filePath := b.filePath, section := b.section,
            sectionId := b.sectionId, changed := b.changed) == b
  {
    ProcessUploadSteps(r, h, root);
    var b, staged, pathed := BaseAttachment(r), Staged(r), Pathed(r, h);
    assert staged.att.value == b.(tempFile := PendingFile(r));
    PathStepFrame(staged, h);
    var pa := pathed.att.value;
    assert pa.(tempFile := b.tempFile, filePath := b.filePath, changed := b.changed) == b;
    assert pa.changed <==> b.changed || pa.filePath != b.filePath;
    if !BlankOpt(pa.filePath) {
      SectionStepFrame(pathed, h, root);
      var sa := Sectioned(r, h, root).att.value;
      assert sa.(section := pa.section, sectionId := pa.sectionId, changed := pa.changed) == pa;
    }
  }

  /** Path derivation writes only the path, and marks a change exactly for
      a different path. */
  lemma PathStepFrame(r: Record, h: Host)
    requires r.att.Some?
    ensures var a := r.att.value;
      var a' := PathStep(r, h);
      && a'.(filePath := a.filePath, changed := a.changed) == a
      && (a'.changed <==> a.changed || a'.filePath != a.filePath)
  {
  }

  /** Section derivation writes only the section and its id, and marks a
      change exactly for a different id. */
  lemma SectionStepFrame(r: Record, h: Host, root: Option<Section>)
    requires r.att.Some?
    ensures var a := r.att.value;
      var a' := SectionStep(r, h, root);
      && a'.(section := a.section, sectionId := a.sectionId, changed := a.changed) == a
      && (a'.changed <==> a.changed || a'.sectionId != a.sectionId)
  {
  }

  /** Whichever branch runs, validation adds at most one error and keeps
      the earlier ones; it succeeds exactly when it adds none. */
  lemma ProcessAddsAtMostOneError(r: Record, h: Host, root: Option<Section>)
    ensures var v := Process(r, h, root);
      && r.errors <= v.rec.errors
      && |v.rec.errors| == |r.errors| + (if v.ok then 0 else 1)
  {
    if r.att.Some? || !FileBlank(r.caches.file) {
      ProcessWithUpload(r, h, root);
    } else {
      ProcessWithoutUpload(r, h, root);
    }
  }

  /** A host's hooks decide the path and the section; they see the caches
      and the attachment as they are at that point of validation. */
  lemma ProcessUsesHooks(r: Record, h: Host, root: Option<Section>)
    requires r.att.Some? || !FileBlank(r.caches.file)
    requires h.pathHook.Some? && h.sectionHook.Some?
    ensures var v := Process(r, h, root);
      var c := r.caches.(file := PendingFile(r));
      var a := BaseAttachment(r).(tempFile := PendingFile(r));
      var path := h.pathHook.value(c, a);
      && v.rec.att.value.filePath == path
      && (!BlankOpt(path) ==> v.rec.att.value.section == h.sectionHook.value(c, WritePath(a, path)))
  {
    ProcessUploadSteps(r, h, root);
  }

  /** Without hooks and with a pending upload, the path becomes
      "/attachments/" plus the lower-cased base name, unsanitised, and the
      section becomes the root, with the section id in step; validation
      passes exactly when there is a root. */
  lemma ProcessDefaultsWithFile(r: Record, h: Host, root: Option<Section>)
    requires h.pathHook.None? && h.sectionHook.None?
    requires !FileBlank(PendingFile(r))
    ensures var v := Process(r, h, root);
      && v.rec.att.Some?
      && v.rec.att.value.filePath == Some(DefaultFilePath(PendingFile(r).value))
      && v.rec.att.value.section == root
      && v.rec.att.value.sectionId == SectionIdOf(root)
      && (v.ok <==> root.Some?)
  {
    var u := PendingFile(r).value;
    DefaultFilePathNotBlank(u);
    assert Pathed(r, h).att.value.filePath == Some(DefaultFilePath(u));
    assert Sectioned(r, h, root).att.value.section == root;
    ProcessUploadSteps(r, h, root);
  }

  /** Without hooks and without a pending upload, the attachment's path and
      section stay as they were: the cached path and section id are never
      copied onto the attachment. */
  lemma ProcessDefaultsWithoutFile(r: Record, h: Host, root: Option<Section>)
    requires h.pathHook.None? && h.sectionHook.None?
    requires r.att.Some? && FileBlank(PendingFile(r))
    ensures var v := Process(r, h, root);
      && v.rec.att == Some(r.att.value.(tempFile := PendingFile(r)))
      && (v.ok <==> !BlankOpt(r.att.value.filePath) && r.att.value.section.Some?)
  {
    ProcessUploadSteps(r, h, root);
  }

  lemma DefaultFilePathNotBlank(u: Upload)
    requires u.Upload?
    ensures !Blank(DefaultFilePath(u))
  {
    assert DefaultFilePath(u)[0] == '/';
  }

  /** The default path is never blank and always lies under "/attachments/". */
  lemma DefaultFilePathShape(u: Upload)
    requires u.Upload?
    ensures !Blank(DefaultFilePath(u))
    ensures DefaultFilePath(u)[..|ATTACHMENT_ROOT|] == ATTACHMENT_ROOT
    ensures |DefaultFilePath(u)| > |ATTACHMENT_ROOT| <==> u.originalFilename != []
  {
    DefaultFilePathNotBlank(u);
    BasenameIsLastComponent(u.originalFilename);
  }

  // ----- The attachment's own errors -----

  /** Each attachment error becomes exactly one host error with the same
      message, on `attachment_file_path` for a `file_path` error and on
      `attachment_file` for any other. */
  lemma {:induction false} RemapOneForOne(errs: seq<AttachmentError>)
    ensures |Remap(errs)| == |errs|
    ensures forall i | 0 <= i < |errs| ::
      && Remap(errs)[i].message == errs[i].message
      && (Remap(errs)[i].field == AttachmentFilePath <==> errs[i].field == "file_path")
  {
    if errs != [] {
      RemapOneForOne(errs[..|errs| - 1]);
    }
  }

  lemma ValidateAttachmentAppends(r: Record)
    ensures r.att.None? || r.att.value.errors == [] ==> ValidateAttachment(r) == r
    ensures r.att.Some? ==> ValidateAttachment(r) == r.(errors := r.errors + Remap(r.att.value.errors))
    ensures |ValidateAttachment(r).errors| == |r.errors| + |if r.att.Some? then r.att.value.errors else []|
  {
    if r.att.Some? {
      RemapOneForOne(r.att.value.errors);
    }
  }

  // ----- Saving -----

  /** The attachment handed to `revert_to` or `save`: the host's archived
      flag is copied onto it only when the host type is archivable. */
  function Outgoing(r: Record, h: Host): AttachmentData
    requires r.att.Some?
  {
    if h.archivable then WriteArchived(r.att.value, r.archived) else r.att.value
  }

  lemma UpdateWithoutAttachment(r: Record, h: Host, p: Persistence)
    requires r.att.None?
    ensures UpdateIfChanged(r, h, p) == r
  {
  }

  /** With an attachment: a requested revert wins over saving, the save runs
      only for a new record, a changed attachment or a pending upload, and
      the record always ends on the attachment's draft version. */
  lemma UpdatePolicy(r: Record, h: Host, p: Persistence)
    requires r.att.Some?
    ensures var u := UpdateIfChanged(r, h, p);
      var a := Outgoing(r, h);
      && u.att.Some?
      && u.attachmentVersion == Some(u.att.value.draftVersion)
      && u.(att := r.att, attachmentVersion := r.attachmentVersion, calls := r.calls) == r
      && (h.revertTarget.Some? ==>
            var v := h.revertTarget.value.attachmentVersion;
            u.att.value == p.revertTo(a, v) && u.calls == r.calls + [RevertedTo(v)])
      && (h.revertTarget.None? && NeedsSave(r, a) ==>
            u.att.value == p.save(a).1 && u.calls == r.calls + [Saved])
      && (h.revertTarget.None? && !NeedsSave(r, a) ==>
            u.att.value == a && u.calls == r.calls)
  {
  }

  /** The save step leaves the host's caches and errors alone. */
  lemma UpdateKeepsHostFields(r: Record, h: Host, p: Persistence)
    ensures UpdateIfChanged(r, h, p).caches == r.caches
    ensures UpdateIfChanged(r, h, p).errors == r.errors
  {
  }

  /** Archiving or unarchiving the host of an archivable type always
      reaches the attachment's persistence: the copied flag is an unsaved
      change, so the attachment is saved unless a revert is requested. */
  lemma ArchiveChangeIsPersisted(r: Record, h: Host, p: Persistence)
    requires r.att.Some? && h.archivable && r.archived != r.att.value.archived
    ensures var u := UpdateIfChanged(r, h, p);
      && (h.revertTarget.None? ==>
            u.calls == r.calls + [Saved] && u.att.value == p.save(WriteArchived(r.att.value, r.archived)).1)
      && (h.revertTarget.Some? ==> u.calls == r.calls + [RevertedTo(h.revertTarget.value.attachmentVersion)])
  {
    UpdatePolicy(r, h, p);
  }

  /** The success flag `save` returns never changes the outcome. */
  lemma UpdateIgnoresSaveResult(r: Record, h: Host, p: Persistence, q: Persistence)
    requires forall a :: p.save(a).1 == q.save(a).1
    requires forall a, v :: p.revertTo(a, v) == q.revertTo(a, v)
    ensures UpdateIfChanged(r, h, p) == UpdateIfChanged(r, h, q)
  {
  }

  // ----- Accessors -----

  lemma AfterPublishDelegates(r: Record, p: Persistence)
    ensures r.att.None? ==> AfterPublish(r, p) == r
    ensures r.att.Some? ==> AfterPublish(r, p) == r.(att := Some(p.publish(r.att.value)), calls := r.calls + [Published])
  {
  }

  /** The historical attachment replaces the current one only when both the
      id and the version are known; the caches are left as they were. */
  lemma AfterAsOfVersionSwaps(r: Record, find: (int, int) -> AttachmentData)
    ensures r.attachmentId.Some? && r.attachmentVersion.Some? ==>
      AfterAsOfVersion(r, find) == r.(att := Some(find(r.attachmentId.value, r.attachmentVersion.value)))
    ensures r.attachmentId.None? || r.attachmentVersion.None? ==> AfterAsOfVersion(r, find) == r
  {
  }

  /** The position of the first '?' in `s`, or `|s|`. */
  function QueryStart(s: string): (k: nat)
    ensures k <= |s|
    ensures forall i | 0 <= i < k :: s[i] != '?'
    ensures k < |s| ==> s[k] == '?'
  {
    if s == [] then 0 else if s[0] == '?' then 0 else 1 + QueryStart(s[1..])
  }

  /** Reads an id and a version back from a versioned link. */
  function ParseVersionedLink(s: string): Option<(Option<int>, Option<int>)> {
    var n := |LINK_PREFIX|;
    if |s| < n || s[..n] != LINK_PREFIX then None
    else
      var rest := s[n..];
      var k := QueryStart(rest);
      var m := |VERSION_QUERY|;
      if |rest| - k < m || rest[k..k + m] != VERSION_QUERY then None
      else Some((ReadOpt(rest[..k]), ReadOpt(rest[k + m..])))
  }

  lemma ShowOptHasNoQuery(n: Option<int>)
    ensures forall i | 0 <= i < |ShowOpt(n)| :: ShowOpt(n)[i] != '?'
  {
    if n.Some? && n.value < 0 {
      var s := NatToString(-n.value);
      assert forall i | 1 <= i < |ShowOpt(n)| :: ShowOpt(n)[i] == s[i - 1];
    }
  }

  lemma {:induction false} QueryStartAfter(a: string, b: string)
    requires forall i | 0 <= i < |a| :: a[i] != '?'
    requires b != [] && b[0] == '?'
    ensures QueryStart(a + b) == |a|
  {
    if a != [] {
      assert (a + b)[1..] == a[1..] + b;
      QueryStartAfter(a[1..], b);
    }
  }

  /** A link built from an id text without '?' splits back into its two parts. */
  lemma ParseLinkParts(idText: string, versionText: string)
    requires forall i | 0 <= i < |idText| :: idText[i] != '?'
    ensures ParseVersionedLink(LINK_PREFIX + idText + VERSION_QUERY + versionText)
      == Some((ReadOpt(idText), ReadOpt(versionText)))
  {
    var query := VERSION_QUERY;
    var tail := query + versionText;
    var rest := idText + tail;
    var s := LINK_PREFIX + idText + VERSION_QUERY + versionText;
    assert s == LINK_PREFIX + rest;
    var n := |LINK_PREFIX|;
    assert s[..n] == LINK_PREFIX && s[n..] == rest;
    QueryStartAfter(idText, tail);
    var k := |idText|;
    assert rest[..k] == idText;
    assert rest[k..k + |query|] == query;
    assert rest[k + |query|..] == versionText;
  }

  /** The versioned link names the record's attachment id and version. */
  lemma VersionedLinkRoundTrip(id: Option<int>, version: Option<int>)
    ensures ParseVersionedLink(VersionedLink(id, version)) == Some((id, version))
  {
    ShowOptHasNoQuery(id);
    ParseLinkParts(ShowOpt(id), ShowOpt(version));
    ReadShowOpt(id);
    ReadShowOpt(version);
  }

  /** `attachment_link`: nil without an attachment, the file path (through
      its getter) when published and live, the versioned link otherwise. */
  lemma AttachmentLinkCases(r: Record, h: Host)
    ensures r.att.None? ==> AttachmentLink(r, h) == Read(None, r)
    ensures r.att.Some? && h.published && h.liveVersion ==> AttachmentLink(r, h) == ReadFilePath(r)
    ensures r.att.Some? && !(h.published && h.liveVersion) ==>
      && AttachmentLink(r, h).rec == r
      && AttachmentLink(r, h).value.Some?
      && ParseVersionedLink(AttachmentLink(r, h).value.value) == Some((r.attachmentId, r.attachmentVersion))
  {
    VersionedLinkRoundTrip(r.attachmentId, r.attachmentVersion);
  }

  // ----- One save -----

  /** Errors of an earlier attempt are dropped. A save goes through
      exactly when it ends without errors; it then saves or reverts the
      attachment as the save policy says, ends on the attachment's draft
      version and resets the four caches. One that is halted asks nothing
      of the attachment and leaves every cache as validation left it. */
  lemma SaveCycleOutcome(r: Record, h: Host, root: Option<Section>, p: Persistence)
    ensures var c := SaveCycle(r, h, root, p);
      var r0 := r.(errors := []);
      var v := Process(r0, h, root);
      && (c.saved <==> v.ok && !AttachmentInvalid(v.rec))
      && (c.saved <==> c.rec.errors == [])
      && (c.saved ==>
            && c.rec == ClearCaches(UpdateIfChanged(v.rec, h, p))
            && c.rec.caches == EMPTY_CACHES.(fileName := r.caches.fileName)
            && (c.rec.att.Some? ==> c.rec.attachmentVersion == Some(c.rec.att.value.draftVersion)))
      && (!c.saved ==>
            && c.rec.calls == r.calls
            && c.rec.caches == v.rec.caches
            && c.rec.att == v.rec.att)
  {
    var r0 := r.(errors := []);
    var v := Process(r0, h, root);
    ProcessAddsAtMostOneError(r0, h, root);
    UpdateKeepsHostFields(v.rec, h, p);
    if v.ok && v.rec.att.Some? {
      UpdatePolicy(v.rec, h, p);
    }
    if v.ok && AttachmentInvalid(v.rec) {
      ValidateAttachmentAppends(v.rec);
    }
    if r0.att.Some? || !FileBlank(r0.caches.file) {
      ProcessWithUpload(r0, h, root);
    } else {
      ProcessWithoutUpload(r0, h, root);
    }
  }
}
