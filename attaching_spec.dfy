/** The attachment protocol of `Cms::Behaviors::Attaching` on values: the
    host record's transient caches and dirty mark, its attachment, and one
    pure function per instance method giving the record it leaves behind.
    The classes in module Attaching are proved against these functions; the
    lemmas here state what the protocol promises. */
module AttachingSpec {

  import opened Wrappers
  import opened Text
  import Sanitization

  /** What `attachment_file` can hold: an uploaded-file handle, of which
      only the original file name is used here, or the empty string a form
      posts for an empty file field, which is `blank?` but still truthy. */
  datatype Upload = Upload(originalFilename: string) | EmptyField

  /** `attachment_file.blank?`: nil or the empty form value. */
  predicate FileBlank(f: Option<Upload>) {
    f.None? || f.value.EmptyField?
  }

  /** A section of the site tree. */
  datatype Section = Section(id: int)

  /** An error the attachment's own validation reports on one of its fields. */
  datatype AttachmentError = AttachmentError(field: string, message: string)

  /** The host fields errors are reported on. */
  datatype HostField = AttachmentFile | AttachmentFilePath

  datatype HostError = HostError(field: HostField, message: string)

  /** A persistence operation the host asked the attachment to perform. */
  datatype Call = Saved | RevertedTo(version: Option<int>) | Published

  /** The attachment's attributes as this code reads and writes them;
      `changed` is `changed?`, whether it holds unsaved attribute changes,
      and `errors` is what the attachment's own validation reports. */
  datatype AttachmentData = AttachmentData(
    filePath: Option<string>,
    fileName: Option<string>,
    section: Option<Section>,
    sectionId: Option<int>,
    tempFile: Option<Upload>,
    archived: bool,
    changed: bool,
    draftVersion: int,
    errors: seq<AttachmentError>)

  /** What `build_attachment` produces: every attribute unset. */
  const NEW_ATTACHMENT := AttachmentData(None, None, None, None, None, false, false, 0, [])

  /** The instance-variable caches `@attachment_file`, `@attachment_file_name`,
      `@attachment_file_path`, `@attachment_section_id`, `@attachment_section`. */
  datatype Caches = Caches(
    file: Option<Upload>,
    fileName: Option<string>,
    filePath: Option<string>,
    sectionId: Option<int>,
    section: Option<Section>)

  const EMPTY_CACHES := Caches(None, None, None, None, None)

  /** The state of one host record: caches, the dirty mark (`dirty!`), the
      attachment it belongs to, its own columns, its error list, and the
      operations it has asked the attachment to perform. */
  datatype Record = Record(
    caches: Caches,
    dirty: bool,
    att: Option<AttachmentData>,
    attachmentId: Option<int>,
    attachmentVersion: Option<int>,
    archived: bool,
    newRecord: bool,
    errors: seq<HostError>,
    calls: seq<Call>)

  /** The record `revert_to_version` designates. */
  datatype Revision = Revision(attachmentVersion: Option<int>)

  /** A host's `set_attachment_path`: the file path it leaves on the attachment. */
  type PathHook = (Caches, AttachmentData) -> Option<string>

  /** A host's `set_attachment_section`: the section it leaves on the attachment. */
  type SectionHook = (Caches, AttachmentData) -> Option<Section>

  /** What the host type and instance provide: `archivable?`, the two
      optional hooks, `revert_to_version` (None when the host has no such
      accessor or it is nil), `published?` and `live_version?`. */
  datatype Host = Host(
    archivable: bool,
    pathHook: Option<PathHook>,
    sectionHook: Option<SectionHook>,
    revertTarget: Option<Revision>,
    published: bool,
    liveVersion: bool)

  /** The attachment's own persistence operations, whose effects are not
      part of this code: `save` (with its success flag), `revert_to`, `publish`. */
  datatype Persistence = Persistence(
    save: AttachmentData -> (bool, AttachmentData),
    revertTo: (AttachmentData, Option<int>) -> AttachmentData,
    publish: AttachmentData -> AttachmentData)

  /** A value read through a getter together with the record it leaves. */
  datatype Read<T> = Read(value: T, rec: Record)

  const MUST_UPLOAD := "You must upload a file"
  const FILE_NAME_REQUIRED := "File Name is required for attachment"
  const SECTION_REQUIRED := "Section is required for attachment"
  const ATTACHMENT_ROOT := "/attachments/"
  const LINK_PREFIX := "/cms/attachments/"
  const VERSION_QUERY := "?version="

  // ----- Getters: `@x ||= attachment ? attachment.x : nil` -----

  /** `cached || fallback`: a set cache wins, otherwise the fallback is taken. */
  function OrElse<T>(cached: Option<T>, fallback: Option<T>): Option<T> {
    if cached.Some? then cached else fallback
  }

  function ReadFile(r: Record): (res: Read<Option<Upload>>)
    ensures res.rec == r.(caches := r.caches.(file := res.value))
  {
    var v := OrElse(r.caches.file, if r.att.Some? then r.att.value.tempFile else None);
    Read(v, r.(caches := r.caches.(file := v)))
  }

  function ReadFileName(r: Record): (res: Read<Option<string>>)
    ensures res.rec == r.(caches := r.caches.(fileName := res.value))
  {
    var v := OrElse(r.caches.fileName, if r.att.Some? then r.att.value.fileName else None);
    Read(v, r.(caches := r.caches.(fileName := v)))
  }

  function ReadFilePath(r: Record): (res: Read<Option<string>>)
    ensures res.rec == r.(caches := r.caches.(filePath := res.value))
  {
    var v := OrElse(r.caches.filePath, if r.att.Some? then r.att.value.filePath else None);
    Read(v, r.(caches := r.caches.(filePath := v)))
  }

  function ReadSectionId(r: Record): (res: Read<Option<int>>)
    ensures res.rec == r.(caches := r.caches.(sectionId := res.value))
  {
    var v := OrElse(r.caches.sectionId, if r.att.Some? then r.att.value.sectionId else None);
    Read(v, r.(caches := r.caches.(sectionId := v)))
  }

  function ReadSection(r: Record): (res: Read<Option<Section>>)
    ensures res.rec == r.(caches := r.caches.(section := res.value))
  {
    var v := OrElse(r.caches.section, if r.att.Some? then r.att.value.section else None);
    Read(v, r.(caches := r.caches.(section := v)))
  }

  // ----- Setters -----

  function SetFile(r: Record, f: Option<Upload>): Record {
    if r.caches.file != f then r.(dirty := true, caches := r.caches.(file := f)) else r
  }

  /** `file_path.to_s`: nil becomes the empty string. */
  function ToS(s: Option<string>): string {
    if s.None? then "" else s.value
  }

  function SetFilePath(r: Record, p: Option<string>): Record {
    var fp := Some(Sanitization.SanitizeFilePath(ToS(p)));
    if r.caches.filePath != fp then r.(dirty := true, caches := r.caches.(filePath := fp)) else r
  }

  function SetSectionId(r: Record, id: Option<int>): Record {
    if r.caches.sectionId != id then r.(dirty := true, caches := r.caches.(sectionId := id)) else r
  }

  function SectionIdOf(s: Option<Section>): Option<int> {
    if s.Some? then Some(s.value.id) else None
  }

  function SetSection(r: Record, s: Option<Section>): Record {
    if r.caches.section != s then
      r.(dirty := true, caches := r.caches.(sectionId := SectionIdOf(s), section := s))
    else r
  }

  /** `clear_attachment_ivars`: every cache but the file name's is reset. */
  function ClearCaches(r: Record): Record {
    r.(caches := r.caches.(file := None, filePath := None, sectionId := None, section := None))
  }

  // ----- Writes to the attachment's attributes -----

  /** `attachment.file_path = p`: a different value is an unsaved change. */
  function WritePath(a: AttachmentData, p: Option<string>): AttachmentData {
    a.(filePath := p, changed := a.changed || a.filePath != p)
  }

  /** `attachment.section = s`: the association also sets the `section_id`
      column, and a different id is an unsaved change. */
  function WriteSection(a: AttachmentData, s: Option<Section>): AttachmentData {
    a.(section := s, sectionId := SectionIdOf(s), changed := a.changed || a.sectionId != SectionIdOf(s))
  }

  /** `attachment.archived = b`: a different value is an unsaved change. */
  function WriteArchived(a: AttachmentData, b: bool): AttachmentData {
    a.(archived := b, changed := a.changed || a.archived != b)
  }

  // ----- Validation: `process_attachment` -----

  function AddError(r: Record, field: HostField, message: string): Record {
    r.(errors := r.errors + [HostError(field, message)])
  }

  function WithAttachment(r: Record, a: AttachmentData): Record {
    r.(att := Some(a))
  }

  /** `"/attachments/" + File.basename(original_filename).downcase`. */
  function DefaultFilePath(u: Upload): string
    requires u.Upload?
  {
    ATTACHMENT_ROOT + Downcase(Basename(u.originalFilename))
  }

  /** `use_default_attachment_path`. */
  function UseDefaultPath(r: Record): (r': Record)
    requires r.att.Some?
    ensures r'.att.Some?
    ensures r'.att.value.(filePath := r.att.value.filePath, changed := r.att.value.changed) == r.att.value
    ensures r'.att.value.changed <==> r.att.value.changed || r'.att.value.filePath != r.att.value.filePath
    ensures r'.(att := r.att, caches := r.caches) == r
    ensures r'.caches.(file := r.caches.file) == r.caches
    ensures FileBlank(r'.caches.file) ==> r'.att == r.att
  {
    var f := ReadFile(r);
    if !FileBlank(f.value) then
      WithAttachment(f.rec, WritePath(f.rec.att.value, Some(DefaultFilePath(f.value.value))))
    else f.rec
  }

  /** `use_default_attachment_section`; `root` is `Cms::Section.root.first`. */
  function UseDefaultSection(r: Record, root: Option<Section>): (r': Record)
    requires r.att.Some?
    ensures r'.att.Some?
    ensures r'.att.value.(section := r.att.value.section, sectionId := r.att.value.sectionId,
                          changed := r.att.value.changed) == r.att.value
    ensures r'.att.value.changed <==> r.att.value.changed || r'.att.value.sectionId != r.att.value.sectionId
    ensures r'.(att := r.att, caches := r.caches) == r
    ensures r'.caches.(file := r.caches.file) == r.caches
    ensures FileBlank(r'.caches.file) ==> r'.att == r.att
    ensures !FileBlank(r'.caches.file) ==> r'.att.value.section == root && r'.att.value.sectionId == SectionIdOf(root)
  {
    var f := ReadFile(r);
    if !FileBlank(f.value) then WithAttachment(f.rec, WriteSection(f.rec.att.value, root)) else f.rec
  }

  /** `handle_setting_attachment_path`: the host's hook if it has one. */
  function HandlePath(r: Record, h: Host): (r': Record)
    requires r.att.Some?
    ensures r'.att.Some?
    ensures r'.att.value.(filePath := r.att.value.filePath, changed := r.att.value.changed) == r.att.value
    ensures r'.att.value.changed <==> r.att.value.changed || r'.att.value.filePath != r.att.value.filePath
    ensures r'.(att := r.att, caches := r.caches) == r
    ensures r'.caches.(file := r.caches.file) == r.caches
  {
    if h.pathHook.Some? then
      WithAttachment(r, WritePath(r.att.value, h.pathHook.value(r.caches, r.att.value)))
    else UseDefaultPath(r)
  }

  /** `handle_setting_attachment_section`: the host's hook if it has one. */
  function HandleSection(r: Record, h: Host, root: Option<Section>): (r': Record)
    requires r.att.Some?
    ensures r'.att.Some?
    ensures r'.att.value.(section := r.att.value.section, sectionId := r.att.value.sectionId,
                          changed := r.att.value.changed) == r.att.value
    ensures r'.att.value.changed <==> r.att.value.changed || r'.att.value.sectionId != r.att.value.sectionId
    ensures r'.(att := r.att, caches := r.caches) == r
    ensures r'.caches.(file := r.caches.file) == r.caches
  {
    if h.sectionHook.Some? then
      WithAttachment(r, WriteSection(r.att.value, h.sectionHook.value(r.caches, r.att.value)))
    else UseDefaultSection(r, root)
  }

  /** The outcome of `process_attachment`: false when it returns false. */
  datatype Validation = Validation(ok: bool, rec: Record)

  /** `build_attachment if attachment.nil?` followed by
      `attachment.temp_file = attachment_file`. */
  function StageFile(r: Record): (r': Record)
    ensures r'.att.Some? && r'.att.value.tempFile == r'.caches.file
  {
    var built := if r.att.None? then WithAttachment(r, NEW_ATTACHMENT) else r;
    var pending := ReadFile(built);
    WithAttachment(pending.rec, pending.rec.att.value.(tempFile := pending.value))
  }

  /** The path taken when a file is pending or an attachment exists. */
  function ProcessUpload(r: Record, h: Host, root: Option<Section>): Validation {
    var staged := StageFile(r);
    var pathed := HandlePath(staged, h);
    if BlankOpt(pathed.att.value.filePath) then
      Validation(false, AddError(pathed, AttachmentFilePath, FILE_NAME_REQUIRED))
    else
      var sectioned := HandleSection(pathed, h, root);
      if sectioned.att.value.section.None? then
        Validation(false, AddError(sectioned, AttachmentFile, SECTION_REQUIRED))
      else Validation(true, sectioned)
  }

  /** The path taken with no attachment and no file: a path or a section id
      without a file is refused. */
  function ProcessNoUpload(r: Record): Validation {
    var path := ReadFilePath(r);
    if !BlankOpt(path.value) then Validation(false, AddError(path.rec, AttachmentFile, MUST_UPLOAD))
    else
      var sid := ReadSectionId(path.rec);
      if sid.value.Some? then Validation(false, AddError(sid.rec, AttachmentFile, MUST_UPLOAD))
      else Validation(true, sid.rec)
  }

  /** `process_attachment`, the first line's read of `attachment_file` included. */
  function Process(r: Record, h: Host, root: Option<Section>): Validation {
    var logged := ReadFile(r).rec;
    if logged.att.None? && FileBlank(ReadFile(logged).value) then ProcessNoUpload(ReadFile(logged).rec)
    else ProcessUpload(logged, h, root)
  }

  // ----- The `validates_each :attachment_file` block -----

  function RemapField(field: string): HostField {
    if field == "file_path" then AttachmentFilePath else AttachmentFile
  }

  /** The host errors the attachment's errors become, in their order. */
  function Remap(errs: seq<AttachmentError>): seq<HostError> {
    if errs == [] then []
    else Remap(errs[..|errs| - 1]) + [HostError(RemapField(errs[|errs| - 1].field), errs[|errs| - 1].message)]
  }

  function ValidateAttachment(r: Record): Record {
    if r.att.Some? && r.att.value.errors != [] then r.(errors := r.errors + Remap(r.att.value.errors))
    else r
  }

  // ----- Saving: `update_attachment_if_changed` -----

  /** Whether the save branch runs (when no revert is requested). */
  predicate NeedsSave(r: Record, a: AttachmentData) {
    r.newRecord || a.changed || a.tempFile.Some?
  }

  function UpdateIfChanged(r: Record, h: Host, p: Persistence): Record {
    if r.att.None? then r
    else
      var a := if h.archivable then WriteArchived(r.att.value, r.archived) else r.att.value;
      if h.revertTarget.Some? then
        var v := h.revertTarget.value.attachmentVersion;
        var a' := p.revertTo(a, v);
        r.(att := Some(a'), attachmentVersion := Some(a'.draftVersion), calls := r.calls + [RevertedTo(v)])
      else if NeedsSave(r, a) then
        var a' := p.save(a).1;
        r.(att := Some(a'), attachmentVersion := Some(a'.draftVersion), calls := r.calls + [Saved])
      else r.(att := Some(a), attachmentVersion := Some(a.draftVersion))
  }

  // ----- One save, in callback order -----

  /** The outcome of one save of the host: whether it went through. */
  datatype Saving = Saving(saved: bool, rec: Record)

  /** The attachment reports errors of its own. */
  predicate AttachmentInvalid(r: Record) {
    r.att.Some? && r.att.value.errors != []
  }

  /** `valid?` empties the error list; then come `process_attachment`
      before validation (a false result halts the save), the
      `validates_each` block (an invalid attachment halts it),
      `update_attachment_if_changed` before the row is written and
      `clear_attachment_ivars` after it. */
  function SaveCycle(r: Record, h: Host, root: Option<Section>, p: Persistence): Saving {
    var v := Process(r.(errors := []), h, root);
    if !v.ok then Saving(false, v.rec)
    else if AttachmentInvalid(v.rec) then Saving(false, ValidateAttachment(v.rec))
    else Saving(true, ClearCaches(UpdateIfChanged(v.rec, h, p)))
  }

  // ----- Accessors and hooks -----

  function AfterPublish(r: Record, p: Persistence): Record {
    if r.att.Some? then r.(att := Some(p.publish(r.att.value)), calls := r.calls + [Published]) else r
  }

  /** `after_as_of_version`; `find` is `Cms::Attachment.find(id).as_of_version(version)`. */
  function AfterAsOfVersion(r: Record, find: (int, int) -> AttachmentData): Record {
    if r.attachmentId.Some? && r.attachmentVersion.Some? then
      r.(att := Some(find(r.attachmentId.value, r.attachmentVersion.value)))
    else r
  }

  function VersionedLink(id: Option<int>, version: Option<int>): string {
    LINK_PREFIX + ShowOpt(id) + VERSION_QUERY + ShowOpt(version)
  }

  function AttachmentLink(r: Record, h: Host): Read<Option<string>> {
    if r.att.None? then Read(None, r)
    else if h.published && h.liveVersion then ReadFilePath(r)
    else Read(Some(VersionedLink(r.attachmentId, r.attachmentVersion)), r)
  }
}
