/** `Cms::Behaviors::Attaching` as objects: the attachment and the host
    record whose instance methods update the caches, the dirty mark, the
    error list and the attachment in place. Every method is proved to leave
    the state that the matching function of module AttachingSpec gives. */
module Attaching {

  import opened Wrappers
  import opened Text
  import opened AttachingSpec

  /** The attachment, as far as this code reads and writes it. Its own
      persistence operations are those of a `Persistence` value. */
  class Attachment {
    var filePath: Option<string>
    var fileName: Option<string>
    var section: Option<Section>
    var sectionId: Option<int>
    var tempFile: Option<Upload>
    var archived: bool
    var changed: bool
    var draftVersion: int
    var errors: seq<AttachmentError>

    function Data(): AttachmentData
      reads this
    {
      AttachmentData(filePath, fileName, section, sectionId, tempFile, archived, changed, draftVersion, errors)
    }

    /** `build_attachment`. */
    constructor Build()
      ensures Data() == NEW_ATTACHMENT
    {
      filePath, fileName, section, sectionId, tempFile := None, None, None, None, None;
      archived, changed, draftVersion, errors := false, false, 0, [];
    }

    /** An attachment as the persistence layer hands it back. */
    constructor Load(d: AttachmentData)
      ensures Data() == d
    {
      filePath, fileName, section, sectionId, tempFile := d.filePath, d.fileName, d.section, d.sectionId, d.tempFile;
      archived, changed, draftVersion, errors := d.archived, d.changed, d.draftVersion, d.errors;
    }

    method Become(d: AttachmentData)
      modifies this
      ensures Data() == d
    {
      filePath, fileName, section, sectionId, tempFile := d.filePath, d.fileName, d.section, d.sectionId, d.tempFile;
      archived, changed, draftVersion, errors := d.archived, d.changed, d.draftVersion, d.errors;
    }

    /** The `file_path=` writer, with `changed?` tracking. */
    method SetFilePath(p: Option<string>)
      modifies this
      ensures Data() == WritePath(old(Data()), p)
    {
      if filePath != p {
        changed := true;
      }
      filePath := p;
    }

    /** The `section=` writer, which also sets the `section_id` column. */
    method SetSection(s: Option<Section>)
      modifies this
      ensures Data() == WriteSection(old(Data()), s)
    {
      var id := SectionIdOf(s);
      if sectionId != id {
        changed := true;
      }
      section, sectionId := s, id;
    }

    /** The `archived=` writer, with `changed?` tracking. */
    method SetArchived(b: bool)
      modifies this
      ensures Data() == WriteArchived(old(Data()), b)
    {
      if archived != b {
        changed := true;
      }
      archived := b;
    }

    method Save(p: Persistence) returns (ok: bool)
      modifies this
      ensures (ok, Data()) == p.save(old(Data()))
    {
      var result := p.save(Data());
      ok := result.0;
      Become(result.1);
    }

    method RevertTo(version: Option<int>, p: Persistence)
      modifies this
      ensures Data() == p.revertTo(old(Data()), version)
    {
      Become(p.revertTo(Data(), version));
    }

    method Publish(p: Persistence)
      modifies this
      ensures Data() == p.publish(old(Data()))
    {
      Become(p.publish(Data()));
    }
  }

  /** A content record that belongs to an attachment. */
  class AttachableRecord {
    // The transient caches.
    var file: Option<Upload>
    var fileName: Option<string>
    var filePath: Option<string>
    var sectionId: Option<int>
    var section: Option<Section>

    /** Set by `dirty!`: the row must be written even if no column changed. */
    var dirty: bool

    var attachment: Attachment?
    var attachmentId: Option<int>
    var attachmentVersion: Option<int>
    var archived: bool
    var newRecord: bool
    var errors: seq<HostError>

    /** The operations this record has asked its attachment to perform. */
    ghost var calls: seq<Call>

    /** The host type's and instance's answers to the `respond_to?` probes. */
    const host: Host

    function CurrentCaches(): Caches
      reads this
    {
      Caches(file, fileName, filePath, sectionId, section)
    }

    ghost function Model(): Record
      reads this, attachment
    {
      Record(CurrentCaches(), dirty,
             if attachment == null then None else Some(attachment.Data()),
             attachmentId, attachmentVersion, archived, newRecord, errors, calls)
    }

    /** A new record without an attachment. */
    constructor (host: Host)
      ensures this.host == host
      ensures Model() == Record(EMPTY_CACHES, false, None, None, None, false, true, [], [])
    {
      this.host := host;
      file, fileName, filePath, sectionId, section := None, None, None, None, None;
      dirty, attachment, attachmentId, attachmentVersion := false, null, None, None;
      archived, newRecord, errors := false, true, [];
      calls := [];
    }

    // ----- Getters -----

    method AttachmentFile() returns (f: Option<Upload>)
      modifies this
      ensures attachment == old(attachment)
      ensures Read(f, Model()) == ReadFile(old(Model()))
    {
      if file.None? {
        file := if attachment != null then attachment.tempFile else None;
      }
      f := file;
    }

    method AttachmentFileName() returns (n: Option<string>)
      modifies this
      ensures attachment == old(attachment)
      ensures Read(n, Model()) == ReadFileName(old(Model()))
    {
      if fileName.None? {
        fileName := if attachment != null then attachment.fileName else None;
      }
      n := fileName;
    }

    method AttachmentFilePath() returns (p: Option<string>)
      modifies this
      ensures attachment == old(attachment)
      ensures Read(p, Model()) == ReadFilePath(old(Model()))
    {
      if filePath.None? {
        filePath := if attachment != null then attachment.filePath else None;
      }
      p := filePath;
    }

    method AttachmentSectionId() returns (id: Option<int>)
      modifies this
      ensures attachment == old(attachment)
      ensures Read(id, Model()) == ReadSectionId(old(Model()))
    {
      if sectionId.None? {
        sectionId := if attachment != null then attachment.sectionId else None;
      }
      id := sectionId;
    }

    method AttachmentSection() returns (s: Option<Section>)
      modifies this
      ensures attachment == old(attachment)
      ensures Read(s, Model()) == ReadSection(old(Model()))
    {
      if section.None? {
        section := if attachment != null then attachment.section else None;
      }
      s := section;
    }

    // ----- Setters -----

    /** `dirty!`. */
    method MarkDirty()
      modifies this
      ensures attachment == old(attachment)
      ensures Model() == old(Model()).(dirty := true)
    {
      dirty := true;
    }

    method SetAttachmentFile(f: Option<Upload>)
      modifies this
      ensures attachment == old(attachment)
      ensures Model() == SetFile(old(Model()), f)
    {
      if file != f {
        MarkDirty();
        file := f;
      }
    }

    method SetAttachmentFilePath(p: Option<string>)
      modifies this
      ensures attachment == old(attachment)
      ensures Model() == SetFilePath(old(Model()), p)
    {
      var fp := Some(Sanitization.SanitizeFilePath(ToS(p)));
      if filePath != fp {
        MarkDirty();
        filePath := fp;
      }
    }

    method SetAttachmentSectionId(id: Option<int>)
      modifies this
      ensures attachment == old(attachment)
      ensures Model() == SetSectionId(old(Model()), id)
    {
      if sectionId != id {
        MarkDirty();
        sectionId := id;
      }
    }

    method SetAttachmentSection(s: Option<Section>)
      modifies this
      ensures attachment == old(attachment)
      ensures Model() == SetSection(old(Model()), s)
    {
      if section != s {
        MarkDirty();
        sectionId := SectionIdOf(s);
        section := s;
      }
    }

    method ClearAttachmentIvars()
      modifies this
      ensures attachment == old(attachment)
      ensures Model() == ClearCaches(old(Model()))
    {
      file, filePath, sectionId, section := None, None, None, None;
    }

    // ----- Validation -----

    method UseDefaultAttachmentPath()
      requires attachment != null
      modifies this, attachment
      ensures attachment == old(attachment)
      ensures Model() == UseDefaultPath(old(Model()))
    {
      var f := AttachmentFile();
      if !FileBlank(f) {
        attachment.SetFilePath(Some(DefaultFilePath(f.value)));
      }
    }

    method UseDefaultAttachmentSection(root: Option<Section>)
      requires attachment != null
      modifies this, attachment
      ensures attachment == old(attachment)
      ensures Model() == UseDefaultSection(old(Model()), root)
    {
      var f := AttachmentFile();
      if !FileBlank(f) {
        attachment.SetSection(root);
      }
    }

    method HandleSettingAttachmentPath()
      requires attachment != null
      modifies this, attachment
      ensures attachment == old(attachment)
      ensures Model() == HandlePath(old(Model()), host)
    {
      if host.pathHook.Some? {
        attachment.SetFilePath(host.pathHook.value(CurrentCaches(), attachment.Data()));
      } else {
        UseDefaultAttachmentPath();
      }
    }

    method HandleSettingAttachmentSection(root: Option<Section>)
      requires attachment != null
      modifies this, attachment
      ensures attachment == old(attachment)
      ensures Model() == HandleSection(old(Model()), host, root)
    {
      if host.sectionHook.Some? {
        attachment.SetSection(host.sectionHook.value(CurrentCaches(), attachment.Data()));
      } else {
        UseDefaultAttachmentSection(root);
      }
    }

    /** `process_attachment`: stages the pending file on the attachment
        (building one when needed) and fills its path and section, or,
        with neither attachment nor file, refuses a stray path or section id. */
    method ProcessAttachment(root: Option<Section>) returns (ok: bool)
      modifies this, attachment
      ensures old(attachment) != null ==> attachment == old(attachment)
      ensures old(attachment) == null && attachment != null ==> fresh(attachment)
      ensures Validation(ok, Model()) == Process(old(Model()), host, root)
    {
      var logged := AttachmentFile();
      var noUpload := false;
      if attachment == null {
        var f := AttachmentFile();
        noUpload := FileBlank(f);
      }
      if noUpload {
        ok := RefuseStrayFields();
      } else {
        ok := StageUpload(root);
      }
    }

    /** The branch of `process_attachment` with no attachment and no file. */
    method RefuseStrayFields() returns (ok: bool)
      modifies this
      ensures attachment == old(attachment)
      ensures Validation(ok, Model()) == ProcessNoUpload(old(Model()))
    {
      var path := AttachmentFilePath();
      if !BlankOpt(path) {
        errors := errors + [HostError(HostField.AttachmentFile, MUST_UPLOAD)];
        return false;
      }
      var id := AttachmentSectionId();
      if id.Some? {
        errors := errors + [HostError(HostField.AttachmentFile, MUST_UPLOAD)];
        return false;
      }
      return true;
    }

    /** Builds the attachment when there is none and hands it the pending file. */
    method StageFile()
      modifies this, attachment
      ensures old(attachment) != null ==> attachment == old(attachment)
      ensures old(attachment) == null ==> attachment != null && fresh(attachment)
      ensures Model() == AttachingSpec.StageFile(old(Model()))
    {
      if attachment == null {
        attachment := new Attachment.Build();
      }
      var pending := AttachmentFile();
      attachment.tempFile := pending;
    }

    /** The branch of `process_attachment` with a file or an attachment. */
    method StageUpload(root: Option<Section>) returns (ok: bool)
      modifies this, attachment
      ensures old(attachment) != null ==> attachment == old(attachment)
      ensures old(attachment) == null ==> attachment != null && fresh(attachment)
      ensures Validation(ok, Model()) == ProcessUpload(old(Model()), host, root)
    {
      StageFile();
      HandleSettingAttachmentPath();
      if BlankOpt(attachment.filePath) {
        errors := errors + [HostError(HostField.AttachmentFilePath, FILE_NAME_REQUIRED)];
        return false;
      }
      HandleSettingAttachmentSection(root);
      if attachment.section.None? {
        errors := errors + [HostError(HostField.AttachmentFile, SECTION_REQUIRED)];
        return false;
      }
      return true;
    }

    /** The `validates_each :attachment_file` block. */
    method ValidateAttachmentFile()
      modifies this
      ensures attachment == old(attachment)
      ensures Model() == ValidateAttachment(old(Model()))
    {
      if attachment != null && attachment.errors != [] {
        var errs := attachment.errors;
        var i := 0;
        while i < |errs|
          invariant 0 <= i <= |errs|
          invariant attachment == old(attachment)
          invariant Model() == old(Model()).(errors := old(errors) + Remap(errs[..i]))
        {
          var e := errs[i];
          if e.field == "file_path" {
            errors := errors + [HostError(HostField.AttachmentFilePath, e.message)];
          } else {
            errors := errors + [HostError(HostField.AttachmentFile, e.message)];
          }
          assert errs[..i + 1][..i] == errs[..i];
          i := i + 1;
        }
        assert errs[..|errs|] == errs;
      }
    }

    // ----- Saving -----

    method UpdateAttachmentIfChanged(p: Persistence)
      modifies this, attachment
      ensures attachment == old(attachment)
      ensures Model() == UpdateIfChanged(old(Model()), host, p)
    {
      if attachment != null {
        if host.archivable {
          attachment.SetArchived(archived);
        }
        if host.revertTarget.Some? {
          var version := host.revertTarget.value.attachmentVersion;
          attachment.RevertTo(version, p);
          calls := calls + [RevertedTo(version)];
        } else if newRecord || attachment.changed || attachment.tempFile.Some? {
          var savedAttach := attachment.Save(p);
          calls := calls + [Saved];
        }
        attachmentVersion := Some(attachment.draftVersion);
      }
    }

    /** One save of the record with its callbacks run in their order. */
    method Save(root: Option<Section>, p: Persistence) returns (saved: bool)
      modifies this, attachment
      ensures old(attachment) != null ==> attachment == old(attachment)
      ensures old(attachment) == null && attachment != null ==> fresh(attachment)
      ensures Saving(saved, Model()) == SaveCycle(old(Model()), host, root, p)
    {
      errors := [];
      assert Model() == old(Model()).(errors := []);
      var ok := ProcessAttachment(root);
      if !ok {
        return false;
      }
      if attachment != null && attachment.errors != [] {
        ValidateAttachmentFile();
        return false;
      }
      UpdateAttachmentIfChanged(p);
      ClearAttachmentIvars();
      saved := true;
    }

    // ----- Accessors and hooks -----

    method AfterPublish(p: Persistence)
      modifies this, attachment
      ensures attachment == old(attachment)
      ensures Model() == AttachingSpec.AfterPublish(old(Model()), p)
    {
      if attachment != null {
        attachment.Publish(p);
        calls := calls + [Published];
      }
    }

    /** `find` stands for `Cms::Attachment.find(id).as_of_version(version)`. */
    method AfterAsOfVersion(find: (int, int) -> AttachmentData)
      modifies this
      ensures attachment != old(attachment) ==> fresh(attachment)
      ensures Model() == AttachingSpec.AfterAsOfVersion(old(Model()), find)
    {
      if attachmentId.Some? && attachmentVersion.Some? {
        attachment := new Attachment.Load(find(attachmentId.value, attachmentVersion.value));
      }
    }

    method AttachmentLink() returns (link: Option<string>)
      modifies this
      ensures attachment == old(attachment)
      ensures Read(link, Model()) == AttachingSpec.AttachmentLink(old(Model()), host)
    {
      if attachment == null {
        link := None;
      } else if host.published && host.liveVersion {
        link := AttachmentFilePath();
      } else {
        link := Some(VersionedLink(attachmentId, attachmentVersion));
      }
    }
  }
}
