/** Concrete instances of the attachment protocol's promises. */
module AttachingExamples {

  import opened Wrappers
  import opened Text
  import Sanitization
  import opened AttachingSpec
  import opened AttachingProperties

  lemma DowncaseExample(name: string)
    requires name == "My Photo.PNG"
    ensures Downcase(name) == "my photo.png"
  {
    var d := Downcase(name);
    assert |d| == 12;
    assert d[0] == 'm';
    assert d[1] == 'y';
    assert d[2] == ' ';
    assert d[3] == 'p';
    assert d[4] == 'h';
    assert d[5] == 'o';
    assert d[6] == 't';
    assert d[7] == 'o';
    assert d[8] == '.';
    assert d[9] == 'p';
    assert d[10] == 'n';
    assert d[11] == 'g';
  }

  /** The default path is lower-cased but not sanitised: the space survives. */
  lemma DefaultFilePathExample(name: string, path: string)
    requires name == "My Photo.PNG" && path == "/attachments/my photo.png"
    ensures DefaultFilePath(Upload(name)) == path
  {
    assert forall i | 0 <= i < |name| :: name[i] != '/';
    BasenameOfPlainName(name);
    DowncaseExample(name);
    var d := Downcase(Basename(name));
    assert d == Downcase(name);
    PhotoUnderRoot(d, path);
  }

  lemma PhotoUnderRoot(lower: string, path: string)
    requires lower == "my photo.png" && path == "/attachments/my photo.png"
    ensures ATTACHMENT_ROOT + lower == path
  {
  }

  lemma ReportPath(name: string)
    requires name == "report.pdf"
    ensures DefaultFilePath(Upload(name)) == "/attachments/report.pdf"
  {
    assert forall i | 0 <= i < |name| :: name[i] != '/' && !('A' <= name[i] <= 'Z');
    BasenameOfPlainName(name);
    DowncaseKeepsLowerCase(name);
    ReportUnderRoot(name, "/attachments/report.pdf");
  }

  lemma ReportUnderRoot(name: string, path: string)
    requires name == "report.pdf" && path == "/attachments/report.pdf"
    ensures ATTACHMENT_ROOT + name == path
  {
  }

  /** A new record given only an upload "report.pdf", on a host without
      hooks and with a root section: validation passes with the path
      "/attachments/report.pdf" and the root section, the save step saves,
      the record ends on the saved draft version, and the caches are reset. */
  lemma ReportUploadCycle(h: Host, root: Section, p: Persistence, r: Record)
    requires h.pathHook.None? && h.sectionHook.None? && h.revertTarget.None?
    requires r.att.None? && r.newRecord
    requires r.caches == EMPTY_CACHES.(file := Some(Upload("report.pdf")))
    ensures var v := Process(r, h, Some(root));
      && v.ok
      && v.rec.att.Some?
      && v.rec.att.value.filePath == Some("/attachments/report.pdf")
      && v.rec.att.value.section == Some(root)
      && var u := UpdateIfChanged(ValidateAttachment(v.rec), h, p);
      && u.att.Some?
      && u.calls == r.calls + [Saved]
      && u.attachmentVersion == Some(u.att.value.draftVersion)
      && ClearCaches(u).caches == EMPTY_CACHES
  {
    var v := Process(r, h, Some(root));
    ProcessDefaultsWithFile(r, h, Some(root));
    ProcessWithUpload(r, h, Some(root));
    ReportPath("report.pdf");
    assert v.rec.att.value.errors == [];
    var w := ValidateAttachment(v.rec);
    assert w == v.rec;
    assert w.newRecord;
    UpdatePolicy(w, h, p);
  }

  lemma SanitizeExample()
    ensures Sanitization.SanitizeFilePath("a b&c=d") == "a_b-cd"
  {
    Sanitization.CleanEachExample();
    Sanitization.SanitizeIsCharwise("a b&c=d");
  }
}
