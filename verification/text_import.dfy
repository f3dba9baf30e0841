/** The "Import Resume Content" dialog
    (`src/components/resume/management/dialogs/text-import-dialog.tsx`).
    Text extraction from a PDF and the AI call that merges the text into
    the resume are outside the model: their outcomes are parameters. */
module TextImport {
  import opened Wrappers
  import opened Strings
  import opened ResumeTypes

  const PdfType := "application/pdf"

  /** A notification shown by the dialog. */
  datatype Toast = Toast(title: string, description: string, destructive: bool)

  const InvalidFileToast :=
    Toast("Invalid File", "Please drop a PDF file.", true)
  const PdfErrorToast :=
    Toast("PDF Processing Error",
          "Failed to extract text from the PDF. Please try again or paste the content manually.", true)
  const NoContentToast :=
    Toast("No content", "Please enter some text to import.", true)
  const ImportedToast :=
    Toast("Import successful", "Your resume has been updated with the imported content.", false)
  const ImportFailedToast :=
    Toast("Import failed", "Failed to process the text. Please try again.", true)

  /** The dialog's state. */
  datatype ImportDialog = ImportDialog(open: bool, content: string, isProcessing: bool, isDragging: bool)

  /** A file handed over by the browser; only its MIME type matters. */
  datatype DroppedFile = DroppedFile(name: string, mimeType: string)

  /** Extracted text joins what is there with a blank line between. */
  function AppendText(prev: string, text: string): (r: string)
    ensures prev == "" ==> r == text
    ensures prev != "" ==> r == prev + "\n\n" + text
    ensures |r| == |prev| + |text| + (if prev == "" then 0 else 2)
    ensures r[..|prev|] == prev && r[|r| - |text|..] == text
  {
    prev + (if prev != "" then "\n\n" else "") + text
  }

  /** Two imports in a row keep both texts, in order, separated by the
      blank line, whichever was first. */
  lemma AppendTwice(prev: string, a: string, b: string)
    requires prev != "" || a != ""
    ensures AppendText(AppendText(prev, a), b) == AppendText(prev, a) + "\n\n" + b
  {
  }

  /** `files.find(file => file.type === "application/pdf")`, as an index. */
  function FirstPdf(files: seq<DroppedFile>): (i: int)
    ensures -1 <= i < |files|
    ensures i >= 0 ==> files[i].mimeType == PdfType
    ensures forall j :: 0 <= j < |files| && (i < 0 || j < i) ==> files[j].mimeType != PdfType
  {
    if |files| == 0 then -1
    else if files[0].mimeType == PdfType then 0
    else
      var rest := FirstPdf(files[1..]);
      if rest < 0 then -1 else rest + 1
  }

  /** The dialog after an event, with the toast it raised, if any. */
  datatype Step = Step(dialog: ImportDialog, toast: Option<Toast>)

  /** `handleDrag`: enter and over light the drop zone, leave dims it. */
  function Drag(d: ImportDialog, eventType: string): (d': ImportDialog)
    ensures eventType in {"dragenter", "dragover"} ==> d' == d.(isDragging := true)
    ensures eventType == "dragleave" ==> d' == d.(isDragging := false)
    ensures eventType !in {"dragenter", "dragover", "dragleave"} ==> d' == d
  {
    if eventType == "dragenter" || eventType == "dragover" then d.(isDragging := true)
    else if eventType == "dragleave" then d.(isDragging := false)
    else d
  }

  /** `handleDrop`: the first PDF among the dropped files is read;
      `extracted` is what reading it produced. */
  function Drop(d: ImportDialog, files: seq<DroppedFile>, extracted: Result<string, string>): (s: Step)
    ensures !s.dialog.isDragging
    ensures s.dialog == d.(isDragging := false, content := s.dialog.content)
    ensures FirstPdf(files) < 0 ==> s == Step(d.(isDragging := false), Some(InvalidFileToast))
    ensures FirstPdf(files) >= 0 && extracted.Success? ==>
      s == Step(d.(isDragging := false, content := AppendText(d.content, extracted.value)), None)
    ensures FirstPdf(files) >= 0 && extracted.Failure? ==>
      s == Step(d.(isDragging := false), Some(PdfErrorToast))
  {
    var d0 := d.(isDragging := false);
    if FirstPdf(files) < 0 then Step(d0, Some(InvalidFileToast))
    else match extracted
      case Success(text) => Step(d0.(content := AppendText(d.content, text)), None)
      case Failure(_) => Step(d0, Some(PdfErrorToast))
  }

  /** `handleFileInput`: only the first chosen file is looked at, and a
      file that is not a PDF is ignored without a word. */
  function FileInput(d: ImportDialog, files: seq<DroppedFile>, extracted: Result<string, string>): (s: Step)
    ensures (|files| == 0 || files[0].mimeType != PdfType) ==> s == Step(d, None)
    ensures |files| > 0 && files[0].mimeType == PdfType && extracted.Success? ==>
      s == Step(d.(content := AppendText(d.content, extracted.value)), None)
    ensures |files| > 0 && files[0].mimeType == PdfType && extracted.Failure? ==>
      s == Step(d, Some(PdfErrorToast))
  {
    if |files| == 0 || files[0].mimeType != PdfType then Step(d, None)
    else match extracted
      case Success(text) => Step(d.(content := AppendText(d.content, text)), None)
      case Failure(_) => Step(d, Some(PdfErrorToast))
  }

  /** A drop holding the same PDF first reads it as the file input would,
      apart from the drop zone's highlight. */
  lemma DropAgreesWithFileInput(d: ImportDialog, f: DroppedFile, extracted: Result<string, string>)
    requires f.mimeType == PdfType
    ensures Drop(d, [f], extracted).dialog == FileInput(d, [f], extracted).dialog.(isDragging := false)
    ensures Drop(d, [f], extracted).toast == FileInput(d, [f], extracted).toast
  {
  }

  /** The outcome of "Import": the dialog, the resume, the toast, and
      whether the AI was asked at all. */
  datatype ImportOutcome = ImportOutcome(dialog: ImportDialog, resume: Resume, toast: Toast, askedAI: bool)

  /** `handleImport`. `merged` is what `addTextToResume` returned, or the
      error it threw. On success every key of the returned object is
      written onto the resume. */
  function Import(d: ImportDialog, r: Resume, merged: Result<Resume, string>): (out: ImportOutcome)
    ensures out.askedAI <==> !IsBlank(d.content)
    ensures !out.askedAI ==> out == ImportOutcome(d, r, NoContentToast, false)
    ensures out.askedAI && merged.Success? ==>
      && out.resume == WritePresentKeys(r, merged.value, true)
      && out.dialog == d.(open := false, content := "", isProcessing := false)
      && out.toast == ImportedToast
    ensures out.askedAI && merged.Failure? ==>
      out == ImportOutcome(d.(isProcessing := false), r, ImportFailedToast, true)
  {
    TrimEmptyIffBlank(d.content);
    if Trim(d.content) == "" then ImportOutcome(d, r, NoContentToast, false)
    else match merged
      case Success(u) =>
        ImportOutcome(d.(open := false, content := "", isProcessing := false),
                      WritePresentKeys(r, u, true), ImportedToast, true)
      case Failure(_) => ImportOutcome(d.(isProcessing := false), r, ImportFailedToast, true)
  }

  /** A merged resume carrying every optional key replaces the resume
      outright, metadata included. */
  lemma ImportAdoptsCompleteResult(d: ImportDialog, r: Resume, u: Resume)
    requires !IsBlank(d.content)
    requires AllKeysPresent(u)
    ensures Import(d, r, Success(u)).resume == u
  {
    WritePresentKeysCopies(r, u);
  }

  /** A key the merged object leaves out keeps the resume's value. */
  lemma ImportKeepsOmittedContacts(d: ImportDialog, r: Resume, u: Resume, f: ContactField)
    requires !IsBlank(d.content)
    requires ResumeContact(u, f).None?
    ensures ResumeContact(Import(d, r, Success(u)).resume, f) == ResumeContact(r, f)
  {
    assert Import(d, r, Success(u)).resume == WritePresentKeys(r, u, true);
    WritePresentKeysKeepsAbsent(r, u, true, f);
  }
}
