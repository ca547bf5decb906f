/** The "New Interview Setup" dialog: a required-field check, the choice between
    pasted and extracted job-description text, the hand-off to `onCreate`, and
    the form reset after a success. `handleCreate` is asynchronous, so it is
    split at its first `await` into `BeginCreate` (the check and
    `setIsLoading(true)`) and `CompleteCreate`, which works on the values the
    handler's closure captured when it started. */
module CreateInterviewSheet {
  import opened Common

  /** A file the user picked; its bytes are only seen through `readPdf`. */
  datatype File = File(name: string, handle: nat)

  /** The toasts the dialog raises. */
  datatype Toast = MissingFields | Created | CreateFailed

  /** A toast as the user sees it: `toast.error` or `toast.success`, and its text. */
  datatype Shown = Shown(isError: bool, message: string)

  function Display(t: Toast): (shown: Shown)
    ensures shown.isError <==> t != Created
    ensures shown.message != ""
  {
    match t
    case MissingFields => Shown(true, "Please fill in all required fields.")
    case Created => Shown(false, "Interview created successfully!")
    case CreateFailed => Shown(true, "Failed to create interview. Please try again.")
  }

  /** The three toasts read differently, so the text tells the user which
      outcome occurred. */
  lemma DisplayDistinguishes(t: Toast, u: Toast)
    ensures Display(t).message == Display(u).message ==> t == u
  {
    assert |Display(MissingFields).message| == 35;
    assert |Display(Created).message| == 31;
    assert |Display(CreateFailed).message| == 45;
  }

  /** The arguments `onCreate` receives. */
  datatype CreateCall = CreateCall(jobName: string, resumeText: string, jobDescription: string)

  /** The form values a running `handleCreate` captured. */
  datatype Snapshot = Snapshot(jobName: string, resume: File, jobDescriptionFile: Option<File>,
                               jobDescriptionText: string)

  /** The guard of `handleCreate`: a job name and a resume are required. */
  predicate RequiredFieldsPresent(jobName: string, resume: Option<File>) {
    jobName != "" && resume.Some?
  }

  /** The Start button's `disabled`: a missing job name, a missing resume, or a
      creation in progress. */
  function StartDisabled(jobName: string, resume: Option<File>, isLoading: bool): (disabled: bool)
    ensures !disabled ==> RequiredFieldsPresent(jobName, resume)
    ensures !isLoading ==> (disabled <==> !RequiredFieldsPresent(jobName, resume))
    ensures isLoading ==> disabled
  {
    jobName == "" || resume.None? || isLoading
  }

  /** The job-description text extracted from the optional file: "" when there
      is no file, None when `readPdf` rejects. */
  function ExtractedJobDescription(file: Option<File>, readPdf: File -> Option<string>): (text: Option<string>)
    ensures file.None? ==> text == Some("")
    ensures file.Some? ==> text == readPdf(file.value)
  {
    if file.Some? then readPdf(file.value) else Some("")
  }

  /** `jobDescriptionText || jdText`: pasted text wins whenever it is non-empty. */
  function JobDescriptionChoice(pasted: string, extracted: string): (chosen: string)
    ensures pasted != "" ==> chosen == pasted
    ensures pasted == "" ==> chosen == extracted
  {
    if pasted != "" then pasted else extracted
  }

  /** Both PDF reads must succeed (`Promise.all`) before `onCreate` is called. */
  predicate ExtractionSucceeds(s: Snapshot, readPdf: File -> Option<string>) {
    readPdf(s.resume).Some? && ExtractedJobDescription(s.jobDescriptionFile, readPdf).Some?
  }

  /** The call `handleCreate` makes to `onCreate`, or None when a PDF read fails. */
  function CallFor(s: Snapshot, readPdf: File -> Option<string>): (call: Option<CreateCall>)
    ensures call.Some? <==> ExtractionSucceeds(s, readPdf)
    ensures call.Some? ==> call.value.jobName == s.jobName
    ensures call.Some? ==> Some(call.value.resumeText) == readPdf(s.resume)
    ensures call.Some? && s.jobDescriptionText != "" ==> call.value.jobDescription == s.jobDescriptionText
    ensures call.Some? && s.jobDescriptionText == "" ==>
              Some(call.value.jobDescription) == ExtractedJobDescription(s.jobDescriptionFile, readPdf)
    ensures call.Some? && s.jobDescriptionText == "" && s.jobDescriptionFile.None? ==>
              call.value.jobDescription == ""
  {
    var resumeText := readPdf(s.resume);
    var jdText := ExtractedJobDescription(s.jobDescriptionFile, readPdf);
    if resumeText.Some? && jdText.Some? then
      Some(CreateCall(s.jobName, resumeText.value, JobDescriptionChoice(s.jobDescriptionText, jdText.value)))
    else None
  }

  class Sheet {
    var open: bool
    var jobName: string
    var resume: Option<File>
    var jobDescriptionFile: Option<File>
    var jobDescriptionText: string
    var isLoading: bool

    constructor ()
      ensures !open && jobName == "" && resume.None? && jobDescriptionFile.None?
      ensures jobDescriptionText == "" && !isLoading
    {
      open := false;
      jobName := "";
      resume := None;
      jobDescriptionFile := None;
      jobDescriptionText := "";
      isLoading := false;
    }

    predicate StartButtonDisabled()
      reads this
    {
      StartDisabled(jobName, resume, isLoading)
    }

    predicate FormEmpty()
      reads this
    {
      jobName == "" && resume.None? && jobDescriptionFile.None? && jobDescriptionText == ""
    }

    /** `resetForm`: clear all four form fields. */
    method ResetForm()
      modifies this
      ensures FormEmpty()
      ensures open == old(open) && isLoading == old(isLoading)
    {
      jobName := "";
      resume := None;
      jobDescriptionFile := None;
      jobDescriptionText := "";
    }

    /** The synchronous part of `handleCreate`: with a field missing it raises
        the error toast and changes nothing; otherwise it sets `isLoading` and
        captures the form. */
    method BeginCreate() returns (toast: Option<Toast>, started: Option<Snapshot>)
      modifies this
      ensures started.Some? <==> old(RequiredFieldsPresent(jobName, resume))
      ensures started.None? ==> toast == Some(MissingFields) && isLoading == old(isLoading)
      ensures started.None? ==> Display(toast.value).isError
      ensures started.Some? ==> toast.None? && isLoading
      ensures started.Some? ==>
                started.value == Snapshot(old(jobName), old(resume).value,
                                          old(jobDescriptionFile), old(jobDescriptionText))
      ensures started.Some? ==> StartButtonDisabled()
      ensures open == old(open) && jobName == old(jobName) && resume == old(resume)
      ensures jobDescriptionFile == old(jobDescriptionFile) && jobDescriptionText == old(jobDescriptionText)
    {
      if jobName == "" || resume.None? {
        toast := Some(MissingFields);
        started := None;
        return;
      }
      isLoading := true;
      toast := None;
      started := Some(Snapshot(jobName, resume.value, jobDescriptionFile, jobDescriptionText));
    }

    /** The part of `handleCreate` after the PDF reads: on success `onCreate`
        is called, the dialog closes and the form is reset; on a failed read or
        a rejected `onCreate` the form stays as it is; either way `isLoading`
        ends false. */
    method CompleteCreate(s: Snapshot, readPdf: File -> Option<string>, onCreateSucceeds: bool)
      returns (toast: Toast, call: Option<CreateCall>)
      modifies this
      ensures call == CallFor(s, readPdf)
      ensures !Display(toast).isError <==> call.Some? && onCreateSucceeds
      ensures !isLoading
      ensures call.Some? && onCreateSucceeds ==> toast == Created && !open && FormEmpty()
      ensures !(call.Some? && onCreateSucceeds) ==>
                toast == CreateFailed && open == old(open) &&
                jobName == old(jobName) && resume == old(resume) &&
                jobDescriptionFile == old(jobDescriptionFile) && jobDescriptionText == old(jobDescriptionText)
    {
      call := CallFor(s, readPdf);
      if call.Some? && onCreateSucceeds {
        open := false;
        ResetForm();
        toast := Created;
      } else {
        toast := CreateFailed;
      }
      isLoading := false;
    }
  }

  /** A click on an enabled Start button always passes the required-field check
      and, with readable PDFs and an accepting `onCreate`, leaves an empty,
      closed, idle dialog. */
  method ClickStart(sheet: Sheet, readPdf: File -> Option<string>, onCreateSucceeds: bool)
    returns (toast: Toast, call: Option<CreateCall>)
    requires !sheet.StartButtonDisabled()
    modifies sheet
    ensures toast != MissingFields
    ensures call == CallFor(Snapshot(old(sheet.jobName), old(sheet.resume).value,
                                     old(sheet.jobDescriptionFile), old(sheet.jobDescriptionText)), readPdf)
    ensures !Display(toast).isError <==> call.Some? && onCreateSucceeds
    ensures !sheet.isLoading
    ensures call.Some? && onCreateSucceeds ==> toast == Created && !sheet.open && sheet.FormEmpty()
    ensures call.Some? ==> call.value.jobName == old(sheet.jobName)
  {
    var first, started := sheet.BeginCreate();
    toast, call := sheet.CompleteCreate(started.value, readPdf, onCreateSucceeds);
  }
}
