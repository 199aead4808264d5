/**
 * The page state the client script changes: the chosen file and its label,
 * the upload button, the progress bar and text, the local preview and the
 * result area. Each event handler is a method; an upload is split at its
 * one suspension point into `Click` (up to sending the request) and
 * `Complete` (after the request settles), since other events, such as a
 * new file being chosen, may run in between.
 */
module Page {
  import opened Wrappers
  import opened Text
  import opened Client

  const ChooseFileLabel: string := "Choose a file"
  const SelectFileFirstAlert: string := "Please select a file first"

  /** What the result area shows. */
  datatype ResultView = Blank | SuccessView(data: JsonObject, media: Media) | ErrorView(reason: Failure)

  /** The classes `Complete` adds to the progress bar (they are never removed). */
  function AddedBarClasses(f: Finished, s: Settled): (c: set<string>)
    ensures c <= {"complete", "error"}
    ensures "complete" in c <==> s.Resolved?
    ensures "error" in c <==> !(s.Resolved? && f.Succeeded?)
  {
    if s.Resolved? then (if f.Succeeded? then {"complete"} else {"complete", "error"}) else {"error"}
  }

  /** The result area after an upload finishes. */
  function ResultOf(f: Finished): ResultView {
    match f
    case Succeeded(data, media) => SuccessView(data, media)
    case Failed(reason) => ErrorView(reason)
  }

  class UploadPage {
    var selected: Option<FileInfo>   // fileInput.files[0]
    var fileLabel: string            // fileInputLabel.textContent
    var buttonDisabled: bool         // uploadButton.disabled
    var alerts: seq<string>          // the alerts shown, in order
    var progressShown: bool          // progressContainer is displayed
    var progressValue: nat           // progressBar.value
    var progressText: string         // progressText.textContent
    var barClasses: set<string>      // the classes added to progressBar
    var preview: Option<Preview>     // filePreview
    var result: ResultView           // uploadResult
    var sent: seq<FileInfo>          // the upload requests sent, in order
    var inFlight: nat                // requests sent and not yet settled

    /**
     * The button is disabled only while nothing is selected or an upload is
     * running, and a shown progress bar agrees with its text.
     */
    ghost predicate Valid()
      reads this
    {
      && (buttonDisabled ==> selected.None? || inFlight > 0)
      && (inFlight > 0 ==> progressShown)
      && (progressShown ==> progressValue <= 100 && progressText == PercentText(progressValue))
    }

    /** The page as loaded: no file chosen, the markup's label, the button disabled or not. */
    constructor (initialLabel: string, initiallyDisabled: bool)
      ensures Valid()
      ensures selected == None && fileLabel == initialLabel && buttonDisabled == initiallyDisabled
      ensures alerts == [] && !progressShown && barClasses == {} && preview == None && result == Blank
      ensures sent == [] && inFlight == 0
    {
      selected := None;
      fileLabel := initialLabel;
      buttonDisabled := initiallyDisabled;
      alerts := [];
      progressShown := false;
      progressValue := 0;
      progressText := "";
      barClasses := {};
      preview := None;
      result := Blank;
      sent := [];
      inFlight := 0;
    }

    /**
     * The file input's `change`: a chosen file names the label and enables
     * the button; no file resets the label and disables the button.
     */
    method Change(file: Option<FileInfo>)
      requires Valid()
      modifies this`selected, this`fileLabel, this`buttonDisabled
      ensures Valid()
      ensures selected == file
      ensures fileLabel == if file.Some? then file.value.name else ChooseFileLabel
      ensures buttonDisabled == file.None?
    {
      selected := file;
      if file.Some? {
        fileLabel := file.value.name;
        buttonDisabled := false;
      } else {
        fileLabel := ChooseFileLabel;
        buttonDisabled := true;
      }
    }

    /** A `drop` with a file acts as choosing it; a drop without one changes nothing. */
    method Drop(file: Option<FileInfo>)
      requires Valid()
      modifies this`selected, this`fileLabel, this`buttonDisabled
      ensures Valid()
      ensures file.Some? ==> selected == file && fileLabel == file.value.name && !buttonDisabled
      ensures file.None? ==> selected == old(selected) && fileLabel == old(fileLabel) && buttonDisabled == old(buttonDisabled)
    {
      if file.Some? {
        selected := file;
        fileLabel := file.value.name;
        buttonDisabled := false;
      }
    }

    /**
     * The button's `click`, up to the request being sent. Without a file it
     * only alerts. With a file over the limit `uploadFile` throws before it
     * touches the page, the handler swallows the error and re-enables the
     * button, so nothing but the button changes and no message is shown.
     * Otherwise the button is disabled, the progress bar is reset, the
     * result area is cleared, the preview is set and the request is sent.
     * A disabled button receives no clicks.
     */
    method Click() returns (started: bool)
      requires Valid()
      requires !buttonDisabled
      modifies this
      ensures Valid()
      ensures started <==> old(selected).Some? && PreCheck(old(selected)) == None
      ensures old(selected).None? ==> alerts == old(alerts) + [SelectFileFirstAlert] && buttonDisabled == old(buttonDisabled)
      ensures old(selected).Some? ==> alerts == old(alerts)
      ensures buttonDisabled <==> started
      ensures !started ==>
                && progressShown == old(progressShown) && progressValue == old(progressValue)
                && progressText == old(progressText) && preview == old(preview)
                && result == old(result) && sent == old(sent) && inFlight == old(inFlight)
      ensures started ==>
                && buttonDisabled
                && progressShown && progressValue == 0 && progressText == "0%"
                && result == Blank && preview == Some(LocalPreview(old(selected).value))
                && sent == old(sent) + [old(selected).value] && inFlight == old(inFlight) + 1
      ensures selected == old(selected) && fileLabel == old(fileLabel) && barClasses == old(barClasses)
    {
      if selected.None? {
        alerts := alerts + [SelectFileFirstAlert];
        return false;
      }
      var file := selected.value;
      buttonDisabled := true;
      if PreCheck(selected).Some? {
        // the rejection reaches the handler's empty catch, then its finally
        buttonDisabled := false;
        return false;
      }
      progressShown := true;
      progressValue := 0;
      progressText := "0%";
      PercentTextZero();
      result := Blank;
      preview := Some(LocalPreview(file));
      sent := sent + [file];
      inFlight := inFlight + 1;
      started := true;
    }

    /** An upload `progress` event: the bar moves only when the length is computable. */
    method Progress(ev: ProgressEvent)
      requires Valid()
      requires inFlight > 0
      requires ev.lengthComputable ==> 0 < ev.total && ev.loaded <= ev.total
      modifies this`progressValue, this`progressText
      ensures Valid()
      ensures ev.lengthComputable ==>
                progressValue == Percent(ev.loaded, ev.total) && progressText == PercentText(progressValue)
      ensures !ev.lengthComputable ==> progressValue == old(progressValue) && progressText == old(progressText)
    {
      var value := ProgressValue(ev);
      if value.Some? {
        progressValue := value.value;
        progressText := PercentText(progressValue);
      }
    }

    /**
     * The request settles, `uploadFile` renders the result, and the click
     * handler continues: on success it clears the file and the label and
     * disables the button, and its `finally` then enables the button again,
     * so the button ends enabled on every path.
     */
    method Complete(ev: XhrEvent) returns (f: Finished)
      requires Valid()
      requires inFlight > 0
      modifies this`selected, this`fileLabel, this`buttonDisabled, this`barClasses, this`result, this`inFlight
      ensures Valid()
      ensures f == Finish(ev)
      ensures !buttonDisabled
      ensures f.Succeeded? ==> selected == None && fileLabel == ChooseFileLabel
      ensures !f.Succeeded? ==> selected == old(selected) && fileLabel == old(fileLabel)
      ensures barClasses == old(barClasses) + AddedBarClasses(f, Settle(ev))
      ensures result == ResultOf(f)
      ensures inFlight == old(inFlight) - 1
    {
      f := Finish(ev);
      if Settle(ev).Resolved? {
        barClasses := barClasses + {"complete"};
      }
      if !f.Succeeded? {
        barClasses := barClasses + {"error"};
      }
      result := ResultOf(f);
      if f.Succeeded? {
        selected := None;
        fileLabel := ChooseFileLabel;
        buttonDisabled := true;
      }
      buttonDisabled := false;
      inFlight := inFlight - 1;
    }
  }

  /**
   * A successful upload leaves the button enabled with no file chosen, so
   * the next click only alerts.
   */
  method SuccessThenClickAgain(file: FileInfo, data: JsonObject)
    requires file.size <= MaxFileSize
    requires "fileType" in data
  {
    var page := new UploadPage(ChooseFileLabel, true);
    page.Change(Some(file));
    var started := page.Click();
    assert started && page.buttonDisabled;
    var f := page.Complete(Load(200, Json(data)));
    assert f.Succeeded? && page.selected == None && !page.buttonDisabled;
    started := page.Click();
    assert !started && page.alerts == [SelectFileFirstAlert];
  }
}
