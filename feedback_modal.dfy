/** js/feedback-modal.js: the feedback dialog, its screenshot upload and its submit check. */
module Feedback {
  import opened Wrappers
  import opened JsText

  /** The selected file as the browser describes it. */
  datatype File = File(name: string, mimeType: string, size: nat)

  /** `5 * 1024 * 1024` bytes. */
  const MaxSize: nat := 5 * 1024 * 1024

  const AlertType := "请选择 JPG 或 PNG 格式的文件。"
  const AlertSize := "文件大小必须小于 5MB。"
  const AlertNoDescription := "请提供描述内容。"
  const AlertThanks := "感谢您的反馈！我们会尽快处理。"

  /** `file.type.match('image/(jpeg|png)')`: the pattern is not anchored, so it may match anywhere in the type. */
  predicate TypeMatches(mimeType: string) {
    Includes(mimeType, "image/jpeg") || Includes(mimeType, "image/png")
  }

  /** The upload checks, in the order the code runs them: the alert shown, or none when the file is taken. */
  function UploadCheck(f: File): (alert: Option<string>)
    ensures alert.None? <==> TypeMatches(f.mimeType) && f.size <= MaxSize
    ensures alert == Some(AlertType) <==> !TypeMatches(f.mimeType)
    ensures alert == Some(AlertSize) <==> TypeMatches(f.mimeType) && f.size > MaxSize
  {
    if !TypeMatches(f.mimeType) then Some(AlertType)
    else if f.size > MaxSize then Some(AlertSize)
    else None
  }

  /** The limit itself is allowed; one byte more is not. */
  lemma SizeLimitInclusive(name: string)
    ensures UploadCheck(File(name, "image/png", MaxSize)).None?
    ensures UploadCheck(File(name, "image/png", MaxSize + 1)) == Some(AlertSize)
  {
    assert StartsWith("image/png", "image/png");
  }

  /** Any type that merely contains 'image/png' passes, for example 'x-image/pngfoo'. */
  lemma UnanchoredTypeCheck()
    ensures TypeMatches("x-image/pngfoo")
  {
    var t := "x-image/pngfoo";
    assert t[2..][..9] == "image/png";
    assert StartsWith(t[2..], "image/png");
    assert t[1..][1..] == t[2..];
  }

  /** A file of the wrong type is refused for its type, whatever its size. */
  lemma TypeCheckedFirst(f: File)
    requires !TypeMatches(f.mimeType) && f.size > MaxSize
    ensures UploadCheck(f) == Some(AlertType)
  {
  }

  class FeedbackModal {
    /** The `show` class. */
    var visible: bool
    var description: string
    /** What the file input holds (the browser keeps a refused file selected). */
    var selected: Option<File>
    /** The `has-file` class of the upload area, and the name it shows. */
    var hasFile: bool
    var shownFile: string
    /** The alerts raised so far. */
    var alerts: seq<string>

    constructor ()
      ensures !visible && description == [] && selected.None? && !hasFile && shownFile == [] && alerts == []
    {
      visible := false;
      description := [];
      selected := None;
      hasFile := false;
      shownFile := [];
      alerts := [];
    }

    function IsVisible(): (b: bool)
      reads this
      ensures b <==> visible
    {
      visible
    }

    method Open()
      modifies this`visible
      ensures visible
    {
      visible := true;
    }

    /** `resetForm`: the form's fields and the upload area go back to their defaults. */
    method ResetForm()
      modifies this`description, this`selected, this`hasFile, this`shownFile
      ensures description == [] && selected.None? && !hasFile && shownFile == []
    {
      description := [];
      selected := None;
      hasFile := false;
      shownFile := [];
    }

    method Close()
      modifies this`visible, this`description, this`selected, this`hasFile, this`shownFile
      ensures !visible && description == [] && selected.None? && !hasFile && shownFile == []
    {
      visible := false;
      ResetForm();
    }

    /** The Escape key closes only an open dialog. */
    method Escape()
      modifies this`visible, this`description, this`selected, this`hasFile, this`shownFile
      ensures old(visible) ==> !visible && description == [] && selected.None? && !hasFile && shownFile == []
      ensures !old(visible) ==> unchanged(this)
    {
      if IsVisible() {
        Close();
      }
    }

    method TypeDescription(text: string)
      modifies this`description
      ensures description == text
    {
      description := text;
    }

    /** The file input's change event; no file leaves everything as it was. */
    method HandleFileUpload(file: Option<File>)
      modifies this`selected, this`hasFile, this`shownFile, this`alerts
      ensures file.None? ==> unchanged(this)
      ensures file.Some? ==> selected == file
      ensures file.Some? && UploadCheck(file.value).Some? ==>
                alerts == old(alerts) + [UploadCheck(file.value).value] &&
                hasFile == old(hasFile) && shownFile == old(shownFile)
      ensures file.Some? && UploadCheck(file.value).None? ==>
                alerts == old(alerts) && hasFile && shownFile == file.value.name
    {
      if file.None? {
        return;
      }
      selected := file;
      var alert := UploadCheck(file.value);
      if alert.Some? {
        alerts := alerts + [alert.value];
        return;
      }
      hasFile := true;
      shownFile := file.value.name;
    }

    /** `handleSubmit`: a blank description keeps the dialog open. */
    method HandleSubmit()
      modifies this`visible, this`description, this`selected, this`hasFile, this`shownFile, this`alerts
      ensures IsBlank(old(description)) ==>
                alerts == old(alerts) + [AlertNoDescription] && visible == old(visible) &&
                description == old(description) && selected == old(selected) && hasFile == old(hasFile) &&
                shownFile == old(shownFile)
      ensures !IsBlank(old(description)) ==>
                alerts == old(alerts) + [AlertThanks] && !visible && description == [] && selected.None? && !hasFile &&
                shownFile == []
    {
      if |Trim(description)| == 0 {
        alerts := alerts + [AlertNoDescription];
        return;
      }
      alerts := alerts + [AlertThanks];
      Close();
    }
  }
}
