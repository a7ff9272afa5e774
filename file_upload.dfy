/**
 * The upload form of frontend/src/components/FileUpload.jsx: the extension check on a new
 * selection and the precondition order of `handleUpload`.
 */
module UploadForm {
  import opened Wrappers
  import Js

  const WrongType := "❌ Please select an Excel file (.xlsx or .xls)"
  const NoFile := "❌ Please select a file"
  const Uploading := "Uploading file..."
  const LoginToast := "Please log in to upload files"
  const VerifyToast := "Please verify your account before uploading files"
  const SuccessToast := "File uploaded successfully!"
  const HeadersToast := "Excel file is missing required headers"

  /** `name.match(/\.(xlsx|xls)$/)`: case-sensitive and anchored at the end of the name. */
  predicate IsExcelName(name: string) {
    Js.EndsWith(name, ".xlsx") || Js.EndsWith(name, ".xls")
  }

  /** Any name followed by either extension is accepted. */
  lemma {:induction false} ExcelNamesAccepted(stem: string)
    ensures IsExcelName(stem + ".xlsx") && IsExcelName(stem + ".xls")
  {
    assert (stem + ".xlsx")[|stem|..] == ".xlsx";
    assert (stem + ".xls")[|stem|..] == ".xls";
  }

  /** A name is accepted exactly when it is a stem followed by one of the two extensions. */
  lemma {:induction false} AcceptedNamesAreExcel(name: string)
    ensures IsExcelName(name) <==>
              || (|name| >= 5 && name == name[..|name| - 5] + ".xlsx")
              || (|name| >= 4 && name == name[..|name| - 4] + ".xls")
  {
    if |name| >= 5 {
      assert name == name[..|name| - 5] + name[|name| - 5..];
      assert (name[..|name| - 5] + ".xlsx")[|name| - 5..] == ".xlsx";
    }
    if |name| >= 4 {
      assert name == name[..|name| - 4] + name[|name| - 4..];
      assert (name[..|name| - 4] + ".xls")[|name| - 4..] == ".xls";
    }
  }

  /** The match does not fold case and needs the extension at the very end. */
  lemma ExcelMatchIsStrict()
    ensures !IsExcelName("questions.XLSX")
    ensures !IsExcelName("questions.xlsx.bak")
    ensures !IsExcelName("questions.csv")
  {
    assert "questions.XLSX"[10..] != ".xlsx";
    assert "questions.XLSX"[11..] != ".xls";
    assert "questions.xlsx.bak"[13..] != ".xlsx";
    assert "questions.xlsx.bak"[14..] != ".xls";
    assert "questions.csv"[8..] != ".xlsx";
    assert "questions.csv"[9..] != ".xls";
  }

  /** A `File` chosen in the input: its name and size in bytes. */
  datatype Selection = Selection(name: string, size: nat)

  /**
   * What `uploadFile(file)` comes back with: the backend's success reply `{ success: true,
   * message, count }`, or, for a refused request, the `error` and `missingHeaders` fields of
   * the reply it throws on.
   */
  datatype UploadReply =
    | Succeeded(message: string, count: int)
    | Failed(errorMessage: string, missingHeaders: seq<string>)

  /** `parts.join(separator)`. */
  function Join(parts: seq<string>, separator: string): (r: string)
    ensures parts == [] ==> r == ""
    ensures |parts| == 1 ==> r == parts[0]
    ensures |r| >= (if parts == [] then 0 else (|parts| - 1) * |separator|)
  {
    if parts == [] then ""
    else if |parts| == 1 then parts[0]
    else parts[0] + separator + Join(parts[1..], separator)
  }

  function SuccessMessage(count: int): string {
    "✅ File uploaded successfully! " + Js.IntToString(count) + " questions processed."
  }

  /**
   * The count shown after a success: `response.questionsCount || 0`. The backend names the
   * field `count`, so `questionsCount` is undefined and the page always shows 0.
   */
  const ShownCount := 0

  /** The shown message differs from one that reported the uploaded count, whenever that count is not 0. */
  lemma {:induction false} ShownCountIsNotTheCount(count: int)
    requires count != 0
    ensures SuccessMessage(ShownCount) != SuccessMessage(count)
  {
    var prefix := "✅ File uploaded successfully! ";
    var digits := Js.IntToString(count);
    var shown, reported := SuccessMessage(ShownCount), SuccessMessage(count);
    if |digits| != 1 {
      assert |shown| != |reported|;
    } else {
      assert 0 < count < 10 && digits == [Js.DigitChar(count)];
      assert shown[|prefix|] == '0' && reported[|prefix|] == digits[0];
    }
  }

  /** The message and the toast of a failed upload. */
  function FailureNotice(errorMessage: string, missingHeaders: seq<string>): (string, string) {
    if missingHeaders != [] then (errorMessage + ": " + Join(missingHeaders, ", "), HeadersToast)
    else ("❌ " + errorMessage, errorMessage)
  }

  class FileUploadForm {
    var file: Option<Selection>
    var message: string
    var isLoading: bool

    /** A selected file is always an Excel file. */
    ghost predicate Valid()
      reads this
    {
      file.Some? ==> IsExcelName(file.value.name)
    }

    constructor ()
      ensures Valid() && file.None? && message == "" && !isLoading
    {
      file := None;
      message := "";
      isLoading := false;
    }

    /** `handleFileChange(e)` with `e.target.files[0]` as `selection`. */
    method HandleFileChange(selection: Option<Selection>)
      modifies this
      requires Valid()
      ensures Valid() && isLoading == old(isLoading)
      ensures selection.None? ==> message == "" && file == old(file)
      ensures selection.Some? && !IsExcelName(selection.value.name) ==> message == WrongType && file.None?
      ensures selection.Some? && IsExcelName(selection.value.name) ==> message == "" && file == selection
    {
      message := "";
      if selection.None? {
        return;
      }
      if !IsExcelName(selection.value.name) {
        message := WrongType;
        file := None;
        return;
      }
      file := selection;
    }

    /** The remove button of the preview. */
    method RemoveFile()
      modifies this
      ensures Valid() && file.None? && message == "" && isLoading == old(isLoading)
    {
      file := None;
      message := "";
    }

    /**
     * `handleUpload()`. `verified` is the truth value of `userData.isAccountVerified`: a
     * logged-out `userData` is `false`, whose `isAccountVerified` is undefined, so it is
     * `Some(false)` and the page asks for verification. `None` stands for an `undefined`
     * `userData`, where reading the field throws before any state change. `sent` is the file
     * passed to `uploadFile`, `reply` what that call would bring back, and `toast` the toast shown.
     */
    method HandleUpload(isLoggedin: bool, verified: Option<bool>, reply: UploadReply)
      returns (toast: Option<string>, sent: Option<Selection>)
      modifies this
      requires Valid()
      ensures Valid()
      ensures !isLoggedin ==>
                toast == Some(LoginToast) && sent.None? && file == old(file) && message == old(message)
                && isLoading == old(isLoading)
      ensures isLoggedin && verified.None? ==>
                toast.None? && sent.None? && file == old(file) && message == old(message) && isLoading == old(isLoading)
      ensures isLoggedin && verified == Some(false) ==>
                toast == Some(VerifyToast) && sent.None? && file == old(file) && message == old(message)
                && isLoading == old(isLoading)
      ensures isLoggedin && verified == Some(true) && old(file).None? ==>
                toast.None? && sent.None? && file.None? && message == NoFile && isLoading == old(isLoading)
      ensures isLoggedin && verified == Some(true) && old(file).Some? ==>
                && sent == old(file) && !isLoading
                && (reply.Succeeded? ==>
                      file.None? && message == SuccessMessage(ShownCount) && toast == Some(SuccessToast))
                && (reply.Failed? ==>
                      var notice := FailureNotice(reply.errorMessage, reply.missingHeaders);
                      file == old(file) && message == notice.0 && toast == Some(notice.1))
    {
      if !isLoggedin {
        return Some(LoginToast), None;
      }
      if verified.None? {
        return None, None;
      }
      if !verified.value {
        return Some(VerifyToast), None;
      }
      if file.None? {
        message := NoFile;
        return None, None;
      }
      isLoading := true;
      message := Uploading;
      sent := file;
      match reply {
        case Succeeded(_, _) =>
          message := SuccessMessage(ShownCount);
          toast := Some(SuccessToast);
          file := None;
        case Failed(errorMessage, missingHeaders) =>
          var notice := FailureNotice(errorMessage, missingHeaders);
          message := notice.0;
          toast := Some(notice.1);
      }
      isLoading := false;
    }
  }
}
