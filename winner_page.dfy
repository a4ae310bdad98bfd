/** The stand-alone winner-declaration page: one mobile number and a date,
    checked before the `createWinner` call, with the outcome reported in a
    snackbar. */
module WinnerPage {
  import opened Common
  import opened Mobile

  const InvalidMobileText: string := "Enter a valid 10-digit mobile number starting with 6-9"
  const DeclaredText: string := "Winner declared successfully!"
  const DeclareFailedText: string := "Failed to declare winner. Try again."

  /** The snackbar record: whether it is visible, its text and its colour. */
  datatype Snackbar = Snackbar(open: bool, message: string, severity: Severity)

  /** The snackbar that reports a submission of `mobile`: a local refusal
      when the number is invalid (no request is made then), otherwise the
      outcome of the request. */
  function SubmitReport(mobile: string, reply: Reply<string>): (s: Snackbar)
    ensures s.open && s.message != ""
    ensures s.severity == Success <==> IsValidMobile(mobile) && reply.Resolved?
  {
    if !IsValidMobile(mobile) then Snackbar(true, InvalidMobileText, Error)
    else match reply
      case Resolved(msg) => Snackbar(true, OrElse(msg, DeclaredText), Success)
      case Rejected(msg) => Snackbar(true, OrElse(msg, DeclareFailedText), Error)
  }

  /** The backend's own text is shown whenever it has one; the fixed texts
      only stand in for a missing message. */
  lemma SubmitReportPrefersServerText(mobile: string, reply: Reply<string>)
    requires IsValidMobile(mobile)
    ensures reply.Resolved? && reply.value != "" ==> SubmitReport(mobile, reply).message == reply.value
    ensures reply.Rejected? && reply.message != "" ==> SubmitReport(mobile, reply).message == reply.message
    ensures reply == Resolved("") ==> SubmitReport(mobile, reply).message == DeclaredText
    ensures reply == Rejected("") ==> SubmitReport(mobile, reply).message == DeclareFailedText
  {
  }

  /** Whatever the backend would answer, an invalid number always gets the
      same local refusal. */
  lemma InvalidMobileIgnoresReply(mobile: string, r1: Reply<string>, r2: Reply<string>)
    requires !IsValidMobile(mobile)
    ensures SubmitReport(mobile, r1) == SubmitReport(mobile, r2) == Snackbar(true, InvalidMobileText, Error)
  {
  }

  class WinnerDeclarationPage {
    var mobile: string
    var selectedDate: string
    var snackbar: Snackbar
    const ui: Ui

    constructor (ui: Ui, today: string)
      ensures this.ui == ui
      ensures mobile == "" && selectedDate == today && snackbar == Snackbar(false, "", Success)
    {
      this.ui := ui;
      mobile := "";
      selectedDate := today;
      snackbar := Snackbar(false, "", Success);
    }

    /** The mobile field's `onChange`: any text is taken as typed. */
    method HandleMobileChange(value: string)
      modifies this`mobile
      ensures mobile == value
    {
      mobile := value;
    }

    /** The date field's `onChange`. */
    method HandleDateChange(value: string)
      modifies this`selectedDate
      ensures selectedDate == value
    {
      selectedDate := value;
    }

    /** `handleCloseSnackbar`: hides the snackbar and keeps its text and
        colour. */
    method HandleCloseSnackbar()
      modifies this`snackbar
      ensures snackbar == old(snackbar).(open := false)
    {
      snackbar := snackbar.(open := false);
    }

    /** `handleSubmit`, given what the `createWinner` call would produce. An
        invalid number is refused before any request; otherwise exactly one
        request `{mobile, date}` is sent, and on success the entry is cleared
        and the date set back to `today`. */
    method HandleSubmit(reply: Reply<string>, today: string)
      modifies this`mobile, this`selectedDate, this`snackbar, ui
      ensures snackbar == SubmitReport(old(mobile), reply)
      ensures !IsValidMobile(old(mobile)) ==>
        ui.events == old(ui.events) && mobile == old(mobile) && selectedDate == old(selectedDate)
      ensures IsValidMobile(old(mobile)) ==>
        ui.events == old(ui.events) + [Call(CreateWinner(Single(old(mobile), old(selectedDate))))]
      ensures IsValidMobile(old(mobile)) && reply.Resolved? ==> mobile == "" && selectedDate == today
      ensures reply.Rejected? ==> mobile == old(mobile) && selectedDate == old(selectedDate)
    {
      if !IsValidMobile(mobile) {
        snackbar := Snackbar(true, InvalidMobileText, Error);
        return;
      }
      ui.Emit(Call(CreateWinner(Single(mobile, selectedDate))));
      match reply {
        case Resolved(msg) =>
          snackbar := Snackbar(true, OrElse(msg, DeclaredText), Success);
          mobile := "";
          selectedDate := today;
        case Rejected(msg) =>
          snackbar := Snackbar(true, OrElse(msg, DeclareFailedText), Error);
      }
    }
  }
}
