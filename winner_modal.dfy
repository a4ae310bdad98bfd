/** The winner-declaration dialog: a form that holds either one manually
    typed mobile number or a batch loaded from a CSV file, a date, and a
    submit handler that sends the batch, drives the global loader, raises
    the refresh flags and resets the form. */
module WinnerModal {
  import opened Common
  import opened Mobile
  import opened CsvImport

  datatype Mode = Manual | Csv

  const SubmitTitle: string := "Declaring winner(s)..."
  const SubmitSucceeded: string := "Winner(s) declared successfully!"
  const SubmitFailed: string := "Submission failed. Try again."

  /** What the form's state always satisfies: the manual field holds at most
      ten digits, a loaded batch holds at most 200 valid numbers, and a file
      name is only shown beside a loaded batch. */
  predicate FormInvariant(mobile: string, csvMobiles: seq<string>, fileName: string)
  {
    && KeystrokeAccepted(mobile)
    && |csvMobiles| <= MaxBatch
    && (forall i :: 0 <= i < |csvMobiles| ==> IsValidMobile(csvMobiles[i]))
    && (csvMobiles == [] ==> fileName == "")
  }

  /** `isSubmitEnabled`. */
  predicate SubmitEnabled(mode: Mode, mobile: string, csvMobiles: seq<string>)
  {
    (mode == Manual && IsValidMobile(mobile)) || (mode == Csv && |csvMobiles| > 0)
  }

  /** The `createWinner` body for the current mode. */
  function SubmitPayload(mode: Mode, mobile: string, csvMobiles: seq<string>, date: string): (p: Payload)
    ensures p.date == date
    ensures mode == Manual <==> p.Single?
    ensures p.Single? ==> p.mobile == mobile
    ensures p.Batch? ==> p.mobiles == csvMobiles
  {
    if mode == Manual then Single(mobile, date) else Batch(csvMobiles, date)
  }

  /** A batch the backend may receive: one valid number, or 1 to 200 of them. */
  predicate WellFormedPayload(p: Payload)
  {
    match p
    case Single(m, _) => IsValidMobile(m)
    case Batch(ms, _) => 1 <= |ms| <= MaxBatch && forall i :: 0 <= i < |ms| ==> IsValidMobile(ms[i])
  }

  /** The effects of one submission, in order: loader on, request, toast,
      on success the dialog's close, loader off. */
  function SubmitTrace(p: Payload, reply: Reply<string>): seq<Event>
  {
    var outcome := match reply
      case Resolved(msg) => [Toast(Success, OrElse(msg, SubmitSucceeded)), Closed]
      case Rejected(msg) => [Toast(Error, OrElse(msg, SubmitFailed))];
    [ShowLoader(SubmitTitle), Call(CreateWinner(p))] + outcome + [HideLoader]
  }

  /** Whenever the submit button is enabled on a form in its invariant, what
      would be sent is a well-formed batch of 1 to 200 valid numbers. */
  lemma EnabledSubmitIsWellFormed(mode: Mode, mobile: string, csvMobiles: seq<string>, fileName: string, date: string)
    requires FormInvariant(mobile, csvMobiles, fileName)
    requires SubmitEnabled(mode, mobile, csvMobiles)
    ensures WellFormedPayload(SubmitPayload(mode, mobile, csvMobiles, date))
  {
  }

  /** The loader is shown exactly once, first, and hidden exactly once, last,
      whether the request succeeds or fails; exactly one request is sent, and
      it carries the payload. */
  lemma SubmitTraceBracketsLoader(p: Payload, reply: Reply<string>)
    ensures var t := SubmitTrace(p, reply);
      && |t| >= 4
      && t[0] == ShowLoader(SubmitTitle)
      && t[1] == Call(CreateWinner(p))
      && t[|t| - 1] == HideLoader
      && (forall i :: 0 < i < |t| - 1 ==> !t[i].ShowLoader? && !t[i].HideLoader?)
      && LoaderBalance(t) == 0
      && CallCount(t) == 1
  {
    var t := SubmitTrace(p, reply);
    var start := [ShowLoader(SubmitTitle), Call(CreateWinner(p))];
    var outcome := t[2..|t| - 1];
    assert t == start + outcome + [HideLoader];
    LoaderBalanceAppend(start + outcome, [HideLoader]);
    LoaderBalanceAppend(start, outcome);
    CallCountAppend(start + outcome, [HideLoader]);
    CallCountAppend(start, outcome);
    assert start[1..] == [Call(CreateWinner(p))] && start[1..][1..] == [];
    assert LoaderBalance(start) == 1 && CallCount(start) == 1;
    assert LoaderBalance([HideLoader]) == -1 && CallCount([HideLoader]) == 0;
    if reply.Resolved? {
      assert outcome[1..] == [Closed] && outcome[1..][1..] == [];
    } else {
      assert outcome[1..] == [];
    }
    assert LoaderBalance(outcome) == 0 && CallCount(outcome) == 0;
  }

  /** The toast after a submission: the backend's message when there is one,
      else the fixed text for the outcome; success and failure are told
      apart by severity. */
  lemma SubmitTraceToast(p: Payload, reply: Reply<string>)
    ensures var t := SubmitTrace(p, reply);
      t[2] == match reply
        case Resolved(msg) => Toast(Success, if msg != "" then msg else SubmitSucceeded)
        case Rejected(msg) => Toast(Error, if msg != "" then msg else SubmitFailed)
    ensures Closed in SubmitTrace(p, reply) <==> reply.Resolved?
  {
    var t := SubmitTrace(p, reply);
    if reply.Rejected? {
      assert t == [ShowLoader(SubmitTitle), Call(CreateWinner(p)), Toast(Error, OrElse(reply.message, SubmitFailed)), HideLoader];
    } else {
      assert t[3] == Closed;
    }
  }

  /** The button is off for "12345" and on for "9876543210" in manual mode,
      and on in CSV mode exactly when a batch is loaded. */
  lemma SubmitEnabledExamples(ms: seq<string>)
    ensures !SubmitEnabled(Manual, "12345", ms)
    ensures SubmitEnabled(Manual, "9876543210", ms)
    ensures SubmitEnabled(Csv, "9876543210", ms) <==> ms != []
  {
    ValidMobileShape("12345");
    ValidMobileShape("9876543210");
  }

  class WinnerDeclarationModal {
    var mode: Mode
    var mobile: string
    var csvMobiles: seq<string>
    var fileName: string
    var selectedDate: string
    const ui: Ui
    const store: Store

    ghost predicate Valid()
      reads this
    {
      FormInvariant(mobile, csvMobiles, fileName)
    }

    /** `isSubmitEnabled` on the current state. */
    predicate IsSubmitEnabled()
      reads this
    {
      SubmitEnabled(mode, mobile, csvMobiles)
    }

    /** What a submission would send now; with `isSubmitEnabled` on a valid
        form it is a well-formed batch. */
    method SubmitPayloadNow() returns (p: Payload)
      ensures p == SubmitPayload(mode, mobile, csvMobiles, selectedDate)
      ensures Valid() && IsSubmitEnabled() ==> WellFormedPayload(p)
    {
      p := SubmitPayload(mode, mobile, csvMobiles, selectedDate);
      if Valid() && IsSubmitEnabled() {
        EnabledSubmitIsWellFormed(mode, mobile, csvMobiles, fileName, selectedDate);
      }
    }

    constructor (ui: Ui, store: Store)
      ensures Valid() && this.ui == ui && this.store == store
      ensures mode == Manual && mobile == "" && csvMobiles == [] && fileName == "" && selectedDate == ""
    {
      this.ui := ui;
      this.store := store;
      mode := Manual;
      mobile := "";
      csvMobiles := [];
      fileName := "";
      selectedDate := "";
    }

    /** `handleModeChange`: choosing a mode clears the whole entry; a click
        that deselects (`null`) changes nothing. */
    method HandleModeChange(newMode: Option<Mode>)
      requires Valid()
      modifies this`mode, this`mobile, this`csvMobiles, this`fileName
      ensures Valid()
      ensures newMode.Some? ==> mode == newMode.value && mobile == "" && csvMobiles == [] && fileName == ""
      ensures newMode.None? ==>
        mode == old(mode) && mobile == old(mobile) && csvMobiles == old(csvMobiles) && fileName == old(fileName)
    {
      if newMode.Some? {
        mode := newMode.value;
        mobile := "";
        csvMobiles := [];
        fileName := "";
      }
    }

    /** `handleManualChange`: the field takes a new value only if it is all
        digits and at most ten long. */
    method HandleManualChange(value: string)
      requires Valid()
      modifies this`mobile
      ensures Valid()
      ensures mobile == if KeystrokeAccepted(value) then value else old(mobile)
    {
      if IsDigitString(value) && |value| <= MaxMobileLength {
        mobile := value;
      }
    }

    /** The date field's `onChange`. */
    method HandleDateChange(value: string)
      modifies this`selectedDate
      ensures selectedDate == value
    {
      selectedDate := value;
    }

    /** `handleFileChange`: the previous batch is dropped first; then the file
        is checked, parsed and bounded, and either loaded whole with its name
        or refused with a toast. */
    method HandleFileChange(file: Option<FileInput>)
      requires Valid()
      modifies this`csvMobiles, this`fileName, ui
      ensures Valid()
      ensures match ImportCsv(file)
        case Ok(ms) => csvMobiles == ms && fileName == file.value.name && ui.events == old(ui.events)
        case Err(e) =>
          csvMobiles == [] && fileName == "" && ui.events == old(ui.events) + [Toast(Error, ImportMessage(e))]
    {
      csvMobiles := [];
      fileName := "";
      if file.None? {
        ui.Emit(Toast(Error, ImportMessage(NoFile)));
        return;
      }
      var f := file.value;
      if f.mimeType != "text/csv" && !EndsWith(f.name, ".csv") {
        ui.Emit(Toast(Error, ImportMessage(NotCsv)));
        return;
      }
      var lines := ParseMobiles(f.text);
      if |lines| == 0 {
        ui.Emit(Toast(Error, ImportMessage(NoValidNumbers)));
        return;
      }
      if |lines| > MaxBatch {
        ui.Emit(Toast(Error, ImportMessage(TooManyNumbers)));
        return;
      }
      csvMobiles := lines;
      fileName := f.name;
    }

    /** `handleSubmit`, given what the `createWinner` call produced. On
        success the list and header refresh flags are raised and the form is
        reset through `handleClose`; on failure the form and the flags stay as
        they were. Either way the loader is released. */
    method HandleSubmit(reply: Reply<string>, today: string)
      requires Valid()
      modifies this, ui, store
      ensures Valid()
      ensures ui.events == old(ui.events) + SubmitTrace(SubmitPayload(old(mode), old(mobile), old(csvMobiles), old(selectedDate)), reply)
      ensures store.accessToken == old(store.accessToken)
      ensures reply.Resolved? ==>
        && store.isRefreshed && store.isHeaderRefresh == !old(store.isHeaderRefresh)
        && mode == Manual && mobile == "" && csvMobiles == [] && fileName == "" && selectedDate == today
      ensures reply.Rejected? ==>
        && store.isRefreshed == old(store.isRefreshed) && store.isHeaderRefresh == old(store.isHeaderRefresh)
        && mode == old(mode) && mobile == old(mobile) && csvMobiles == old(csvMobiles)
        && fileName == old(fileName) && selectedDate == old(selectedDate)
    {
      ui.Emit(ShowLoader(SubmitTitle));
      var payload := SubmitPayloadNow();
      ui.Emit(Call(CreateWinner(payload)));
      match reply {
        case Resolved(msg) =>
          ui.Emit(Toast(Success, OrElse(msg, SubmitSucceeded)));
          store.isRefreshed := true;
          store.isHeaderRefresh := !store.isHeaderRefresh;
          HandleClose(today);
        case Rejected(msg) =>
          ui.Emit(Toast(Error, OrElse(msg, SubmitFailed)));
      }
      ui.Emit(HideLoader);
    }

    /** `handleClose`: the form goes back to an empty manual entry dated
        `today`, and the parent is told to close the dialog. */
    method HandleClose(today: string)
      modifies this`mode, this`mobile, this`csvMobiles, this`fileName, this`selectedDate, ui
      ensures Valid()
      ensures mode == Manual && mobile == "" && csvMobiles == [] && fileName == "" && selectedDate == today
      ensures ui.events == old(ui.events) + [Closed]
    {
      mobile := "";
      csvMobiles := [];
      fileName := "";
      mode := Manual;
      selectedDate := today;
      ui.Emit(Closed);
    }
  }
}
