/**
 * The `GuestForm` component: its state, the events its handlers react to,
 * the view each state renders, and the component itself as a class whose
 * methods are the handlers.
 */
module GuestBook {
  import opened Wrappers
  import opened JsString
  import opened GuestList
  import opened Submissions

  /** The component's `useState` slots. */
  datatype FormState = FormState(
    name: string,
    isValid: bool,
    submitted: bool,
    attendance: Attendance,
    guests: int,
    message: string,
    guestList: seq<string>,
    loading: bool,
    error: Option<string>)

  /** The one message shown for every load failure. */
  const LoadFailureMessage: string := "Gagal memuat daftar tamu. Silakan coba lagi nanti."

  /** The state on mount, before the guest list has arrived. */
  function Initial(): FormState {
    FormState("", false, false, Hadir, 1, "", [], true, None)
  }

  /** The state after any failed load. */
  function Failed(): FormState {
    Initial().(loading := false, error := Some(LoadFailureMessage))
  }

  /** What the component renders. */
  datatype View =
    | LoadingView                                       // "Memuat daftar tamu..."
    | ErrorView(message: string)
    | ThankYouView(name: string)                        // "Terima kasih, {name}!"
    | FormView(submissionForm: bool, notRegistered: bool)

  /** `if (error)`: a non-empty error string is truthy. */
  predicate ErrorShown(s: FormState) {
    s.error.Some? && s.error.value != ""
  }

  /** The early returns of the render, in their order, then the form and its two guarded parts. */
  function ViewOf(s: FormState): View {
    if s.loading then LoadingView
    else if ErrorShown(s) then ErrorView(s.error.value)
    else if s.submitted then ThankYouView(s.name)
    else FormView(s.isValid, !s.isValid && s.name != "")
  }

  /** The events the component reacts to. */
  datatype Event =
    | Loaded(response: Response)        // `fetchGuestList` settles
    | NameEdited(value: string)         // the name input's `onChange`
    | CheckClicked                      // "Cek Undangan"
    | AttendanceChosen(choice: Attendance)
    | GuestsEdited(count: int)
    | MessageEdited(text: string)
    | SubmitClicked                     // "Kirim Ucapan"

  /**
   * An event can happen only where its handler is rendered (the load, only
   * while loading). The form has no `noValidate`, so the browser's constraint
   * validation stops the submit while the guest count is below its `min="1"`.
   */
  predicate Enabled(s: FormState, e: Event) {
    match e
    case Loaded(_) => s.loading
    case NameEdited(_) => ViewOf(s).FormView?
    case CheckClicked => ViewOf(s).FormView?
    case SubmitClicked => ViewOf(s).FormView? && ViewOf(s).submissionForm && s.guests >= 1
    case _ => ViewOf(s).FormView? && ViewOf(s).submissionForm
  }

  /** The `try` stores the list or the `catch` the message; the `finally` ends the loading. */
  function AfterLoad(s: FormState, outcome: Result<seq<string>, LoadError>): FormState {
    match outcome
    case Ok(names) => s.(guestList := names, loading := false)
    case Err(_) => s.(error := Some(LoadFailureMessage), loading := false)
  }

  /** The state an event leaves behind. */
  function Step(s: FormState, e: Event): FormState {
    match e
    case Loaded(response) => AfterLoad(s, LoadGuestList(response))
    case NameEdited(v) => s.(name := v)
    case CheckClicked => s.(isValid := IsInvited(s.guestList, s.name))
    case AttendanceChosen(a) => s.(attendance := a)
    case GuestsEdited(n) => s.(guests := n)
    case MessageEdited(m) => s.(message := m)
    case SubmitClicked => s.(submitted := true)
  }

  /** The record a submit pushes: the raw name field, not its trimmed form. */
  function SubmissionOf(s: FormState): Submission {
    Submission(s.name, s.attendance, s.guests, s.message)
  }

  /** Runs a sequence of events; `None` if one of them could not have happened. */
  function Run(s: FormState, events: seq<Event>): Option<FormState>
    decreases |events|
  {
    if events == [] then Some(s)
    else if !Enabled(s, events[0]) then None
    else Run(Step(s, events[0]), events[1..])
  }

  /** The submissions a sequence of events pushes onto the log, in order. */
  function Recorded(s: FormState, events: seq<Event>): seq<Submission>
    decreases |events|
  {
    if events == [] then []
    else (if events[0].SubmitClicked? then [SubmissionOf(s)] else []) + Recorded(Step(s, events[0]), events[1..])
  }

  /** What holds of every state the component can reach. */
  ghost predicate Inv(s: FormState) {
    && (s.loading ==> s == Initial())
    && (s.error.Some? ==> s == Failed())
    && (!s.loading && s.error.None? ==> s.guestList != [] && CleanNames(s.guestList))
    && (s.submitted ==> s.isValid && !s.loading && s.error.None?)
  }

  /** The mount state satisfies the invariant and shows the loading notice. */
  lemma InitialInv()
    ensures Inv(Initial()) && ViewOf(Initial()) == LoadingView
  {
  }

  /** Every event that can happen keeps the invariant. */
  lemma StepInv(s: FormState, e: Event)
    requires Inv(s) && Enabled(s, e)
    ensures Inv(Step(s, e))
  {
  }

  /** Every reachable state satisfies the invariant. */
  lemma {:induction false} RunInv(s: FormState, events: seq<Event>)
    requires Inv(s) && Run(s, events).Some?
    ensures Inv(Run(s, events).value)
    decreases |events|
  {
    if events != [] {
      StepInv(s, events[0]);
      RunInv(Step(s, events[0]), events[1..]);
    }
  }

  /**
   * Once the fetch settles, loading ends on every outcome: the list is
   * stored and the form shown, with neither the submission form nor the
   * notice, exactly when the load succeeds; otherwise the list stays empty
   * and the error view is shown.
   */
  lemma LoadOutcome(s: FormState, response: Response)
    requires Inv(s) && Enabled(s, Loaded(response))
    ensures !Step(s, Loaded(response)).loading
    ensures LoadGuestList(response).Ok? ==>
              Step(s, Loaded(response)).guestList == LoadGuestList(response).value &&
              ViewOf(Step(s, Loaded(response))) == FormView(false, false)
    ensures LoadGuestList(response).Err? ==>
              Step(s, Loaded(response)).guestList == [] &&
              ViewOf(Step(s, Loaded(response))) == ErrorView(LoadFailureMessage)
  {
  }

  /** The view precedence on reachable states: loading, then error, then thank-you, then the form. */
  lemma ViewPrecedence(s: FormState)
    requires Inv(s)
    ensures ViewOf(s) == LoadingView <==> s.loading
    ensures ViewOf(s).ErrorView? <==> s.error.Some?
    ensures ViewOf(s).ThankYouView? <==> s.submitted
    ensures ViewOf(s).FormView? <==> !s.loading && s.error.None? && !s.submitted
    ensures ViewOf(s).FormView? ==> (ViewOf(s).submissionForm <==> s.isValid)
    ensures ViewOf(s).FormView? ==> (ViewOf(s).notRegistered <==> !s.isValid && s.name != "")
  {
  }

  /** Within one mount, a failed load is final: no input is accepted afterwards. */
  lemma {:induction false} FailureIsFinal(events: seq<Event>)
    requires Run(Failed(), events).Some?
    ensures events == [] && ViewOf(Failed()) == ErrorView(LoadFailureMessage)
  {
  }

  /** Within one mount, a submission is final too: the thank-you view accepts no input. */
  lemma SubmittedIsFinal(s: FormState, e: Event)
    requires Inv(s) && s.submitted
    ensures !Enabled(s, e) && ViewOf(s) == ThankYouView(s.name)
  {
  }

  /** After a check, the verdict is exactly whether the trimmed name is on the list. */
  lemma CheckVerdict(s: FormState)
    ensures Step(s, CheckClicked).isValid <==> Trim(s.name) in s.guestList
  {
  }

  /** Checking twice with the same name and list is the same as checking once. */
  lemma CheckIdempotent(s: FormState)
    ensures Step(Step(s, CheckClicked), CheckClicked) == Step(s, CheckClicked)
  {
  }

  /**
   * Editing the name touches nothing else: the earlier verdict stays, so the
   * submission form stays as it was, and the notice follows the new text.
   */
  lemma EditKeepsVerdict(s: FormState, v: string)
    requires Inv(s) && Enabled(s, NameEdited(v))
    ensures Step(s, NameEdited(v)).isValid == s.isValid
    ensures Step(s, NameEdited(v)).guestList == s.guestList
    ensures ViewOf(Step(s, NameEdited(v))) == FormView(s.isValid, !s.isValid && v != "")
  {
  }

  /**
   * Submitting needs a positive verdict, no earlier submit and a guest count
   * of at least one; afterwards the thank-you view, with the raw name, takes over.
   */
  lemma SubmitOutcome(s: FormState)
    requires Inv(s) && Enabled(s, SubmitClicked)
    ensures s.isValid && !s.submitted && s.guests >= 1
    ensures ViewOf(Step(s, SubmitClicked)) == ThankYouView(s.name)
  {
  }

  /** One mount of the form pushes at most one submission, however its events go. */
  lemma {:induction false} AtMostOneSubmission(s: FormState, events: seq<Event>)
    requires Inv(s) && Run(s, events).Some?
    ensures |Recorded(s, events)| <= (if s.submitted then 0 else 1)
    decreases |events|
  {
    if events != [] {
      var e := events[0];
      StepInv(s, e);
      AtMostOneSubmission(Step(s, e), events[1..]);
      if e.SubmitClicked? {
        var rest := events[1..];
        assert rest == [] by {
          if rest != [] { SubmittedIsFinal(Step(s, e), rest[0]); }
        }
      }
    }
  }

  /** Every record a possible run pushes counts at least one guest. */
  lemma {:induction false} RecordedGuestsPositive(s: FormState, events: seq<Event>)
    requires Run(s, events).Some?
    ensures forall i :: 0 <= i < |Recorded(s, events)| ==> Recorded(s, events)[i].guests >= 1
    decreases |events|
  {
    if events != [] {
      RecordedGuestsPositive(Step(s, events[0]), events[1..]);
    }
  }

  /** Clearing the guest count below one blocks the submit that follows. */
  lemma UnderflowBlocksSubmit(s: FormState, n: int)
    requires n < 1
    ensures Run(s, [GuestsEdited(n), SubmitClicked]).None?
  {
    assert [GuestsEdited(n), SubmitClicked][1..] == [SubmitClicked];
  }

  /** Running events one after another: the first, then the rest. */
  lemma RunFirst(s: FormState, e: Event, rest: seq<Event>)
    requires Enabled(s, e)
    ensures Run(s, [e] + rest) == Run(Step(s, e), rest)
    ensures Recorded(s, [e] + rest) == (if e.SubmitClicked? then [SubmissionOf(s)] else []) + Recorded(Step(s, e), rest)
  {
    assert ([e] + rest)[1..] == rest;
  }

  /** A name that passes the check can be submitted at once, and is recorded exactly as typed. */
  lemma CheckedNameRecordedAsTyped(s: FormState, typed: string)
    requires ViewOf(s).FormView? && IsInvited(s.guestList, typed) && s.guests >= 1
    ensures var events := [NameEdited(typed), CheckClicked, SubmitClicked];
            && Run(s, events).Some?
            && Recorded(s, events) == [SubmissionOf(s.(name := typed, isValid := true))]
  {
    var s1 := Step(s, NameEdited(typed));
    var s2 := Step(s1, CheckClicked);
    RunFirst(s2, SubmitClicked, []);
    RunFirst(s1, CheckClicked, [SubmitClicked]);
    RunFirst(s, NameEdited(typed), [CheckClicked, SubmitClicked]);
  }

  /**
   * After a positive check the name can be changed to anything at all and
   * still be submitted: the record carries the new name, checked or not.
   */
  lemma EditAfterSubmitEnabled(s: FormState, checked: string, submitted: string)
    requires ViewOf(s).FormView? && IsInvited(s.guestList, checked) && s.guests >= 1
    ensures var events := [NameEdited(checked), CheckClicked, NameEdited(submitted), SubmitClicked];
            && Run(s, events).Some?
            && Recorded(s, events) == [SubmissionOf(s.(name := submitted, isValid := true))]
  {
    var s1 := Step(s, NameEdited(checked));
    var s2 := Step(s1, CheckClicked);
    var s3 := Step(s2, NameEdited(submitted));
    RunFirst(s3, SubmitClicked, []);
    RunFirst(s2, NameEdited(submitted), [SubmitClicked]);
    RunFirst(s1, CheckClicked, [NameEdited(submitted), SubmitClicked]);
    RunFirst(s, NameEdited(checked), [CheckClicked, NameEdited(submitted), SubmitClicked]);
  }

  /** The state right after a successful load. */
  lemma LoadedState(response: Response)
    requires LoadGuestList(response).Ok?
    ensures var loaded := Initial().(guestList := LoadGuestList(response).value, loading := false);
            && Step(Initial(), Loaded(response)) == loaded
            && ViewOf(loaded) == FormView(false, false)
  {
  }

  /**
   * From mount, whatever the sheet: once a name passes the check it can be
   * submitted, and the log receives it exactly as typed, white space included.
   */
  lemma RawNameRecordedFromMount(response: Response, typed: string)
    requires LoadGuestList(response).Ok? && IsInvited(LoadGuestList(response).value, typed)
    ensures var events := [Loaded(response), NameEdited(typed), CheckClicked, SubmitClicked];
            && Run(Initial(), events).Some?
            && Recorded(Initial(), events) == [Submission(typed, Hadir, 1, "")]
  {
    var loaded := Step(Initial(), Loaded(response));
    LoadedState(response);
    var rest := [NameEdited(typed), CheckClicked, SubmitClicked];
    assert [Loaded(response)] + rest == [Loaded(response), NameEdited(typed), CheckClicked, SubmitClicked];
    RunFirst(Initial(), Loaded(response), rest);
    CheckedNameRecordedAsTyped(loaded, typed);
  }

  /**
   * From mount, whatever the sheet: after one invited name passes the check,
   * any other name at all, invited or not, can be typed and submitted.
   */
  lemma StaleVerdictFromMount(response: Response, checked: string, other: string)
    requires LoadGuestList(response).Ok? && IsInvited(LoadGuestList(response).value, checked)
    ensures var events := [Loaded(response), NameEdited(checked), CheckClicked, NameEdited(other), SubmitClicked];
            && Run(Initial(), events).Some?
            && Recorded(Initial(), events) == [Submission(other, Hadir, 1, "")]
  {
    var loaded := Step(Initial(), Loaded(response));
    LoadedState(response);
    var rest := [NameEdited(checked), CheckClicked, NameEdited(other), SubmitClicked];
    assert [Loaded(response)] + rest == [Loaded(response), NameEdited(checked), CheckClicked, NameEdited(other), SubmitClicked];
    RunFirst(Initial(), Loaded(response), rest);
    EditAfterSubmitEnabled(loaded, checked, other);
  }

  /** The component, with its state slots as fields and its handlers as methods. */
  class GuestForm {
    var name: string
    var isValid: bool
    var submitted: bool
    var attendance: Attendance
    var guests: int
    var message: string
    var guestList: seq<string>
    var loading: bool
    var error: Option<string>
    const storage: LocalStorage

    /** The name the last "Cek Undangan" click looked at. */
    ghost var checkedName: string

    function State(): FormState
      reads this
    {
      FormState(name, isValid, submitted, attendance, guests, message, guestList, loading, error)
    }

    /** The reachable-state invariant, and a positive verdict means some checked name was invited. */
    ghost predicate Valid()
      reads this
    {
      Inv(State()) && (isValid ==> IsInvited(guestList, checkedName))
    }

    constructor (storage: LocalStorage)
      ensures Valid() && State() == Initial() && this.storage == storage
    {
      name, isValid, submitted := "", false, false;
      attendance, guests, message := Hadir, 1, "";
      guestList, loading, error := [], true, None;
      this.storage := storage;
      checkedName := "";
    }

    /** The `try`/`catch`/`finally` of `fetchGuestList`, given what the network returned. */
    method FetchGuestList(response: Response)
      requires Valid() && Enabled(State(), Loaded(response))
      modifies this
      ensures Valid() && State() == Step(old(State()), Loaded(response))
      ensures checkedName == old(checkedName)
    {
      StepInv(State(), Loaded(response));
      var outcome := LoadGuestList(response);
      if outcome.Ok? {
        guestList := outcome.value;
      } else {
        error := Some(LoadFailureMessage);
      }
      loading := false;
    }

    /** The name input's `onChange`: only `name` changes. */
    method SetName(value: string)
      requires Valid() && Enabled(State(), NameEdited(value))
      modifies this
      ensures Valid() && State() == Step(old(State()), NameEdited(value))
      ensures checkedName == old(checkedName)
    {
      StepInv(State(), NameEdited(value));
      name := value;
    }

    /** `handleCheck`. */
    method HandleCheck()
      requires Valid() && Enabled(State(), CheckClicked)
      modifies this
      ensures Valid() && State() == Step(old(State()), CheckClicked)
      ensures checkedName == name
    {
      StepInv(State(), CheckClicked);
      isValid := IsInvited(guestList, name);
      checkedName := name;
    }

    /** The attendance select's `onChange`. */
    method SetAttendance(choice: Attendance)
      requires Valid() && Enabled(State(), AttendanceChosen(choice))
      modifies this
      ensures Valid() && State() == Step(old(State()), AttendanceChosen(choice))
      ensures checkedName == old(checkedName)
    {
      StepInv(State(), AttendanceChosen(choice));
      attendance := choice;
    }

    /** The guest-count input's `onChange`. */
    method SetGuests(count: int)
      requires Valid() && Enabled(State(), GuestsEdited(count))
      modifies this
      ensures Valid() && State() == Step(old(State()), GuestsEdited(count))
      ensures checkedName == old(checkedName)
    {
      StepInv(State(), GuestsEdited(count));
      guests := count;
    }

    /** The message textarea's `onChange`. */
    method SetMessage(text: string)
      requires Valid() && Enabled(State(), MessageEdited(text))
      modifies this
      ensures Valid() && State() == Step(old(State()), MessageEdited(text))
      ensures checkedName == old(checkedName)
    {
      StepInv(State(), MessageEdited(text));
      message := text;
    }

    /**
     * `handleSubmit`: read the log, push the form's record, write the log
     * back, show the thank-you view. The record carries the current raw name,
     * which need not be the name whose check enabled the form.
     */
    method HandleSubmit()
      requires Valid() && Enabled(State(), SubmitClicked)
      modifies this, storage
      ensures Valid() && State() == Step(old(State()), SubmitClicked)
      ensures storage.items == Appended(old(storage.items), SubmissionOf(old(State())))
      ensures IsInvited(guestList, checkedName) && checkedName == old(checkedName)
    {
      StepInv(State(), SubmitClicked);
      var data := storage.GetLog();
      data := data + [Submission(name, attendance, guests, message)];
      storage.SetLog(data);
      submitted := true;
    }
  }
}
