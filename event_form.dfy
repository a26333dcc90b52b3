/** The create/edit event dialog: the prefill effect, the hour and minute input
    guards, the ordered validation chain of `handleSubmit` with its messages, the
    `HH:MM` time string, and the single store call made on success. */
module EventForm {
  import opened Wrappers
  import opened Events
  import opened JsText
  import opened EventStore

  /** The failures `handleSubmit` reports, in the order it checks them. */
  datatype FormError = TitleRequired | TimeRequired | HoursOutOfRange | MinutesOutOfRange | NotAuthenticated

  /** The text shown for each failure. */
  function Message(e: FormError): string {
    match e
    case TitleRequired => "Title is required"
    case TimeRequired => "Both hours and minutes are required"
    case HoursOutOfRange => "Hours must be between 00 and 23"
    case MinutesOutOfRange => "Minutes must be between 00 and 59"
    case NotAuthenticated => "User not authenticated"
  }

  /** The dialog's four text fields. */
  datatype Fields = Fields(title: string, description: string, hours: string, minutes: string)

  /** `!isNaN(n) && n >= 0 && n <= max` for `n = parseInt(...)`. */
  predicate InRange(n: Option<int>, max: int) {
    n.Some? && 0 <= n.value <= max
  }

  /** The guard chain of `handleSubmit`; on success, the uid of the logged-in user. */
  function Validate(f: Fields, user: Option<string>): Result<string, FormError> {
    if IsBlank(f.title) then Failure(TitleRequired)
    else if IsBlank(f.hours) || IsBlank(f.minutes) then Failure(TimeRequired)
    else if !InRange(ParseInt(f.hours), 23) then Failure(HoursOutOfRange)
    else if !InRange(ParseInt(f.minutes), 59) then Failure(MinutesOutOfRange)
    else if user.None? then Failure(NotAuthenticated)
    else Success(user.value)
  }

  /** `${hours.padStart(2, "0")}:${minutes.padStart(2, "0")}`. */
  function TimeString(hours: string, minutes: string): string {
    PadStart(hours, 2, '0') + ":" + PadStart(minutes, 2, '0')
  }

  /** The one store call a successful submit makes. */
  datatype StoreCall = AddCall(draft: Draft) | UpdateCall(id: string, patch: Patch)

  /** The patch the dialog sends when editing: title, description and time, and
      nothing else. */
  function EditPatch(f: Fields): Patch {
    Patch(None, Some(Trim(f.title)), Some(Trim(f.description)), None, Some(TimeString(f.hours, f.minutes)), None)
  }

  /** The outcome of `handleSubmit` on the form `f`: the error it shows, or the store
      call it makes (`updateEvent` when editing, `addEvent` otherwise). */
  function SubmitCall(f: Fields, user: Option<string>, editing: Option<Event>, dateString: string): Result<StoreCall, FormError> {
    match Validate(f, user)
    case Failure(e) => Failure(e)
    case Success(uid) =>
      if editing.Some? then Success(UpdateCall(editing.value.id, EditPatch(f)))
      else Success(AddCall(Draft(Trim(f.title), Trim(f.description), dateString, TimeString(f.hours, f.minutes), uid)))
  }

  /** The list after `call` is made by the logged-in `uid`; `freshId` is the id
      `addEvent` generates. */
  function ApplyCall(events: seq<Event>, uid: string, call: StoreCall, freshId: string): seq<Event> {
    match call
    case AddCall(d) => Appended(events, d, uid, freshId)
    case UpdateCall(id, p) => Updated(events, id, uid, p)
  }

  /** What `handleSubmit` leaves once its outcome is known: on failure the message,
      `loading` as it was and the store untouched; on success no message, `loading`
      off, and the list and storage after exactly that one call. */
  predicate Submitted(
    outcome: Result<StoreCall, FormError>, freshId: string,
    loadingBefore: bool, loading: bool, error: string, user: Option<string>,
    eventsBefore: seq<Event>, storageBefore: map<string, Blob>,
    events: seq<Event>, storage: map<string, Blob>)
  {
    match outcome
    case Failure(e) =>
      error == Message(e) && loading == loadingBefore && events == eventsBefore && storage == storageBefore
    case Success(call) =>
      && error == "" && !loading && user.Some?
      && events == ApplyCall(eventsBefore, user.value, call, freshId)
      && storage == Saved(storageBefore, user, events)
  }

  /** Each guard, in order: a failing check wins over every later one. */
  lemma SubmitErrors(f: Fields, user: Option<string>, editing: Option<Event>, dateString: string)
    ensures IsBlank(f.title) ==> SubmitCall(f, user, editing, dateString) == Failure(TitleRequired)
    ensures !IsBlank(f.title) && (IsBlank(f.hours) || IsBlank(f.minutes)) ==>
      SubmitCall(f, user, editing, dateString) == Failure(TimeRequired)
    ensures !IsBlank(f.title) && !IsBlank(f.hours) && !IsBlank(f.minutes) && !InRange(ParseInt(f.hours), 23) ==>
      SubmitCall(f, user, editing, dateString) == Failure(HoursOutOfRange)
    ensures (&& !IsBlank(f.title) && !IsBlank(f.hours) && !IsBlank(f.minutes)
             && InRange(ParseInt(f.hours), 23) && !InRange(ParseInt(f.minutes), 59)) ==>
      SubmitCall(f, user, editing, dateString) == Failure(MinutesOutOfRange)
    ensures (&& !IsBlank(f.title) && !IsBlank(f.hours) && !IsBlank(f.minutes)
             && InRange(ParseInt(f.hours), 23) && InRange(ParseInt(f.minutes), 59) && user.None?) ==>
      SubmitCall(f, user, editing, dateString) == Failure(NotAuthenticated)
  {
  }

  /** A submit leads to a store call exactly when the checks pass: building the
      call cannot fail. */
  lemma SubmitSucceedsIff(f: Fields, user: Option<string>, editing: Option<Event>, dateString: string)
    ensures SubmitCall(f, user, editing, dateString).Success? <==> Validate(f, user).Success?
    ensures SubmitCall(f, user, editing, dateString).Failure? ==>
      SubmitCall(f, user, editing, dateString).error == Validate(f, user).error
  {
  }

  /** The checks pass exactly when every field check passes and a user is logged in,
      and then they yield that user's uid. */
  lemma ValidatedUser(f: Fields, user: Option<string>)
    ensures Validate(f, user).Success? <==>
      && !IsBlank(f.title) && !IsBlank(f.hours) && !IsBlank(f.minutes)
      && InRange(ParseInt(f.hours), 23) && InRange(ParseInt(f.minutes), 59)
      && user.Some?
    ensures Validate(f, user).Success? ==> user == Some(Validate(f, user).value)
  {
  }

  /** On success the call carries the trimmed texts and the padded time; an edit
      targets the edited event's id and sends no id, date or owner; a create sends the
      dialog's date and the logged-in uid. */
  lemma SubmitCallContents(f: Fields, uid: string, editing: Option<Event>, dateString: string)
    requires SubmitCall(f, Some(uid), editing, dateString).Success?
    ensures var call := SubmitCall(f, Some(uid), editing, dateString).value;
      match editing
      case Some(ev) =>
        && call.UpdateCall? && call.id == ev.id
        && call.patch.id.None? && call.patch.date.None? && call.patch.userId.None?
        && call.patch.title == Some(Trim(f.title)) && call.patch.description == Some(Trim(f.description))
        && call.patch.time == Some(TimeString(f.hours, f.minutes))
      case None =>
        && call.AddCall?
        && call.draft == Draft(Trim(f.title), Trim(f.description), dateString, TimeString(f.hours, f.minutes), uid)
  {
    ValidatedUser(f, Some(uid));
    assert Validate(f, Some(uid)) == Success(uid);
  }

  /** An edit keeps every entry's id and owner (the form never sends them). */
  lemma EditKeepsIdentity(s: seq<Event>, id: string, uid: string, f: Fields)
    ensures var r := Updated(s, id, uid, EditPatch(f));
      forall i :: 0 <= i < |s| ==> r[i].id == s[i].id && r[i].userId == s[i].userId && r[i].date == s[i].date
  {
    UpdatedKeepsIdentity(s, id, uid, EditPatch(f));
  }

  // ---------------------------------------------------------------------------
  // The time string
  // ---------------------------------------------------------------------------

  /** A one-character part gains a leading "0"; a longer part is unchanged. */
  lemma PadTwo(part: string)
    ensures |part| == 1 ==> PadStart(part, 2, '0') == "0" + part
    ensures |part| >= 2 ==> PadStart(part, 2, '0') == part
  {
    if |part| == 1 {
      assert Repeat('0', 1) == "0";
    }
  }

  /** Padding adds only zeros, so it adds no ':'. */
  lemma PadAddsNoColon(part: string)
    requires ':' !in part
    ensures ':' !in PadStart(part, 2, '0')
  {
    var r := PadStart(part, 2, '0');
    var k := |r| - |part|;
    forall i | 0 <= i < |r| ensures r[i] != ':' {
      if i >= k {
        assert r[i] == r[k..][i - k];
      }
    }
  }

  /** Splitting the time string on ':' gives back the two padded parts, provided the
      parts hold no ':'. */
  lemma TimeSplitRoundTrip(hours: string, minutes: string)
    requires ':' !in hours && ':' !in minutes
    ensures Split(TimeString(hours, minutes), ':') == [PadStart(hours, 2, '0'), PadStart(minutes, 2, '0')]
  {
    var ph, pm := PadStart(hours, 2, '0'), PadStart(minutes, 2, '0');
    PadAddsNoColon(hours);
    PadAddsNoColon(minutes);
    assert Join([ph, pm], ':') == TimeString(hours, minutes) by {
      assert [ph, pm][1..] == [pm];
    }
    SplitJoin([ph, pm], ':');
  }

  /** Two decimal digits, ':', two decimal digits, at most 23 and 59. */
  predicate IsClockTime(t: string) {
    && |t| == 5 && t[2] == ':'
    && IsDecimal(t[..2]) && IsDecimal(t[3..])
    && ValueOf(t[..2], 10) <= 23 && ValueOf(t[3..], 10) <= 59
  }

  /** A numeral of one or two digits pads to two digits with the same value. */
  lemma PadNumeral(part: string)
    requires IsDecimal(part) && |part| <= 2
    ensures var p := PadStart(part, 2, '0');
      |p| == 2 && IsDecimal(p) && ValueOf(p, 10) == ValueOf(part, 10)
  {
    PadTwo(part);
    if |part| == 1 {
      ValueOfLeadingZero(part);
    }
  }

  /** When both parts are numerals of at most two digits, a passing submit produces
      a well-formed `HH:MM` time. */
  lemma ShortNumeralsGiveClockTime(hours: string, minutes: string)
    requires IsDecimal(hours) && |hours| <= 2 && IsDecimal(minutes) && |minutes| <= 2
    requires InRange(ParseInt(hours), 23) && InRange(ParseInt(minutes), 59)
    ensures IsClockTime(TimeString(hours, minutes))
  {
    ParseIntDecimal(hours);
    ParseIntDecimal(minutes);
    PadNumeral(hours);
    PadNumeral(minutes);
    ClockTimeOfParts(PadStart(hours, 2, '0'), PadStart(minutes, 2, '0'));
  }

  /** Two two-digit numerals of at most 23 and 59 joined by ':' form a clock time. */
  lemma ClockTimeOfParts(h: string, m: string)
    requires |h| == 2 && IsDecimal(h) && ValueOf(h, 10) <= 23
    requires |m| == 2 && IsDecimal(m) && ValueOf(m, 10) <= 59
    ensures IsClockTime(h + ":" + m)
  {
    var t := h + ":" + m;
    assert t[..2] == h && t[3..] == m;
  }

  /** Decimal numerals pass the time checks exactly by their value, whatever their
      length. */
  lemma {:induction false} DecimalPartsPassChecks(f: Fields, uid: string)
    requires !IsBlank(f.title) && IsDecimal(f.hours) && IsDecimal(f.minutes)
    requires ValueOf(f.hours, 10) <= 23 && ValueOf(f.minutes, 10) <= 59
    ensures Validate(f, Some(uid)) == Success(uid)
  {
    assert InRange(ParseInt(f.hours), 23) by {
      ParseIntDecimal(f.hours);
    }
    assert InRange(ParseInt(f.minutes), 59) by {
      ParseIntDecimal(f.minutes);
    }
    DecimalNotBlank(f.hours);
    DecimalNotBlank(f.minutes);
    ValidatedUser(f, Some(uid));
  }

  /** The padding does not shorten a longer part: hours such as "005" pass every
      check, yet the time they give is not `HH:MM`. */
  lemma {:induction false} LongHoursAreNotPadded(f: Fields, uid: string)
    requires !IsBlank(f.title) && IsDecimal(f.hours) && IsDecimal(f.minutes)
    requires ValueOf(f.hours, 10) <= 23 && ValueOf(f.minutes, 10) <= 59
    requires |f.hours| > 2
    ensures Validate(f, Some(uid)) == Success(uid)
    ensures !IsClockTime(TimeString(f.hours, f.minutes))
  {
    DecimalPartsPassChecks(f, uid);
    PadTwo(f.hours);
  }

  /** The accepted hours "005" give the six-character time "005:30". */
  lemma LongHoursTime()
    ensures TimeString("005", "30") == "005:30"
  {
    PadTwo("005");
    PadTwo("30");
  }

  /** A decimal numeral is not blank. */
  lemma DecimalNotBlank(s: string)
    requires IsDecimal(s)
    ensures !IsBlank(s)
  {
    NotBlank(s, 0);
  }

  /** A string with a character that is not white space is not blank. */
  lemma NotBlank(s: string, i: nat)
    requires i < |s| && !IsSpace(s[i])
    ensures !IsBlank(s)
  {
    BlankIffAllSpace(s);
  }

  // ---------------------------------------------------------------------------
  // Prefill and the input guards
  // ---------------------------------------------------------------------------

  /** The prefill effect: an edited event's texts, and its time split on ':' into
      hours and minutes (`h || ""`, `m || ""`); empty fields when creating. */
  function PrefillFields(editing: Option<Event>): Fields {
    match editing
    case None => Fields("", "", "", "")
    case Some(ev) =>
      var parts := Split(ev.time, ':');
      Fields(ev.title, ev.description, parts[0], if |parts| >= 2 then parts[1] else "")
  }

  /** Editing an event whose time the dialog produced shows the padded hours and
      minutes, and submitting them unchanged produces the same time again. */
  lemma PrefillReadsBackTime(ev: Event, hours: string, minutes: string)
    requires ':' !in hours && ':' !in minutes
    requires ev.time == TimeString(hours, minutes)
    ensures PrefillFields(Some(ev)).hours == PadStart(hours, 2, '0')
    ensures PrefillFields(Some(ev)).minutes == PadStart(minutes, 2, '0')
    ensures TimeString(PrefillFields(Some(ev)).hours, PrefillFields(Some(ev)).minutes) == ev.time
  {
    TimeSplitRoundTrip(hours, minutes);
    PadStartIdempotent(hours, 2, '0');
    PadStartIdempotent(minutes, 2, '0');
  }

  /** The `onChange` guard of the hours (max 23) and minutes (max 59) inputs: the new
      text is taken only if it is empty or parses into 0..max. */
  predicate AcceptsInput(value: string, max: int) {
    value == "" || InRange(ParseInt(value), max)
  }

  /** Fields filled only through the input guards never fail the range checks: an
      empty field is caught as missing first. */
  lemma GuardedInputsPassRangeChecks(f: Fields, user: Option<string>, editing: Option<Event>, dateString: string)
    requires AcceptsInput(f.hours, 23) && AcceptsInput(f.minutes, 59)
    ensures SubmitCall(f, user, editing, dateString) != Failure(HoursOutOfRange)
    ensures SubmitCall(f, user, editing, dateString) != Failure(MinutesOutOfRange)
  {
    assert IsBlank("");
  }

  /** The dialog's state. `store.user` is the logged-in user that both the dialog and
      the store read from the identity provider. */
  class Modal {
    const store: Store
    /** The event being edited, if any (`isEditing`). */
    const event: Option<Event>
    /** `format(date, "yyyy-MM-dd")` of the dialog's day. */
    const dateString: string
    var title: string
    var description: string
    var hours: string
    var minutes: string
    var error: string
    var loading: bool

    function Form(): Fields
      reads this
    {
      Fields(title, description, hours, minutes)
    }

    /** Both time inputs hold what their guards accept. */
    predicate TimeInputsGuarded()
      reads this
    {
      AcceptsInput(hours, 23) && AcceptsInput(minutes, 59)
    }

    /** Opening the dialog: empty state, then the prefill effect. */
    constructor (store: Store, event: Option<Event>, dateString: string)
      ensures this.store == store && this.event == event && this.dateString == dateString
      ensures Form() == PrefillFields(event)
      ensures error == "" && !loading
      ensures event.None? ==> TimeInputsGuarded()
    {
      this.store := store;
      this.event := event;
      this.dateString := dateString;
      error := "";
      loading := false;
      if event.Some? {
        title := event.value.title;
        description := event.value.description;
        var parts := Split(event.value.time, ':');
        hours := parts[0];
        minutes := if |parts| >= 2 then parts[1] else "";
      } else {
        title, description, hours, minutes := "", "", "", "";
      }
    }

    /** The hours input's `onChange`. */
    method OnHoursChange(value: string)
      modifies this`hours
      ensures hours == if AcceptsInput(value, 23) then value else old(hours)
      ensures old(TimeInputsGuarded()) ==> TimeInputsGuarded()
    {
      if value == "" || InRange(ParseInt(value), 23) {
        hours := value;
      }
    }

    /** The minutes input's `onChange`. */
    method OnMinutesChange(value: string)
      modifies this`minutes
      ensures minutes == if AcceptsInput(value, 59) then value else old(minutes)
      ensures old(TimeInputsGuarded()) ==> TimeInputsGuarded()
    {
      if value == "" || InRange(ParseInt(value), 59) {
        minutes := value;
      }
    }

    /** `handleSubmit`: on a failed check, its message and no store call; otherwise no
        message and exactly the call `SubmitCall` names. `freshId` stands for the id
        that `addEvent` generates. */
    method HandleSubmit(freshId: string)
      modifies this`error, this`loading, store
      ensures store.user == old(store.user)
      ensures Submitted(SubmitCall(old(Form()), old(store.user), event, dateString), freshId, old(loading), loading, error,
                        store.user, old(store.events), old(store.storage), store.events, store.storage)
      ensures old(store.Synced()) ==> store.Synced()
      ensures old(store.Owned()) ==> store.Owned()
    {
      error := "";
      var outcome := Check();
      if outcome.Failure? {
        error := Message(outcome.error);
        return;
      }
      loading := true;
      Dispatch(outcome.value, freshId);
      loading := false;
    }

    /** The checks of `handleSubmit`, one early return each, in the source's order,
        and the store call they lead to. */
    method Check() returns (outcome: Result<StoreCall, FormError>)
      ensures outcome == SubmitCall(Form(), store.user, event, dateString)
      ensures outcome.Success? ==> store.user.Some?
    {
      if IsBlank(title) {
        return Failure(TitleRequired);
      }
      var hoursNum, minutesNum := ParseInt(hours), ParseInt(minutes);
      if IsBlank(hours) || IsBlank(minutes) {
        return Failure(TimeRequired);
      }
      if !InRange(hoursNum, 23) {
        return Failure(HoursOutOfRange);
      }
      if !InRange(minutesNum, 59) {
        return Failure(MinutesOutOfRange);
      }
      if store.user.None? {
        return Failure(NotAuthenticated);
      }
      var timeString := TimeString(hours, minutes);
      if event.Some? {
        outcome := Success(UpdateCall(event.value.id, EditPatch(Form())));
      } else {
        outcome := Success(AddCall(Draft(Trim(title), Trim(description), dateString, timeString, store.user.value)));
      }
    }

    /** The `try` block of `handleSubmit`: `updateEvent` or `addEvent` with the
        built arguments. */
    method Dispatch(call: StoreCall, freshId: string)
      requires store.user.Some?
      modifies store
      ensures store.user == old(store.user)
      ensures store.events == ApplyCall(old(store.events), store.user.value, call, freshId)
      ensures store.storage == Saved(old(store.storage), store.user, store.events)
      ensures old(store.Synced()) ==> store.Synced()
      ensures old(store.Owned()) && (call.UpdateCall? ==> call.patch.userId.None?) ==> store.Owned()
    {
      match call
      case UpdateCall(id, p) => store.UpdateEvent(id, p);
      case AddCall(d) => store.AddEvent(d, freshId);
    }

    /** `handleDelete`: nothing without an edited event; otherwise `deleteEvent` on
        its id. */
    method HandleDelete()
      modifies this`loading, store
      ensures store.user == old(store.user)
      ensures loading == (old(loading) && event.None?)
      ensures event.None? || store.user.None? ==> store.events == old(store.events) && store.storage == old(store.storage)
      ensures event.Some? && store.user.Some? ==>
        && store.events == Deleted(old(store.events), event.value.id, store.user.value)
        && store.storage == Saved(old(store.storage), store.user, store.events)
      ensures old(store.Synced()) ==> store.Synced()
      ensures old(store.Owned()) ==> store.Owned()
    {
      if event.None? {
        return;
      }
      loading := true;
      store.DeleteEvent(event.value.id);
      loading := false;
    }
  }
}
