/** The admin's "Edit Session" modal: prefills the form and the date picker
    from the session, and submits the form data with the picked date and the
    session's id. It takes `updateSession` from the session context, whose
    provider value has no member of that name. */
module EditSessionModal {
  import opened Values
  import opened Entities

  /** What destructuring `updateSession` from the context yields: nothing,
      or a function whose backend call ends in `outcome`. */
  datatype Updater = Missing | Available(outcome: Outcome)

  /** The provider value lists `upcoming`, `past`, `topics`, `votes`,
      `isAdmin` and six functions, none of them `updateSession`. */
  const ContextUpdater: Updater := Missing

  const DateRequired := "Date is required"
  const NotAFunction := "updateSession is not a function"
  const NoSession := "Cannot read properties of null (reading 'id')"

  const PrefilledFields: set<string> := {"title", "description", "speaker", "calendar_link"}

  /** The four `setValue` calls of the prefill effect. */
  function PrefillValues(s: Session): (r: Record)
    ensures r.Keys == PrefilledFields
    ensures r["title"] == Str(s.title) && r["description"] == Str(s.description)
    ensures r["speaker"] == Str(s.speaker) && r["calendar_link"] == Str(s.calendarLink)
  {
    map["title" := Str(s.title), "description" := Str(s.description),
        "speaker" := Str(s.speaker), "calendar_link" := Str(s.calendarLink)]
  }

  /** `{ ...data, date: selectedDate.toISOString(), id: session.id }`. */
  function EditPayload(form: Record, date: int, id: string): (r: Record)
    ensures r.Keys == form.Keys + {"date", "id"}
    ensures r["date"] == Instant(date) && r["id"] == Str(id)
    ensures forall k :: k != "date" && k != "id" ==> Get(r, k) == Get(form, k)
  {
    form + map["date" := Instant(date), "id" := Str(id)]
  }

  datatype EditResult = Failed(error: string) | Saved(payload: Record)

  /** The `try` block of `onSubmit`, up to and including the awaited call. */
  function SubmitEdit(form: Record, selectedDate: Option<int>, session: Option<Session>, updater: Updater): (r: EditResult)
    ensures selectedDate.None? ==> r == Failed(DateRequired)
    ensures selectedDate.Some? && session.None? ==> r == Failed(NoSession)
    ensures selectedDate.Some? && session.Some? && updater.Missing? ==> r == Failed(NotAFunction)
    ensures r.Saved? <==> selectedDate.Some? && session.Some? && updater == Available(Ok)
    ensures r.Saved? ==> r.payload == EditPayload(form, selectedDate.value, session.value.id)
    ensures selectedDate.Some? && session.Some? && updater.Available? && updater.outcome.Err? ==>
              r == Failed(updater.outcome.error)
  {
    if selectedDate.None? then Failed(DateRequired)
    else if session.None? then Failed(NoSession)
    else
      match updater
      case Missing => Failed(NotAFunction)
      case Available(Err(e)) => Failed(e)
      case Available(Ok) => Saved(EditPayload(form, selectedDate.value, session.value.id))
  }

  /** As written, no input saves: the call reaches an undefined function
      whenever the date and the session are present. */
  lemma AsWrittenNeverSaves(form: Record, selectedDate: Option<int>, session: Option<Session>)
    ensures SubmitEdit(form, selectedDate, session, ContextUpdater).Failed?
  {
  }

  /** A complete edit (a picked date, a loaded session) fails as written and
      saves once the context supplies an `updateSession` that succeeds. */
  lemma CompleteEditShowsMissingUpdater(form: Record, date: int, s: Session)
    ensures SubmitEdit(form, Some(date), Some(s), ContextUpdater) == Failed(NotAFunction)
    ensures SubmitEdit(form, Some(date), Some(s), Available(Ok)) == Saved(EditPayload(form, date, s.id))
  {
  }

  class Modal {
    var session: Option<Session>
    var form: Record
    var selectedDate: Option<int>
    var open: bool

    /** Mounting starts with no date and runs the prefill effect once. */
    constructor (session: Option<Session>, open: bool)
      ensures this.session == session && this.open == open
      ensures session.Some? ==> form == PrefillValues(session.value) && selectedDate == Some(session.value.date)
      ensures session.None? ==> form == EmptyForm && selectedDate == None
    {
      this.session := session;
      this.open := open;
      form := EmptyForm;
      selectedDate := None;
      new;
      Prefill();
    }

    /** The effect body: with a session, four `setValue` calls and the date
        picker set to the session's date; without one, nothing. */
    method Prefill()
      modifies this`form, this`selectedDate
      ensures session.Some? ==> form == old(form) + PrefillValues(session.value) && selectedDate == Some(session.value.date)
      ensures session.None? ==> form == old(form) && selectedDate == old(selectedDate)
    {
      if session.Some? {
        var s := session.value;
        form := form["title" := Str(s.title)];
        form := form["description" := Str(s.description)];
        form := form["speaker" := Str(s.speaker)];
        selectedDate := Some(s.date);
        form := form["calendar_link" := Str(s.calendarLink)];
      }
    }

    /** A new `session` prop re-runs the effect. */
    method SetSession(s: Option<Session>)
      modifies this`session, this`form, this`selectedDate
      ensures session == s
      ensures s.Some? ==> form == old(form) + PrefillValues(s.value) && selectedDate == Some(s.value.date)
      ensures s.None? ==> form == old(form) && selectedDate == old(selectedDate)
    {
      session := s;
      Prefill();
    }

    /** The date picker's `onChange`. */
    method PickDate(d: Option<int>)
      modifies this`selectedDate
      ensures selectedDate == d
    {
      selectedDate := d;
    }

    /** `onSubmit` against a context that supplies `updater`: on success the
        form is reset, the date cleared and the modal closed; on any throw
        (no date, no session, the call failing) the error is swallowed and
        nothing changes. */
    method OnSubmit(updater: Updater) returns (r: EditResult)
      modifies this`form, this`selectedDate, this`open
      ensures r == SubmitEdit(old(form), old(selectedDate), session, updater)
      ensures r.Saved? ==> form == EmptyForm && selectedDate == None && !open
      ensures r.Failed? ==> form == old(form) && selectedDate == old(selectedDate) && open == old(open)
    {
      r := SubmitEdit(form, selectedDate, session, updater);
      if r.Saved? {
        form := EmptyForm;
        selectedDate := None;
        open := false;
      }
    }

    /** `onSubmit` with the context as it is: it never resets, clears or closes. */
    method OnSubmitAsWritten() returns (r: EditResult)
      modifies this`form, this`selectedDate, this`open
      ensures r.Failed?
      ensures form == old(form) && selectedDate == old(selectedDate) && open == old(open)
    {
      r := OnSubmit(ContextUpdater);
    }
  }
}
