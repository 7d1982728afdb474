/** The "Suggest a Session" modal: builds the topic payload from the form and
    the chosen session type, and hands it to `submitTopic`. */
module SubmissionModal {
  import opened Values
  import opened Entities
  import SessionStore

  const InternalType := "internal"
  const ExpertType := "expert"

  const PayloadFields: set<string> := {"title", "description", "speaker", "is_external", "knows_expert", "votes"}

  /** The object `onSubmit` passes to `submitTopic`. */
  function SubmissionPayload(data: Record, sessionType: string): (r: Record)
    ensures r.Keys == PayloadFields
    ensures r["title"] == Get(data, "title") && r["description"] == Get(data, "description")
    ensures Truthy(Get(data, "speaker")) ==> r["speaker"] == Get(data, "speaker")
    ensures !Truthy(Get(data, "speaker")) ==> r["speaker"] == Null
    ensures r["is_external"] == Bool(sessionType == ExpertType)
    ensures Truthy(Get(data, "knows_expert")) ==> r["knows_expert"] == Get(data, "knows_expert")
    ensures !Truthy(Get(data, "knows_expert")) ==> r["knows_expert"] == Bool(false)
    ensures r["votes"] == Num(0)
  {
    map[
      "title" := Get(data, "title"),
      "description" := Get(data, "description"),
      "speaker" := Or(Get(data, "speaker"), Null),
      "is_external" := Bool(sessionType == ExpertType),
      "knows_expert" := Or(Get(data, "knows_expert"), Bool(false)),
      "votes" := Num(0)]
  }

  /** The row the store inserts for a signed-in user: the payload's fields
      plus the user's id; it starts at zero votes, its speaker is a truthy
      value or null, and its `knows_expert` a truthy value or false. */
  lemma SubmittedRowShape(data: Record, sessionType: string, userId: string)
    ensures var row := SessionStore.SubmitRow(SubmissionPayload(data, sessionType), userId);
            && row.Keys == PayloadFields + {"user_id"}
            && row["votes"] == Num(0)
            && row["user_id"] == Str(userId)
            && (Truthy(row["speaker"]) || row["speaker"] == Null)
            && (Truthy(row["knows_expert"]) || row["knows_expert"] == Bool(false))
            && row["title"] == Get(data, "title")
            && row["description"] == Get(data, "description")
  {
    var payload := SubmissionPayload(data, sessionType);
    var row := SessionStore.SubmitRow(payload, userId);
    assert Get(row, "votes") == Get(payload, "votes");
    assert Get(row, "speaker") == Get(payload, "speaker");
    assert Get(row, "knows_expert") == Get(payload, "knows_expert");
    assert Get(row, "title") == Get(payload, "title");
    assert Get(row, "description") == Get(payload, "description");
  }

  class Modal {
    var sessionType: string
    var form: Record
    var open: bool

    constructor (open: bool)
      ensures sessionType == InternalType && form == EmptyForm && this.open == open
    {
      sessionType := InternalType;
      form := EmptyForm;
      this.open := open;
    }

    /** A click on one of the two session-type buttons. */
    method SelectSessionType(id: string)
      modifies this`sessionType
      ensures sessionType == id
    {
      sessionType := id;
    }

    /** Typing into a registered field. */
    method SetField(name: string, v: Value)
      modifies this`form
      ensures form == old(form)[name := v]
    {
      form := form[name := v];
    }

    /** `onSubmit`: on a normal return of `submitTopic` (including the
        no-user return, which sends nothing) the form is reset and the modal
        closed; when it throws, the error is swallowed and both are kept.
        The session type is not reset. */
    method OnSubmit(store: SessionStore.Store, user: Option<User>, outcome: Outcome, reload: Option<seq<Topic>>)
      returns (inserted: Option<Record>, c: Completion)
      modifies this`form, this`open, store`topics
      ensures user.None? ==> inserted == None && c == Returned && store.topics == old(store.topics)
      ensures user.Some? ==> inserted == Some(SessionStore.SubmitRow(SubmissionPayload(old(form), sessionType), user.value.id))
      ensures user.Some? && outcome.Err? ==> c == Threw(outcome.error) && store.topics == old(store.topics)
      ensures user.Some? && outcome.Ok? ==> c == Returned && store.topics == SessionStore.AfterLoad(old(store.topics), reload)
      ensures c.Returned? ==> form == EmptyForm && !open
      ensures c.Threw? ==> form == old(form) && open == old(open)
    {
      inserted, c := store.SubmitTopic(user, SubmissionPayload(form, sessionType), outcome, reload);
      if c.Returned? {
        form := EmptyForm;
        open := false;
      }
    }
  }
}
