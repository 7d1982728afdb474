/** The admin's "Create Session" modal: prefills the form from the topic the
    session is made from (or blanks it for a custom session) and submits the
    form data with the topic's id. */
module CreateSessionModal {
  import opened Values
  import opened Entities
  import SessionStore

  const Placeholder := "TBD"

  const PrefilledFields: set<string> := {"title", "description", "speaker", "date", "calendar_link"}

  /** `topic.user_name || 'TBD'`. */
  function SpeakerFor(topic: Topic): (r: string)
    ensures r != ""
    ensures topic.userName.Some? && topic.userName.value != "" ==> r == topic.userName.value
    ensures topic.userName.None? || topic.userName.value == "" ==> r == Placeholder
  {
    match topic.userName
    case Some(name) => if name != "" then name else Placeholder
    case None => Placeholder
  }

  /** The values the effect writes with `setValue`, one per field. */
  function PrefillValues(topic: Option<Topic>): (r: Record)
    ensures r.Keys == PrefilledFields
    ensures topic.None? ==> forall k :: k in r ==> r[k] == Str("")
    ensures topic.Some? ==>
              r["title"] == Str(topic.value.title) && r["description"] == Str(topic.value.description) &&
              r["speaker"] == Str(SpeakerFor(topic.value)) &&
              r["date"] == Str("") && r["calendar_link"] == Str("")
  {
    match topic
    case Some(t) =>
      map["title" := Str(t.title), "description" := Str(t.description), "speaker" := Str(SpeakerFor(t)),
          "date" := Str(""), "calendar_link" := Str("")]
    case None =>
      map["title" := Str(""), "description" := Str(""), "speaker" := Str(""),
          "date" := Str(""), "calendar_link" := Str("")]
  }

  /** `{ ...data, topic_id: topic?.id }`: `topic_id` is always present and
      overrides a form field of that name; every other field passes through. */
  function SessionData(form: Record, topic: Option<Topic>): (r: Record)
    ensures r.Keys == form.Keys + {"topic_id"}
    ensures r["topic_id"] == if topic.Some? then Str(topic.value.id) else Undefined
    ensures forall k :: k != "topic_id" ==> Get(r, k) == Get(form, k)
  {
    form + map["topic_id" := if topic.Some? then Str(topic.value.id) else Undefined]
  }

  class Modal {
    var topic: Option<Topic>
    var form: Record
    var open: bool

    /** Mounting runs the prefill effect once for the initial `topic` prop. */
    constructor (topic: Option<Topic>, open: bool)
      ensures this.topic == topic && form == PrefillValues(topic) && this.open == open
    {
      this.topic := topic;
      this.open := open;
      form := EmptyForm;
      new;
      Prefill();
    }

    /** The effect body: five `setValue` calls; other fields are untouched. */
    method Prefill()
      modifies this`form
      ensures form == old(form) + PrefillValues(topic)
    {
      if topic.Some? {
        var t := topic.value;
        form := form["title" := Str(t.title)];
        form := form["description" := Str(t.description)];
        form := form["speaker" := Str(SpeakerFor(t))];
        form := form["date" := Str("")];
        form := form["calendar_link" := Str("")];
      } else {
        form := form["title" := Str("")];
        form := form["description" := Str("")];
        form := form["speaker" := Str("")];
        form := form["date" := Str("")];
        form := form["calendar_link" := Str("")];
      }
    }

    /** A new `topic` prop re-runs the effect. */
    method SetTopic(t: Option<Topic>)
      modifies this`topic, this`form
      ensures topic == t && form == old(form) + PrefillValues(t)
    {
      topic := t;
      Prefill();
    }

    /** Typing into a registered field. */
    method SetField(name: string, v: Value)
      modifies this`form
      ensures form == old(form)[name := v]
    {
      form := form[name := v];
    }

    /** `onSubmit`: sends the form data with `topic_id`; on success resets
        the form (the effect does not run again) and closes the modal; when
        `createSession` throws, the error is swallowed and both are kept. */
    method OnSubmit(store: SessionStore.Store, outcome: Outcome, reload: Option<seq<Session>>, now: int)
      returns (sent: Record, c: Completion)
      modifies this`form, this`open, store`upcoming, store`past
      ensures sent == SessionData(old(form), topic)
      ensures outcome.Err? ==> c == Threw(outcome.error) && form == old(form) && open == old(open)
      ensures outcome.Err? ==> store.upcoming == old(store.upcoming) && store.past == old(store.past)
      ensures outcome.Ok? ==> c == Returned && form == EmptyForm && !open
      ensures outcome.Ok? && reload.Some? ==>
                store.upcoming == SessionStore.Upcoming(reload.value, now) &&
                store.past == SessionStore.Past(reload.value, now)
      ensures outcome.Ok? && reload.None? ==>
                store.upcoming == old(store.upcoming) && store.past == old(store.past)
    {
      sent := SessionData(form, topic);
      c := store.CreateSession(sent, outcome, reload, now);
      if c.Returned? {
        form := EmptyForm;
        open := false;
      }
    }
  }
}
