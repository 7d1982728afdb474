/** One topic card on the voting page: a local, optimistic copy of the vote
    flag and counter, and the admin's edit mode. The list renders one card
    per topic id, so after a reload the same card receives the reloaded
    topic as its `topic` prop; its `useState` values keep what they hold. */
module TopicCard {
  import opened Values
  import opened Entities
  import SessionStore

  /** The flag and counter after one vote click by a signed-in user. */
  function VoteStep(hasVoted: bool, votes: int): (bool, int)
  {
    (!hasVoted, if hasVoted then votes - 1 else votes + 1)
  }

  /** Two clicks restore both the flag and the counter. */
  lemma VoteStepInvolution(hasVoted: bool, votes: int)
    ensures VoteStep(VoteStep(hasVoted, votes).0, VoteStep(hasVoted, votes).1) == (hasVoted, votes)
  {
  }

  /** The update `handleEdit` sends: the edited title and description. */
  function EditUpdates(title: string, description: string): (r: Record)
    ensures r.Keys == {"title", "description"}
    ensures r["title"] == Str(title) && r["description"] == Str(description)
  {
    map["title" := Str(title), "description" := Str(description)]
  }

  /** The edit and delete buttons are rendered for an admin who is not editing. */
  predicate OffersAdminControls(isAdmin: bool, isEditing: bool)
  {
    isAdmin && !isEditing
  }

  function Bit(b: bool): int
  {
    if b then 1 else 0
  }

  class Card {
    /** The current `topic` prop; a re-render may replace it by a topic
        with the same id. */
    var topic: Topic
    /** The count and flag the card started with: `topic.votes` and
        `isVoted(topic.id)` at creation. */
    ghost const initialVotes: int
    ghost const initiallyVoted: bool
    var hasVoted: bool
    var votes: int
    var isEditing: bool
    var editedTitle: string
    var editedDescription: string

    /** The local counter moves with the flag: it is the count the card
        started with, shifted by one if the flag differs from the initial one. */
    ghost predicate Valid()
      reads this
    {
      votes == initialVotes + Bit(hasVoted) - Bit(initiallyVoted)
    }

    /** The `useState` initial values. */
    constructor (topic: Topic, store: SessionStore.Store)
      ensures this.topic == topic && initialVotes == topic.votes && initiallyVoted == store.IsVoted(topic.id)
      ensures hasVoted == store.IsVoted(topic.id) && votes == topic.votes
      ensures !isEditing && editedTitle == topic.title && editedDescription == topic.description
      ensures Valid()
    {
      this.topic := topic;
      initialVotes := topic.votes;
      initiallyVoted := store.IsVoted(topic.id);
      hasVoted := store.IsVoted(topic.id);
      votes := topic.votes;
      isEditing := false;
      editedTitle := topic.title;
      editedDescription := topic.description;
    }

    /** A re-render of the same card (same key) with the topic as the list
        now holds it: only the prop changes. */
    method Rerender(t: Topic)
      requires t.id == topic.id
      requires Valid()
      modifies this`topic
      ensures topic == t
      ensures Valid()
    {
      topic := t;
    }

    /** `handleVote`: with no signed-in user nothing changes; otherwise it
        calls `voteForTopic` (not awaited; modelled as running to the end
        first) and flips the local flag, moving the counter with it. */
    method HandleVote(store: SessionStore.Store, authUser: Option<User>, sessionUser: Option<User>,
                      writeOutcome: Outcome, reload: Option<seq<Topic>>)
      returns (write: Option<SessionStore.VoteWrite>)
      requires Valid()
      modifies this`hasVoted, this`votes, store`votes, store`topics
      ensures Valid()
      ensures authUser.None? ==>
                write == None && hasVoted == old(hasVoted) && votes == old(votes) &&
                store.votes == old(store.votes) && store.topics == old(store.topics)
      ensures authUser.Some? ==> (hasVoted, votes) == VoteStep(old(hasVoted), old(votes))
      ensures authUser.Some? && sessionUser.Some? ==>
                write == Some(if SessionStore.IsVotedIn(old(store.votes), topic.id)
                              then SessionStore.RemoveVote(topic.id, sessionUser.value.id)
                              else SessionStore.AddVote(topic.id, sessionUser.value.id)) &&
                store.votes == SessionStore.ToggleVote(old(store.votes), topic.id) &&
                store.topics == SessionStore.AfterLoad(old(store.topics), reload)
      ensures authUser.Some? && sessionUser.None? ==>
                write == Some(SessionStore.NoWrite) &&
                store.votes == old(store.votes) && store.topics == old(store.topics)
      ensures authUser.Some? && sessionUser.Some? && old(hasVoted == store.IsVoted(topic.id)) ==>
                hasVoted == store.IsVoted(topic.id)
    {
      if authUser.None? {
        return None;
      }
      var w := store.VoteForTopic(sessionUser, topic.id, writeOutcome, reload);
      write := Some(w);
      if hasVoted {
        votes := votes - 1;
      } else {
        votes := votes + 1;
      }
      hasVoted := !hasVoted;
    }

    /** The edit button, rendered only while `OffersAdminControls` holds:
        `setIsEditing(true)`, which hides the admin controls. */
    method BeginEdit(store: SessionStore.Store)
      requires OffersAdminControls(store.isAdmin, isEditing)
      modifies this`isEditing
      ensures isEditing && !OffersAdminControls(store.isAdmin, isEditing)
    {
      isEditing := true;
    }

    /** Typing in the title field. */
    method SetEditedTitle(title: string)
      modifies this`editedTitle
      ensures editedTitle == title
    {
      editedTitle := title;
    }

    /** Typing in the description field. */
    method SetEditedDescription(description: string)
      modifies this`editedDescription
      ensures editedDescription == description
    {
      editedDescription := description;
    }

    /** `handleEdit`: sends the edited text as the update of this card's
        topic; leaves edit mode only when `updateTopic` reports success, and
        keeps the edited text either way. */
    method HandleEdit(store: SessionStore.Store, outcome: Outcome, reload: Option<seq<Topic>>)
      returns (sent: SessionStore.TopicWrite, success: bool)
      modifies this`isEditing, store`topics
      ensures sent == SessionStore.UpdateRow(topic.id, EditUpdates(editedTitle, editedDescription))
      ensures success == outcome.Ok?
      ensures success ==> !isEditing && store.topics == SessionStore.AfterLoad(old(store.topics), reload)
      ensures !success ==> isEditing == old(isEditing) && store.topics == old(store.topics)
    {
      sent, success := store.UpdateTopic(topic.id, EditUpdates(editedTitle, editedDescription), outcome, reload);
      if success {
        isEditing := false;
      }
    }

    /** `handleDelete`, behind the delete button that is rendered only while
        `OffersAdminControls` holds: sends the deletion of this card's topic
        only when the confirmation dialog is accepted; the card's own state
        is untouched. */
    method HandleDelete(store: SessionStore.Store, confirmed: bool, outcome: Outcome, reload: Option<seq<Topic>>)
      returns (sent: Option<SessionStore.TopicWrite>)
      requires OffersAdminControls(store.isAdmin, isEditing)
      modifies store`topics
      ensures sent == if confirmed then Some(SessionStore.DeleteRow(topic.id)) else None
      ensures !confirmed ==> store.topics == old(store.topics)
      ensures confirmed && outcome.Ok? ==> store.topics == SessionStore.AfterLoad(old(store.topics), reload)
      ensures confirmed && outcome.Err? ==> store.topics == old(store.topics)
    {
      sent := None;
      if confirmed {
        var request, _ := store.DeleteTopic(topic.id, outcome, reload);
        sent := Some(request);
      }
    }

    /** `handleCancel`: puts the current topic prop's text back and leaves
        edit mode. */
    method HandleCancel()
      modifies this`editedTitle, this`editedDescription, this`isEditing
      ensures editedTitle == topic.title && editedDescription == topic.description && !isEditing
    {
      editedTitle := topic.title;
      editedDescription := topic.description;
      isEditing := false;
    }
  }
}
