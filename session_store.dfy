/** The session context: the client-side store of upcoming and past sessions,
    topics, the current browser's vote map and the admin flag, with the
    operations the pages call. Every backend call is a parameter: the rows a
    query returns (`None` when its `data` is null), the outcome of a write, and
    the user `getUser()` reports. Calls that the source does not await in
    sequence are modelled one after another. */
module SessionStore {
  import opened Values
  import opened Entities
  import opened Text
  import Seqs

  // ---------------------------------------------------------------------
  // Partition of the loaded sessions

  /** `sessions.filter(s => new Date(s.date) > now)`. */
  function Upcoming(sessions: seq<Session>, now: int): seq<Session>
  {
    Seqs.Filter(sessions, (s: Session) => s.date > now)
  }

  /** `sessions.filter(s => new Date(s.date) <= now)`. */
  function Past(sessions: seq<Session>, now: int): seq<Session>
  {
    Seqs.Filter(sessions, (s: Session) => s.date <= now)
  }

  /** Every loaded session lands in exactly one of the two lists: upcoming
      when it is later than `now`, past otherwise (a session at `now` is past). */
  lemma PartitionCovers(sessions: seq<Session>, now: int)
    ensures multiset(Upcoming(sessions, now)) + multiset(Past(sessions, now)) == multiset(sessions)
    ensures forall s :: s in Upcoming(sessions, now) <==> s in sessions && s.date > now
    ensures forall s :: s in Past(sessions, now) <==> s in sessions && s.date <= now
  {
    Seqs.FilterSplit(sessions, (s: Session) => s.date > now, (s: Session) => s.date <= now);
  }

  /** Both lists keep the order of the query result, so the ascending date
      order the query asks for carries over to each of them. */
  lemma PartitionOrdered(sessions: seq<Session>, now: int)
    ensures Seqs.Subsequence(Upcoming(sessions, now), sessions)
    ensures Seqs.Subsequence(Past(sessions, now), sessions)
    ensures Seqs.Ascending(sessions, DateOf) ==>
              Seqs.Ascending(Upcoming(sessions, now), DateOf) && Seqs.Ascending(Past(sessions, now), DateOf)
  {
    Seqs.FilterIsSubsequence(sessions, (s: Session) => s.date > now);
    Seqs.FilterIsSubsequence(sessions, (s: Session) => s.date <= now);
    if Seqs.Ascending(sessions, DateOf) {
      Seqs.SubsequenceAscending(Upcoming(sessions, now), sessions, DateOf);
      Seqs.SubsequenceAscending(Past(sessions, now), sessions, DateOf);
    }
  }

  /** Sessions one millisecond either side of `now`, and one exactly at it. */
  lemma PartitionAroundNow(before: Session, at: Session, after: Session, now: int)
    requires before.date == now - 1 && at.date == now && after.date == now + 1
    ensures Upcoming([before, at, after], now) == [after]
    ensures Past([before, at, after], now) == [before, at]
  {
    var later := (s: Session) => s.date > now;
    var notLater := (s: Session) => s.date <= now;
    assert [before, at, after] == [before] + [at, after] && [at, after] == [at] + [after];
    assert [after] == [after] + [];
    Seqs.FilterCons(before, [at, after], later);
    Seqs.FilterCons(at, [after], later);
    Seqs.FilterCons(after, [], later);
    Seqs.FilterCons(before, [at, after], notLater);
    Seqs.FilterCons(at, [after], notLater);
    Seqs.FilterCons(after, [], notLater);
  }

  // ---------------------------------------------------------------------
  // The vote map `topicId -> true`

  /** `isVoted`: `!!votes[topicId]`. */
  predicate IsVotedIn(votes: map<string, bool>, topicId: string)
  {
    topicId in votes && votes[topicId]
  }

  /** The updater given to `setVotes`: a truthy entry is deleted from a copy,
      otherwise the key is set to `true`. */
  function ToggleVote(votes: map<string, bool>, topicId: string): (r: map<string, bool>)
    ensures IsVotedIn(r, topicId) == !IsVotedIn(votes, topicId)
    ensures IsVotedIn(votes, topicId) ==> topicId !in r
    ensures !IsVotedIn(votes, topicId) ==> topicId in r && r[topicId]
    ensures forall k :: k != topicId ==> (k in r <==> k in votes)
    ensures forall k :: k != topicId && k in votes ==> r[k] == votes[k]
  {
    if IsVotedIn(votes, topicId) then votes - {topicId} else votes[topicId := true]
  }

  /** The maps the program itself writes hold only `true` entries. */
  ghost predicate OnlyTrueEntries(votes: map<string, bool>)
  {
    forall k :: k in votes ==> votes[k]
  }

  lemma TogglePreservesOnlyTrue(votes: map<string, bool>, topicId: string)
    requires OnlyTrueEntries(votes)
    ensures OnlyTrueEntries(ToggleVote(votes, topicId))
  {
  }

  /** Toggling twice restores the original map, unless the key held a falsy
      entry (which the first toggle overwrites with `true`). */
  lemma ToggleTwice(votes: map<string, bool>, topicId: string)
    requires topicId in votes ==> votes[topicId]
    ensures ToggleVote(ToggleVote(votes, topicId), topicId) == votes
  {
    var once := ToggleVote(votes, topicId);
    var twice := ToggleVote(once, topicId);
    assert twice.Keys == votes.Keys;
  }

  /** Whatever the map held, toggling twice leaves every `isVoted` answer as it was. */
  lemma ToggleTwiceVoted(votes: map<string, bool>, topicId: string, k: string)
    ensures IsVotedIn(ToggleVote(ToggleVote(votes, topicId), topicId), k) == IsVotedIn(votes, k)
  {
  }

  // ---------------------------------------------------------------------
  // Admin status and the submitted row

  const AdminDomain := "@reforge.com"

  /** `user?.email?.endsWith('@reforge.com') || false`. */
  predicate IsAdminUser(user: Option<User>)
  {
    user.Some? && user.value.email.Some? && EndsWith(user.value.email.value, AdminDomain)
  }

  /** An admin is exactly a user whose e-mail is some name at the company
      domain; no user, or a user without an e-mail, is not an admin. */
  lemma AdminIff(user: Option<User>)
    ensures IsAdminUser(user) <==>
              user.Some? && user.value.email.Some? && exists p :: user.value.email.value == p + AdminDomain
  {
    if user.Some? && user.value.email.Some? {
      EndsWithIff(user.value.email.value, AdminDomain);
    }
  }

  /** `{ ...newTopic, user_id: user.id }`: the user's id wins over any
      `user_id` the payload carries; every other property passes through. */
  function SubmitRow(newTopic: Record, userId: string): (r: Record)
    ensures r.Keys == newTopic.Keys + {"user_id"}
    ensures r["user_id"] == Str(userId)
    ensures forall k :: k != "user_id" ==> Get(r, k) == Get(newTopic, k)
  {
    newTopic + map["user_id" := Str(userId)]
  }

  /** `if (data) setX(data)`: a null result keeps the current list; any
      array, the empty one included, replaces it. */
  function AfterLoad<T>(current: seq<T>, data: Option<seq<T>>): seq<T>
  {
    match data
    case None => current
    case Some(rows) => rows
  }

  /** The writes `voteForTopic` sends: one row of `votes` deleted or inserted,
      followed by a call of the matching `decrement_votes` or
      `increment_votes` function. */
  datatype VoteWrite =
    | NoWrite
    | RemoveVote(topicId: string, userId: string)
    | AddVote(topicId: string, userId: string)

  /** The request `updateTopic` or `deleteTopic` sends: the row of `topics`
      with the given id, updated with `updates` or deleted. */
  datatype TopicWrite =
    | UpdateRow(topicId: string, updates: Record)
    | DeleteRow(topicId: string)

  // ---------------------------------------------------------------------

  class Store {
    var upcoming: seq<Session>
    var past: seq<Session>
    var topics: seq<Topic>
    var votes: map<string, bool>
    var isAdmin: bool

    /** The provider's initial state; the vote map starts from what local
        storage holds under `session-votes` (`{}` when nothing is stored). */
    constructor (stored: map<string, bool>)
      ensures upcoming == [] && past == [] && topics == []
      ensures votes == stored && !isAdmin
    {
      upcoming, past, topics := [], [], [];
      votes := stored;
      isAdmin := false;
    }

    /** `isVoted(topicId)`. */
    function IsVoted(topicId: string): bool
      reads this
    {
      IsVotedIn(votes, topicId)
    }

    /** `checkAdmin`. */
    method CheckAdmin(user: Option<User>)
      modifies this`isAdmin
      ensures isAdmin == IsAdminUser(user)
    {
      isAdmin := IsAdminUser(user);
    }

    /** `loadSessions`: `data` is the query result ordered by date, `now`
        the clock read once the result arrives. */
    method LoadSessions(data: Option<seq<Session>>, now: int)
      modifies this`upcoming, this`past
      ensures data.None? ==> upcoming == old(upcoming) && past == old(past)
      ensures data.Some? ==> upcoming == Upcoming(data.value, now) && past == Past(data.value, now)
    {
      if data.Some? {
        var sessions := data.value;
        upcoming := Upcoming(sessions, now);
        past := Past(sessions, now);
      }
    }

    /** `loadTopics`: `data` is the query result ordered by votes. */
    method LoadTopics(data: Option<seq<Topic>>)
      modifies this`topics
      ensures topics == AfterLoad(old(topics), data)
    {
      if data.Some? {
        topics := data.value;
      }
    }

    /** The mount effect: `checkAdmin`, `loadSessions` and `loadTopics`,
        started together and modelled here in that order. */
    method Mount(user: Option<User>, sessions: Option<seq<Session>>, now: int, topicRows: Option<seq<Topic>>)
      modifies this`isAdmin, this`upcoming, this`past, this`topics
      ensures isAdmin == IsAdminUser(user)
      ensures upcoming == (if sessions.Some? then Upcoming(sessions.value, now) else old(upcoming))
      ensures past == (if sessions.Some? then Past(sessions.value, now) else old(past))
      ensures topics == AfterLoad(old(topics), topicRows)
    {
      CheckAdmin(user);
      LoadSessions(sessions, now);
      LoadTopics(topicRows);
    }

    /** `voteForTopic`. With no user nothing happens. Otherwise the remote
        branch and the local toggle both test the same entry; the outcome
        of the remote writes is ignored, and the topics are reloaded. */
    method VoteForTopic(user: Option<User>, topicId: string, writeOutcome: Outcome, reload: Option<seq<Topic>>)
      returns (write: VoteWrite)
      modifies this`votes, this`topics
      ensures user.None? ==> write == NoWrite && votes == old(votes) && topics == old(topics)
      ensures user.Some? && IsVotedIn(old(votes), topicId) ==> write == RemoveVote(topicId, user.value.id)
      ensures user.Some? && !IsVotedIn(old(votes), topicId) ==> write == AddVote(topicId, user.value.id)
      ensures user.Some? ==> votes == ToggleVote(old(votes), topicId) && topics == AfterLoad(old(topics), reload)
    {
      if user.None? {
        return NoWrite;
      }
      if IsVotedIn(votes, topicId) {
        write := RemoveVote(topicId, user.value.id);
      } else {
        write := AddVote(topicId, user.value.id);
      }
      votes := ToggleVote(votes, topicId);
      LoadTopics(reload);
    }

    /** `updateTopic`: sends the update of the row with `topicId`; false on
        a backend error (topics untouched), true after a reload otherwise. */
    method UpdateTopic(topicId: string, updates: Record, outcome: Outcome, reload: Option<seq<Topic>>)
      returns (request: TopicWrite, success: bool)
      modifies this`topics
      ensures request == UpdateRow(topicId, updates)
      ensures success == outcome.Ok?
      ensures topics == if success then AfterLoad(old(topics), reload) else old(topics)
    {
      request := UpdateRow(topicId, updates);
      if outcome.Err? {
        return request, false;
      }
      LoadTopics(reload);
      success := true;
    }

    /** `deleteTopic`: the same shape as `updateTopic`, sending the deletion
        of the row with `topicId`; there is no check of `isAdmin` before the
        call. */
    method DeleteTopic(topicId: string, outcome: Outcome, reload: Option<seq<Topic>>)
      returns (request: TopicWrite, success: bool)
      modifies this`topics
      ensures request == DeleteRow(topicId)
      ensures success == outcome.Ok?
      ensures topics == if success then AfterLoad(old(topics), reload) else old(topics)
    {
      request := DeleteRow(topicId);
      if outcome.Err? {
        return request, false;
      }
      LoadTopics(reload);
      success := true;
    }

    /** `submitTopic`: with no user it returns having sent nothing; otherwise
        it inserts the payload stamped with the user's id, rethrows a
        backend error, and reloads the topics on success. */
    method SubmitTopic(user: Option<User>, newTopic: Record, outcome: Outcome, reload: Option<seq<Topic>>)
      returns (inserted: Option<Record>, c: Completion)
      modifies this`topics
      ensures user.None? ==> inserted == None && c == Returned && topics == old(topics)
      ensures user.Some? ==> inserted == Some(SubmitRow(newTopic, user.value.id))
      ensures user.Some? && outcome.Err? ==> c == Threw(outcome.error) && topics == old(topics)
      ensures user.Some? && outcome.Ok? ==> c == Returned && topics == AfterLoad(old(topics), reload)
    {
      if user.None? {
        return None, Returned;
      }
      inserted := Some(SubmitRow(newTopic, user.value.id));
      if outcome.Err? {
        return inserted, Threw(outcome.error);
      }
      LoadTopics(reload);
      c := Returned;
    }

    /** `createSession`: inserts the row, rethrows a backend error, and
        reloads the sessions on success. The topic a session comes from is
        not touched. */
    method CreateSession(sessionData: Record, outcome: Outcome, reload: Option<seq<Session>>, now: int)
      returns (c: Completion)
      modifies this`upcoming, this`past
      ensures outcome.Err? ==> c == Threw(outcome.error) && upcoming == old(upcoming) && past == old(past)
      ensures outcome.Ok? ==> c == Returned
      ensures outcome.Ok? && reload.Some? ==> upcoming == Upcoming(reload.value, now) && past == Past(reload.value, now)
      ensures outcome.Ok? && reload.None? ==> upcoming == old(upcoming) && past == old(past)
    {
      if outcome.Err? {
        return Threw(outcome.error);
      }
      LoadSessions(reload, now);
      c := Returned;
    }
  }
}
