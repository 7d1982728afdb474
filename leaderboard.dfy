/** The leaderboard component: the five active topics with the most votes,
    and its vote button, which only delegates to the store when someone is
    signed in. */
module TopicLeaderboard {
  import opened Values
  import opened Entities
  import TopicOrder
  import Seqs
  import SessionStore

  const LeaderboardSize: nat := 5

  /** `topics.filter(active).sort(byVotes).slice(0, 5)`. */
  function TopTopics(topics: seq<Topic>): seq<Topic>
  {
    Seqs.Take(TopicOrder.SortByVotes(TopicOrder.ActiveTopics(topics)), LeaderboardSize)
  }

  /** At most five topics, all active, non-increasing in votes: the first
      min(5, #active) of the sorted active topics. */
  lemma TopTopicsShape(topics: seq<Topic>)
    ensures |TopTopics(topics)| <= LeaderboardSize
    ensures var active := TopicOrder.ActiveTopics(topics);
            |TopTopics(topics)| == (if |active| <= LeaderboardSize then |active| else LeaderboardSize)
    ensures TopTopics(topics) == TopicOrder.SortByVotes(TopicOrder.ActiveTopics(topics))[..|TopTopics(topics)|]
    ensures forall t :: t in TopTopics(topics) ==> t in topics && IsActive(t)
    ensures TopicOrder.ByVotesDescending(TopTopics(topics))
  {
    var active := TopicOrder.ActiveTopics(topics);
    var sorted := TopicOrder.SortByVotes(active);
    TopicOrder.SortedByVotes(active);
    assert |sorted| == |active| by { assert multiset(sorted) == multiset(active); }
    forall t | t in TopTopics(topics)
      ensures t in topics && IsActive(t)
    {
      assert t in multiset(sorted);
    }
  }

  /** With five or fewer active topics, every one of them is shown. */
  lemma FewActiveAllShown(topics: seq<Topic>)
    requires |TopicOrder.ActiveTopics(topics)| <= LeaderboardSize
    ensures multiset(TopTopics(topics)) == multiset(TopicOrder.ActiveTopics(topics))
  {
    var active := TopicOrder.ActiveTopics(topics);
    assert |TopicOrder.SortByVotes(active)| == |active| by {
      assert multiset(TopicOrder.SortByVotes(active)) == multiset(active);
    }
  }

  /** No active topic left off the board has more votes than one on it. */
  lemma {:induction false} LeftOffHaveNoMoreVotes(topics: seq<Topic>, t: Topic, u: Topic)
    requires t in topics && IsActive(t) && t !in TopTopics(topics)
    requires u in TopTopics(topics)
    ensures u.votes >= t.votes
  {
    var active := TopicOrder.ActiveTopics(topics);
    var sorted := TopicOrder.SortByVotes(active);
    var shown := TopTopics(topics);
    TopicOrder.SortedByVotes(active);
    assert t in multiset(sorted);
    var k :| 0 <= k < |sorted| && sorted[k] == t;
    var i :| 0 <= i < |shown| && shown[i] == u;
    assert shown == sorted[..|shown|];
    assert sorted[i] == u;
    assert forall j :: 0 <= j < |shown| ==> sorted[j] == shown[j] && shown[j] in shown;
    assert k >= |shown|;
  }

  /** "No active topics available" shows exactly when no topic is active. */
  lemma EmptyStateIff(topics: seq<Topic>)
    ensures TopTopics(topics) == [] <==> forall t :: t in topics ==> !IsActive(t)
  {
    var active := TopicOrder.ActiveTopics(topics);
    assert |TopicOrder.SortByVotes(active)| == |active| by {
      assert multiset(TopicOrder.SortByVotes(active)) == multiset(active);
    }
    if exists t :: t in topics && IsActive(t) {
      var t :| t in topics && IsActive(t);
      assert t in active;
    }
    if active != [] {
      assert active[0] in active;
    }
  }

  /** The vote button is disabled when nobody is signed in. */
  predicate VoteButtonDisabled(authUser: Option<User>)
  {
    authUser.None?
  }

  /** `handleVote`: without a signed-in user (from the auth context) it
      returns; otherwise it calls `voteForTopic`, which asks the backend for
      the user again (`sessionUser`). */
  method HandleVote(store: SessionStore.Store, authUser: Option<User>, sessionUser: Option<User>,
                    topicId: string, writeOutcome: Outcome, reload: Option<seq<Topic>>)
    returns (write: SessionStore.VoteWrite)
    modifies store`votes, store`topics
    ensures VoteButtonDisabled(authUser) ==> write == SessionStore.NoWrite && store.votes == old(store.votes) && store.topics == old(store.topics)
    ensures authUser.Some? && sessionUser.Some? ==>
              store.votes == SessionStore.ToggleVote(old(store.votes), topicId) &&
              store.topics == SessionStore.AfterLoad(old(store.topics), reload) &&
              write == (if SessionStore.IsVotedIn(old(store.votes), topicId)
                        then SessionStore.RemoveVote(topicId, sessionUser.value.id)
                        else SessionStore.AddVote(topicId, sessionUser.value.id))
    ensures authUser.Some? && sessionUser.None? ==>
              write == SessionStore.NoWrite && store.votes == old(store.votes) && store.topics == old(store.topics)
  {
    if authUser.None? {
      return SessionStore.NoWrite;
    }
    write := store.VoteForTopic(sessionUser, topicId, writeOutcome, reload);
  }
}
