/** The voting page's list: the active topics whose title or description
    contains the search term (ignoring ASCII case), sorted by votes on a copy,
    and the message shown when the list is empty. Only the initial "votes"
    sort mode is modelled. */
module VotingPage {
  import opened Values
  import opened Entities
  import opened Text
  import TopicOrder
  import Seqs

  /** The state the page starts in: an empty search term, sorted by votes. */
  const InitialSearchTerm := ""

  const NoMatchMessage := "No topics found. Try a different search term."
  const NoActiveMessage := "No topics available for voting. All topics have been converted to sessions."

  /** The predicate given to `topics.filter`. */
  predicate MatchesSearch(t: Topic, term: string)
  {
    IsActive(t) && (Includes(Lower(t.title), Lower(term)) || Includes(Lower(t.description), Lower(term)))
  }

  /** `filteredTopics`. */
  function FilteredTopics(topics: seq<Topic>, term: string): seq<Topic>
  {
    Seqs.Filter(topics, (t: Topic) => MatchesSearch(t, term))
  }

  /** `sortedTopics` in "votes" mode: `[...filteredTopics].sort(...)`. */
  function SortedTopics(topics: seq<Topic>, term: string): seq<Topic>
  {
    TopicOrder.SortByVotes(FilteredTopics(topics, term))
  }

  /** A topic matches exactly when it is active and the lowered term occurs
      somewhere in its lowered title or lowered description. */
  lemma MatchesSearchIff(t: Topic, term: string)
    ensures MatchesSearch(t, term) <==>
              IsActive(t) &&
              (Occurs(Lower(t.title), Lower(term)) || Occurs(Lower(t.description), Lower(term)))
  {
    IncludesIff(Lower(t.title), Lower(term));
    IncludesIff(Lower(t.description), Lower(term));
  }

  /** A topic is listed exactly when it is in the context's topics and
      matches the search; sorting neither adds nor drops one. */
  lemma ListedIff(topics: seq<Topic>, term: string, t: Topic)
    ensures t in SortedTopics(topics, term) <==> t in topics && MatchesSearch(t, term)
  {
    var filtered := FilteredTopics(topics, term);
    assert multiset(SortedTopics(topics, term)) == multiset(filtered);
    assert (t in SortedTopics(topics, term)) == (t in multiset(SortedTopics(topics, term)));
  }

  /** The empty term lists every active topic, as the initial state does. */
  lemma {:induction false} EmptyTermListsActive(topics: seq<Topic>)
    ensures FilteredTopics(topics, InitialSearchTerm) == TopicOrder.ActiveTopics(topics)
  {
    forall t | t in topics
      ensures MatchesSearch(t, InitialSearchTerm) == IsActive(t)
    {
      IncludesEmpty(Lower(t.title));
    }
    Seqs.FilterCongruent(topics, (t: Topic) => MatchesSearch(t, InitialSearchTerm), IsActive);
  }

  /** The search ignores case: a term and its lower-case form list the same topics. */
  lemma SearchIgnoresCase(topics: seq<Topic>, term: string)
    ensures SortedTopics(topics, Lower(term)) == SortedTopics(topics, term)
  {
    LowerIdempotent(term);
    Seqs.FilterCongruent(topics, (t: Topic) => MatchesSearch(t, Lower(term)), (t: Topic) => MatchesSearch(t, term));
  }

  /** The listed topics are the filtered ones rearranged: non-increasing in
      votes, and topics with equal votes in their filter order. */
  lemma SortedIsStablePermutation(topics: seq<Topic>, term: string)
    ensures multiset(SortedTopics(topics, term)) == multiset(FilteredTopics(topics, term))
    ensures TopicOrder.ByVotesDescending(SortedTopics(topics, term))
    ensures forall v :: TopicOrder.WithVotes(SortedTopics(topics, term), v) == TopicOrder.WithVotes(FilteredTopics(topics, term), v)
  {
    TopicOrder.SortedByVotes(FilteredTopics(topics, term));
    forall v
      ensures TopicOrder.WithVotes(SortedTopics(topics, term), v) == TopicOrder.WithVotes(FilteredTopics(topics, term), v)
    {
      TopicOrder.SortStable(FilteredTopics(topics, term), v);
    }
  }

  /** The message under an empty list; a non-empty search term is truthy. */
  function EmptyMessage(listed: seq<Topic>, term: string): Option<string>
  {
    if |listed| != 0 then None
    else if term != "" then Some(NoMatchMessage)
    else Some(NoActiveMessage)
  }

  /** A message appears only under an empty list; it is the "no match" one
      exactly when a term was typed, and without a term the list is empty
      exactly when no topic is active. */
  lemma EmptyMessageChoice(topics: seq<Topic>, term: string)
    ensures EmptyMessage(SortedTopics(topics, term), term).None? <==> SortedTopics(topics, term) != []
    ensures EmptyMessage(SortedTopics(topics, term), term) == Some(NoMatchMessage) <==>
              SortedTopics(topics, term) == [] && term != ""
    ensures term == "" ==>
              (EmptyMessage(SortedTopics(topics, term), term) == Some(NoActiveMessage) <==>
               forall t :: t in topics ==> !IsActive(t))
  {
    var sorted := SortedTopics(topics, term);
    assert |sorted| == |FilteredTopics(topics, term)| by {
      assert multiset(sorted) == multiset(FilteredTopics(topics, term));
    }
    if term == "" {
      EmptyTermListsActive(topics);
      var active := TopicOrder.ActiveTopics(topics);
      if exists t :: t in topics && IsActive(t) {
        var t :| t in topics && IsActive(t);
        assert t in active;
      }
      if active != [] {
        assert active[0] in active;
      }
    }
  }
}
