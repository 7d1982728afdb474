/** The two selections made from the context's `topics`: the active ones, and
    the stable sort by votes in descending order that both the voting page and
    the leaderboard apply (`sort((a, b) => b.votes - a.votes)`, stable as
    ECMAScript 2019 requires `Array.prototype.sort` to be). */
module TopicOrder {
  import opened Entities
  import Seqs

  /** `topics.filter(topic => topic.status === 'active')`. */
  function ActiveTopics(topics: seq<Topic>): seq<Topic>
  {
    Seqs.Filter(topics, IsActive)
  }

  /** Non-increasing in `votes`: no topic is listed above one with more votes. */
  ghost predicate ByVotesDescending(s: seq<Topic>)
  {
    forall i, j :: 0 <= i < j < |s| ==> s[i].votes >= s[j].votes
  }

  /** Places `t` before the first topic that has no more votes than it. */
  function InsertByVotes(t: Topic, s: seq<Topic>): (r: seq<Topic>)
    ensures multiset(r) == multiset(s) + multiset{t}
  {
    if s == [] then [t]
    else if t.votes >= s[0].votes then [t] + s
    else
      assert s == [s[0]] + s[1..];
      [s[0]] + InsertByVotes(t, s[1..])
  }

  /** The comparator sort `b.votes - a.votes`, as a stable insertion sort:
      each topic, taken from the back, goes in front of the sorted rest's
      topics with as many votes, so ties keep their input order. */
  function SortByVotes(s: seq<Topic>): (r: seq<Topic>)
    ensures multiset(r) == multiset(s)
  {
    if s == [] then []
    else
      assert s == [s[0]] + s[1..];
      InsertByVotes(s[0], SortByVotes(s[1..]))
  }

  /** The topics of `s` that have exactly `v` votes, in their order in `s`. */
  function WithVotes(s: seq<Topic>, v: int): seq<Topic>
  {
    Seqs.Filter(s, (t: Topic) => t.votes == v)
  }

  lemma {:induction false} InsertKeepsOrder(t: Topic, s: seq<Topic>)
    requires ByVotesDescending(s)
    ensures ByVotesDescending(InsertByVotes(t, s))
  {
    if s != [] && t.votes < s[0].votes {
      var rest := InsertByVotes(t, s[1..]);
      InsertKeepsOrder(t, s[1..]);
      assert multiset(rest) == multiset(s[1..]) + multiset{t};
      forall j | 0 <= j < |rest|
        ensures s[0].votes >= rest[j].votes
      {
        assert rest[j] in multiset(rest);
        if rest[j] != t {
          assert rest[j] in multiset(s[1..]);
          var k :| 0 <= k < |s[1..]| && s[1..][k] == rest[j];
          assert s[k + 1] == rest[j];
        }
      }
      var r := [s[0]] + rest;
      forall i, j | 0 <= i < j < |r|
        ensures r[i].votes >= r[j].votes
      {
        if i > 0 {
          assert r[i] == rest[i - 1] && r[j] == rest[j - 1];
        } else {
          assert r[j] == rest[j - 1];
        }
      }
    }
  }

  /** The sorted list is non-increasing in votes. */
  lemma {:induction false} SortedByVotes(s: seq<Topic>)
    ensures ByVotesDescending(SortByVotes(s))
  {
    if s != [] {
      SortedByVotes(s[1..]);
      InsertKeepsOrder(s[0], SortByVotes(s[1..]));
    }
  }

  lemma {:induction false} InsertStable(t: Topic, s: seq<Topic>, v: int)
    ensures WithVotes(InsertByVotes(t, s), v)
         == if t.votes == v then [t] + WithVotes(s, v) else WithVotes(s, v)
  {
    var p := (x: Topic) => x.votes == v;
    if s == [] {
      Seqs.FilterCons(t, [], p);
    } else if t.votes >= s[0].votes {
      Seqs.FilterCons(t, s, p);
    } else {
      InsertStable(t, s[1..], v);
      Seqs.FilterCons(s[0], InsertByVotes(t, s[1..]), p);
      Seqs.FilterCons(s[0], s[1..], p);
      assert [s[0]] + s[1..] == s;
    }
  }

  /** Stability: for every vote count, the topics with that count appear in
      the sorted list in the same order as in the input. */
  lemma {:induction false} SortStable(s: seq<Topic>, v: int)
    ensures WithVotes(SortByVotes(s), v) == WithVotes(s, v)
  {
    var p := (x: Topic) => x.votes == v;
    if s != [] {
      SortStable(s[1..], v);
      InsertStable(s[0], SortByVotes(s[1..]), v);
      Seqs.FilterCons(s[0], s[1..], p);
      assert [s[0]] + s[1..] == s;
    }
  }

  /** An input that is already in order is left as it is: sorting the
      descending order the backend returns the topics in changes nothing. */
  lemma {:induction false} SortKeepsSorted(s: seq<Topic>)
    requires ByVotesDescending(s)
    ensures SortByVotes(s) == s
  {
    if s != [] {
      assert ByVotesDescending(s[1..]);
      SortKeepsSorted(s[1..]);
      if |s| > 1 {
        assert s[1..][0] == s[1];
      }
      assert [s[0]] + s[1..] == s;
    }
  }
}
