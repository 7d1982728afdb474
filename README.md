# Reforge AI Sessions: the client-side session store and topic selection, in Dafny

This project models the front end's data layer for proposing, voting on and
scheduling internal "AI Sessions". It covers:

- The session context (`SessionProvider`). This is one store that holds the
  upcoming and past sessions, the topics, the browser's vote map
  (`topicId -> true`) and the admin flag. It offers the load, vote and mutate
  operations.
- The two topic selections:
  - the voting page's filtered, searched list, sorted by votes;
  - the leaderboard component (top five active topics).
- The optimistic per-card vote state and edit mode of a topic card.
- The three modals that build the records sent to the backend.

The hosted backend is outside the model and each call to it is a parameter:

- a query's rows are `Option<seq<...>>`, with `None` when the SDK's `data` is null;
- a write ends in an `Outcome` (`Ok` or `Err(message)`);
- `getUser()` gives an `Option<User>`;
- the clock is an integer `now`, in milliseconds.

JavaScript objects (form data, payloads, inserted rows) are `Record`s, maps
from property names to JavaScript `Value`s. A spread followed by a property,
`{ ...a, k: v }`, is the map union `a + map[k := v]`, in which the later key
wins. An awaited async function either returns or throws, which is a
`Completion`.

Modules, one per source file plus shared helpers:

- `SessionStore` (session_store.dfy). It holds the pure kernels `Upcoming`/`Past`,
  `IsVotedIn`, `ToggleVote`, `IsAdminUser`, `SubmitRow` and `AfterLoad`. It also
  holds the class `Store`, whose methods update the fields `upcoming`, `past`,
  `topics`, `votes` and `isAdmin`.
- `VotingPage` (voting_page.dfy) and `TopicLeaderboard` (leaderboard.dfy). These
  are pure sequence functions. They share the stable sort by votes in `TopicOrder`
  (topic_order.dfy).
- `TopicCard` (topic_card.dfy). The class `Card` holds the current `topic` prop,
  which a re-render after a reload replaces by the reloaded topic with the same
  id. It also holds the fields `hasVoted`, `votes`, `isEditing`, `editedTitle`
  and `editedDescription`, and keeps the invariant
  `votes == initialVotes + Bit(hasVoted) - Bit(initiallyVoted)` over the count
  and flag it started with. The
  predicate `OffersAdminControls` says that the edit and delete buttons are
  rendered only for an admin who is not editing.
- `SubmissionModal`, `CreateSessionModal` and `EditSessionModal`. Each has a
  pure payload builder and a `Modal` class for the form state that `reset()`,
  `setValue` and `onClose` change.
- The helper modules: `Values` (JavaScript values and records), `Entities` (the
  session, topic and user rows), `Text` (ASCII `toLowerCase`, `includes` and
  `endsWith`) and `Seqs` (`filter`, `slice`, subsequences).

Some behaviour a reader might expect is not in the code. The model follows the code:

- `createSession` does not mark the topic converted or link it to the session.
- `deleteTopic` has no `isAdmin` check.
- `voteForTopic` has no in-flight guard and no rollback. It ignores the remote
  results and toggles the local map anyway.
- Admin status comes from the e-mail domain, not from an admin table.
- The context provides no `updateSession`. See "## Findings".

## Model

| member | source | states |
|---|---|---|
| `SessionStore.PartitionCovers` | src/context/SessionContext.jsx:49-52 | The upcoming and past lists together hold every loaded session exactly once (multisets add up). A session is upcoming iff its date is later than `now`, and past iff it is not later, so a session at exactly `now` is past. |
| `SessionStore.PartitionOrdered` | src/context/SessionContext.jsx:44-52 | Both lists are order-preserving subsequences of the query result. If the result is ascending by date, so is each list. |
| `SessionStore.PartitionAroundNow` | src/context/SessionContext.jsx:50-52 | Three sessions at `now-1`, `now` and `now+1` split into upcoming `[now+1]` and past `[now-1, now]`. |
| `SessionStore.ToggleVote` | src/context/SessionContext.jsx:117-124 | The toggle flips `isVoted` for the key. A truthy entry is removed, otherwise the key maps to `true`. Every other key keeps its presence and value. |
| `SessionStore.ToggleTwice` | src/context/SessionContext.jsx:117-124 | Toggling the same key twice gives back the original map, unless the key held a falsy entry. |
| `SessionStore.ToggleTwiceVoted` | src/context/SessionContext.jsx:94-96 | Whatever the map holds, two toggles leave `isVoted` unchanged for every key. |
| `SessionStore.TogglePreservesOnlyTrue` | src/context/SessionContext.jsx:117-124 | A map holding only `true` entries still holds only `true` entries after a toggle. |
| `SessionStore.AdminIff` | src/context/SessionContext.jsx:26 | `isAdmin` holds iff there is a user, with an e-mail, that is some string followed by `@reforge.com`. It is false with no user or no e-mail. |
| `SessionStore.SubmitRow` | src/context/SessionContext.jsx:165 | The inserted row has the payload's keys plus `user_id`. `user_id` is the user's id, overriding any `user_id` in the payload. Every other property passes through. |
| `SessionStore.Upcoming` | src/context/SessionContext.jsx:51 | The sessions dated strictly after `now`, in order. `PartitionCovers` and `PartitionOrdered` state its properties. |
| `SessionStore.Past` | src/context/SessionContext.jsx:52 | The sessions dated at or before `now`, in order. `PartitionCovers` and `PartitionOrdered` state its properties. |
| `SessionStore.IsVotedIn` | src/context/SessionContext.jsx:94-96 | `!!votes[topicId]`. `ToggleVote`, `ToggleTwiceVoted` and `Store.VoteForTopic` state its relation to the toggle and to the remote write. |
| `SessionStore.Store.IsVoted` | src/context/SessionContext.jsx:94-96 | `isVoted` on the store's map. `TopicCard.Card.constructor` and `TopicCard.Card.HandleVote` state how a card follows it. |
| `SessionStore.IsAdminUser` | src/context/SessionContext.jsx:26 | The admin test. `AdminIff` states what it means. |
| `SessionStore.AfterLoad` | src/context/SessionContext.jsx:75-81 | `if (data) setTopics(data)`. `Store.LoadTopics` and every reloading method state their new lists through it. |
| `SessionStore.Store.constructor` | src/context/SessionContext.jsx:12-16 | Empty lists, admin false, and the vote map as read from local storage. |
| `SessionStore.Store.CheckAdmin` | src/context/SessionContext.jsx:24-33 | `isAdmin` becomes the e-mail-suffix predicate of the reported user. |
| `SessionStore.Store.LoadSessions` | src/context/SessionContext.jsx:40-64 | A null result leaves both lists untouched. Otherwise `upcoming`/`past` become the two partitions of the result at `now`. |
| `SessionStore.Store.LoadTopics` | src/context/SessionContext.jsx:66-82 | `topics` is replaced only by a non-null result, which may be empty. |
| `SessionStore.Store.Mount` | src/context/SessionContext.jsx:18-38 | After mounting, `isAdmin` is the e-mail predicate, the sessions are partitioned and the topics are loaded. |
| `SessionStore.Store.VoteForTopic` | src/context/SessionContext.jsx:98-127 | With no user, nothing is written and neither `votes` nor `topics` changes. With a user, the remote write deletes iff the entry is truthy and inserts otherwise, using the same test as the toggle. The map is toggled whatever the remote outcome, and the topics are reloaded. |
| `SessionStore.Store.UpdateTopic` | src/context/SessionContext.jsx:129-142 | It sends the update `updates` of the row with `topicId`. It returns false and keeps `topics` on a backend error, and returns true after a reload otherwise. |
| `SessionStore.Store.DeleteTopic` | src/context/SessionContext.jsx:144-157 | It sends the deletion of the row with `topicId`, with the same result as `updateTopic`. There is no precondition on `isAdmin`. |
| `SessionStore.Store.SubmitTopic` | src/context/SessionContext.jsx:159-170 | With no user, it sends nothing, returns normally and keeps `topics`. Otherwise it inserts `SubmitRow(payload, user.id)`, throws the backend error (topics kept), or reloads on success. |
| `SessionStore.Store.CreateSession` | src/context/SessionContext.jsx:84-92 | Throws the backend error with both session lists kept. Otherwise it reloads and partitions the sessions. `topics` is outside its frame, so the source topic is not converted. |
| `Text.Lower` | src/pages/VotingPage.jsx:17-18 | `toLowerCase` maps each ASCII capital to its small letter and keeps every other character, position by position. |
| `Text.LowerIdempotent` | src/pages/VotingPage.jsx:17-18 | Lowering a lowered string changes nothing. |
| `Text.Includes` | src/pages/VotingPage.jsx:17-18 | The `includes` scan. `IncludesIff` ties it to an occurrence at some index. |
| `Text.EndsWith` | src/context/SessionContext.jsx:26 | The `endsWith` test. `EndsWithIff` ties it to a prefix followed by the suffix. |
| `Text.IncludesIff` | src/pages/VotingPage.jsx:17-18 | The `includes` scan succeeds iff the needle occurs at some index of the haystack. |
| `Text.IncludesEmpty` | src/pages/VotingPage.jsx:17-18 | The empty needle is included in every string. |
| `Text.EndsWithIff` | src/context/SessionContext.jsx:26 | `endsWith` holds iff the string is some prefix followed by the suffix. |
| `TopicOrder.SortByVotes` | src/components/TopicLeaderboard.jsx:14 | The sorted list is a permutation of its input. |
| `TopicOrder.SortedByVotes` | src/pages/VotingPage.jsx:22-25 | The sorted list is non-increasing in `votes`. |
| `TopicOrder.SortStable` | src/pages/VotingPage.jsx:22-25 | For every vote count, the topics with that count keep their input order. This is the stability ECMAScript 2019 requires of `sort`. |
| `TopicOrder.SortKeepsSorted` | src/context/SessionContext.jsx:70-73 | Sorting a list already in descending vote order, as the topics query returns it, changes nothing. |
| `VotingPage.MatchesSearch` | src/pages/VotingPage.jsx:15-20 | The filter predicate. `MatchesSearchIff` states what it means. |
| `VotingPage.FilteredTopics` | src/pages/VotingPage.jsx:15-20 | The filtered list. `ListedIff`, `EmptyTermListsActive` and `SearchIgnoresCase` state its properties. |
| `VotingPage.SortedTopics` | src/pages/VotingPage.jsx:22-27 | The listed topics. `SortedIsStablePermutation` and `ListedIff` state its properties. |
| `VotingPage.EmptyMessage` | src/pages/VotingPage.jsx:105-111 | The empty-list message. `EmptyMessageChoice` states when each one appears. |
| `VotingPage.MatchesSearchIff` | src/pages/VotingPage.jsx:15-20 | A topic matches iff it is active and the lowered term occurs in its lowered title or its lowered description. |
| `VotingPage.ListedIff` | src/pages/VotingPage.jsx:15-22 | A topic is listed iff it is among the context's topics and matches, so every listed topic is active. |
| `VotingPage.EmptyTermListsActive` | src/pages/VotingPage.jsx:12-20 | With the initial empty term, the filter gives exactly the active topics, in order. |
| `VotingPage.SearchIgnoresCase` | src/pages/VotingPage.jsx:17-18 | A term and its lower-case form produce the same list. |
| `VotingPage.SortedIsStablePermutation` | src/pages/VotingPage.jsx:22-25 | The list is a permutation of the filtered topics. It is non-increasing in votes, and ties keep filter order. |
| `VotingPage.EmptyMessageChoice` | src/pages/VotingPage.jsx:105-111 | A message appears iff the list is empty. It is the "No topics found" message iff the term is non-empty. With an empty term, the "no topics available" message appears iff no topic is active. |
| `TopicOrder.ActiveTopics` | src/components/TopicLeaderboard.jsx:13 | `topics.filter(topic => topic.status === 'active')`, in order. `TopicLeaderboard.TopTopicsShape`, `FewActiveAllShown`, `EmptyStateIff` and `VotingPage.EmptyTermListsActive` state its properties. |
| `TopicLeaderboard.TopTopics` | src/components/TopicLeaderboard.jsx:12-15 | The five topics shown. `TopTopicsShape`, `FewActiveAllShown` and `LeftOffHaveNoMoreVotes` state its properties. |
| `TopicLeaderboard.TopTopicsShape` | src/components/TopicLeaderboard.jsx:12-15 | At most 5 topics are shown, exactly min(5, #active) of them. They are the first ones of the sorted active list, all active, and non-increasing in votes. |
| `TopicLeaderboard.FewActiveAllShown` | src/components/TopicLeaderboard.jsx:12-15 | With at most five active topics, all of them are shown. |
| `TopicLeaderboard.LeftOffHaveNoMoreVotes` | src/components/TopicLeaderboard.jsx:12-15 | No active topic left off the board has more votes than a topic on it. |
| `TopicLeaderboard.EmptyStateIff` | src/components/TopicLeaderboard.jsx:66-70 | The empty-state text appears iff no topic is active. |
| `TopicLeaderboard.VoteButtonDisabled` | src/components/TopicLeaderboard.jsx:51 | `disabled={!user}`: no signed-in user. `TopicLeaderboard.HandleVote` states that a vote then writes and changes nothing. |
| `TopicLeaderboard.HandleVote` | src/components/TopicLeaderboard.jsx:17-20 | With no signed-in user (the button is disabled, line 51), nothing is written and the store is unchanged. Otherwise the call is delegated to `voteForTopic`. |
| `TopicCard.OffersAdminControls` | src/components/TopicCard.jsx:130 | `isAdmin && !isEditing`, the render condition of the edit and delete buttons. It is the precondition of `Card.BeginEdit` and `Card.HandleDelete`, and `BeginEdit` ensures it no longer holds. |
| `TopicCard.VoteStep` | src/components/TopicCard.jsx:19-26 | The local flag and counter after one click. `VoteStepInvolution` and `Card.HandleVote` state its properties. |
| `TopicCard.Card.Valid` | src/components/TopicCard.jsx:10-11 | The counter is the initial count plus one for a vote added since creation, minus one for a vote removed. The constructor establishes it, and `HandleVote` and `Rerender` keep it. |
| `TopicCard.VoteStepInvolution` | src/components/TopicCard.jsx:16-27 | Two vote clicks restore both the flag and the counter. |
| `TopicCard.EditUpdates` | src/components/TopicCard.jsx:30-33 | The update sent has exactly the edited title and description. |
| `TopicCard.Card.constructor` | src/components/TopicCard.jsx:10-14 | `hasVoted` starts as `isVoted(topic.id)` and `votes` as the topic's count. Editing is off and the edited text is the topic's own. The counter invariant holds. |
| `TopicCard.Card.HandleVote` | src/components/TopicCard.jsx:16-27 | With no user, nothing is sent and nothing changes. Otherwise `voteForTopic(topic.id)` is called, and it writes as the store's contract says. The flag flips and the counter goes down by one if the topic was voted and up by one if not. The counter invariant is kept. The store map is toggled when the backend also reports a user. A card that agreed with the store still does. |
| `TopicCard.Card.BeginEdit` | src/components/TopicCard.jsx:130-134 | It is reachable only while `OffersAdminControls` holds on the store's `isAdmin` (an admin, not editing). Edit mode is then on, so the controls are hidden. |
| `TopicCard.Card.SetEditedTitle` | src/components/TopicCard.jsx:63-64 | The edited title becomes the typed text. |
| `TopicCard.Card.SetEditedDescription` | src/components/TopicCard.jsx:68-69 | The edited description becomes the typed text. |
| `TopicCard.Card.HandleEdit` | src/components/TopicCard.jsx:29-37 | It sends the update of this card's topic id with exactly `EditUpdates(editedTitle, editedDescription)`. It leaves edit mode only when `updateTopic` returns true. On false, the edit mode and the edited text are kept. |
| `TopicCard.Card.HandleDelete` | src/components/TopicCard.jsx:39-43 | It is reachable only while `OffersAdminControls` holds (line 130). The deletion of this card's topic id is sent iff the confirmation is accepted. A declined confirmation sends nothing and leaves the store alone. |
| `TopicCard.Card.HandleCancel` | src/components/TopicCard.jsx:45-49 | The edited text is reset to the current `topic` prop's title and description, and edit mode ends. |
| `TopicCard.Card.Rerender` | src/pages/VotingPage.jsx:101-103 | A re-render of the card keyed by the same topic id replaces only the `topic` prop. The local vote state and the counter invariant are kept. |
| `SubmissionModal.SubmissionPayload` | src/components/SubmissionModal.jsx:20-27 | The payload has exactly six fields. `votes` is 0 and `is_external` is true iff the type is "expert". A falsy speaker becomes null and a falsy `knows_expert` becomes false, otherwise both pass through. Title and description pass through unchanged. |
| `SubmissionModal.SubmittedRowShape` | src/components/SubmissionModal.jsx:20-27 | The row inserted for a user starts at 0 votes and carries the user's id. Its speaker is truthy or null, and its `knows_expert` is truthy or false. |
| `SubmissionModal.Modal.constructor` | src/components/SubmissionModal.jsx:13-16 | The session type starts as "internal" and the form starts empty. |
| `SubmissionModal.Modal.SelectSessionType` | src/components/SubmissionModal.jsx:84 | A type button sets the session type. |
| `SubmissionModal.Modal.SetField` | src/components/SubmissionModal.jsx:99-142 | Typing sets one form field. |
| `SubmissionModal.Modal.OnSubmit` | src/components/SubmissionModal.jsx:18-33 | On a normal return from `submitTopic`, including the no-user return, the form is reset and the modal closed. On a throw, neither happens. The session type is never reset. |
| `CreateSessionModal.SpeakerFor` | src/components/CreateSessionModal.jsx:16 | The speaker is the topic's `user_name`, or "TBD" when that is missing or empty. It is never empty. |
| `CreateSessionModal.PrefillValues` | src/components/CreateSessionModal.jsx:12-27 | With a topic, the title and description come from it, the speaker from `SpeakerFor`, and the date and calendar link are empty. Without a topic, all five fields are "". |
| `CreateSessionModal.SessionData` | src/components/CreateSessionModal.jsx:31-34 | The sent record is the form plus `topic_id`: the topic's id, or undefined with no topic. `topic_id` overrides a same-named form field, and every other field passes through. |
| `CreateSessionModal.Modal.constructor` | src/components/CreateSessionModal.jsx:7-27 | On mount, the form holds the prefill of the initial topic. |
| `CreateSessionModal.Modal.Prefill` | src/components/CreateSessionModal.jsx:12-27 | The five `setValue` calls overwrite those fields and leave the others. |
| `CreateSessionModal.Modal.SetTopic` | src/components/CreateSessionModal.jsx:12-27 | A new topic prop re-runs the prefill. |
| `CreateSessionModal.Modal.SetField` | src/components/CreateSessionModal.jsx:86-146 | Typing sets one form field. |
| `CreateSessionModal.Modal.OnSubmit` | src/components/CreateSessionModal.jsx:29-41 | It sends `SessionData(form, topic)`. On success, the form is reset, the modal closed and the sessions reloaded. On a throw, the form, the modal and both session lists are kept. On success with a null reload, both session lists are kept. |
| `EditSessionModal.PrefillValues` | src/components/EditSessionModal.jsx:23-29 | The title, description, speaker and calendar link are taken from the session. |
| `EditSessionModal.EditPayload` | src/components/EditSessionModal.jsx:37-41 | The payload is the form with `date` replaced by the picked instant and `id` by the session's id. Every other field passes through. |
| `EditSessionModal.SubmitEdit` | src/components/EditSessionModal.jsx:33-42 | With no picked date, it fails with "Date is required" before any call. With no session, reading `id` fails. It saves iff there is a date, a session and an `updateSession` that succeeds. |
| `EditSessionModal.AsWrittenNeverSaves` | src/components/EditSessionModal.jsx:10 | With the context as it is, no submit ever saves. |
| `EditSessionModal.CompleteEditShowsMissingUpdater` | src/context/SessionContext.jsx:172-184 | A complete edit fails with "updateSession is not a function" as written, and saves the expected payload with a working `updateSession`. |
| `EditSessionModal.Modal.constructor` | src/components/EditSessionModal.jsx:13-31 | With a session, the form and the date picker start prefilled from it. Without one, both start empty. |
| `EditSessionModal.Modal.Prefill` | src/components/EditSessionModal.jsx:21-31 | With a session, four `setValue` calls run and the selected date becomes the session's date. Without one, nothing changes. |
| `EditSessionModal.Modal.SetSession` | src/components/EditSessionModal.jsx:21-31 | A new session prop re-runs the prefill. |
| `EditSessionModal.Modal.PickDate` | src/components/EditSessionModal.jsx:139 | The date picker sets the selected date. |
| `EditSessionModal.Modal.OnSubmit` | src/components/EditSessionModal.jsx:33-49 | On a save, the form is reset, the selected date cleared and the modal closed. On any failure, including a missing date, nothing changes. |
| `EditSessionModal.Modal.OnSubmitAsWritten` | src/components/EditSessionModal.jsx:42-48 | With the context as it is, a submit always fails and changes nothing. |

## Left out

- The Supabase client, auth and the OAuth flow (`src/lib/supabase.js`, `src/context/AuthContext.jsx`, the login and callback pages, `ProtectedRoute`, `Auth`). They are network and identity plumbing. The current user and each call's result are parameters.
- `src/lib/storage.js`: a wrapper over the storage SDK, not used by the core.
- Local-storage persistence via `use-local-storage`. The vote map is a plain field, and what was stored is a constructor parameter. Rewriting the stored value on each toggle is not modelled. Stored entries are booleans.
- Server-side vote counting. The `increment_votes`/`decrement_votes` calls appear only as part of `VoteWrite`, and reloaded topics are opaque input.
- Async interleaving. The mount effect's three calls, and the card's unawaited `voteForTopic`, run one after another in the model. A second click while a vote is in flight is not modelled.
- Dates are integer instants. Invalid dates, which compare false both ways in JavaScript and so land in neither list, are not modelled. Nor are `new Date`, `toISOString`, time zones or `Intl` formatting (`SessionCard`).
- The voting page's "newest" sort mode (`localeCompare` on ids), which depends on the locale. Only the initial "votes" mode is modelled.
- Text.Lower: handles ASCII letters only. Unicode `toLowerCase` is not modelled.
- Form-library behaviour. Required-field validation runs before `onSubmit` and is not modelled. `reset()` is modelled as clearing every field.
- The `isOpen` prop and `onClose` are modelled as the modal's own `open` field.
- Rendering and animation, and the pages and components that are only presentation or routing: `Header`, `Footer`, `Hero`, `HomePage`, `PastSessionsPage`, `SessionCard`, `App`, `tailwind.config.js`. `AdminPage` holds a redirect gate, a field setter and a submit that calls `createSession` (with no `catch`) and navigates home; it calls the store and is not part of it. `src/data/sessions.js` is static seed data.
- The leaderboard's `isVoted` button styling.

## Findings

| source | as written | input that shows it | evidently intended | confidence | as-written member | corrected member |
|---|---|---|---|---|---|---|
| src/components/EditSessionModal.jsx:10 | `updateSession` is destructured from the session context. The provider value (src/context/SessionContext.jsx:172-184) has no such member, so the call at line 42 throws a TypeError, which the `catch` swallows. | Any submit with a picked date and a loaded session. | The session is updated, then the form is reset, the date cleared and the modal closed. | high; not executed | EditSessionModal.Modal.OnSubmitAsWritten | EditSessionModal.Modal.OnSubmit |
