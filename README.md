# Quantafile voting, session and question-list logic in Dafny

Quantafile is a question-and-answer site with an Express/MongoDB back end and a
Next.js/Redux front end. This project models the parts of it that keep state
or transform data by rules:

- **The vote controller** (`voteOnItem`, `adjustReputation`). The ledger of
  vote documents is a sequence of `Vote` records. Reputations are a map from
  user id to the stored `reputation` field, which may be unset. Questions and
  answers are a map from item to author and cached `score`.
  - The whole request is the pure function `VoteController.Step`.
  - `VoteController.VoteService` performs it imperatively, one write at a
    time, and is proved equal to `Step`.
  - The lemmas in `VoteProperties` state what the controller promises over one
    request or several:
    - at most one vote per (user, item type, item id);
    - scores that agree with the ledger;
    - toggle-off undoes a first vote;
    - a flip and a flip back restore everything;
    - the point table for authors and voters.
- **The answer card's vote buttons** (`handleVote`). The card keeps its own
  counters and its own idea of the user's vote. After a successful request it
  takes the server's counts and then adjusts them again locally. The model
  keeps that behaviour as written: `AnswerCard.FirstUpvoteShownTwice` shows
  that a first upvote appears as 2.
- **The authentication slice**: the `login`, `logout` and `rehydrate`
  reducers, over the session and the browser's local storage.
- **The ask-question page**: the tag pipeline (split on commas, trim, drop
  empties, keep five), form validity and the submit guard.
- **The pagination controls and the explore page**:
  - the previous/next steps and the `totalPages <= 1` guard;
  - the filter merge that resets the page;
  - the sort-key table, the initial filters, the query-string builder and the
    page setter.

Modules:

- `Wrappers`: `Option` and `Result`.
- `JsText`: `trim`, `split(",")`, integer `toString` and truthiness.
- `VoteKinds`, `VoteLedger`, `Reputation`, `VoteController` and
  `VoteProperties`: the back end.
- `AnswerCard`, `AuthSlice`, `AskPage`, `Pagination`, `ExplorePage` and
  `FilterChange`: the front end.

In these points the model follows the code:

- An unknown voter is not an error. `adjustReputation` returns without writing
  (voteController.js:100-101).
- Nobody is refused for being banned.
- There is no write-conflict retry.
- The steps of one request are not wrapped in a transaction.

## Model

| member | source | states |
|---|---|---|
| VoteKinds.ParseItemType | backend/controllers/voteController.js:16 | An item type is accepted exactly when it is "question" or "answer", and the kind accepted has that name |
| VoteKinds.ParseVoteType | backend/controllers/voteController.js:16 | A vote type is accepted exactly when it is "upvote" or "downvote", and the direction accepted has that name |
| VoteKinds.ItemTypeNameRoundTrip | backend/models/Vote.js:11-15 | Each item kind's stored name is accepted as that kind |
| VoteKinds.VoteTypeNameRoundTrip | backend/models/Vote.js:22-26 | Each vote direction's stored name is accepted as that direction |
| VoteLedger.FindVote | backend/controllers/voteController.js:38 | `findOne` finds a document exactly when one has the (user, itemType, itemId) key, and it is the first such document |
| VoteLedger.RemoveAt | backend/controllers/voteController.js:44 | Deleting one document keeps the others in order and drops exactly that one |
| VoteLedger.CountVotes | backend/controllers/voteController.js:80-81 | A count never exceeds the number of documents |
| VoteLedger.CountZero | backend/controllers/voteController.js:80-81 | A count is zero exactly when no document belongs to the query |
| VoteLedger.NetScore | backend/controllers/voteController.js:82 | The score lies between minus the downvote count and the upvote count |
| VoteLedger.RemoveAtKeepsOthers | backend/controllers/voteController.js:44 | Deleting the voter's document keeps every document under another key and brings in none |
| VoteLedger.RedirectKeepsOthers | backend/controllers/voteController.js:59-60 | Redirecting the voter's document keeps every document under another key and brings in none |
| VoteLedger.CountAppend | backend/controllers/voteController.js:80-81 | The per-item, per-direction count of a ledger with documents added is the sum of the counts |
| VoteLedger.CountRemoveAt | backend/controllers/voteController.js:80-81 | After a deletion the count drops by one exactly for the deleted document's item and direction |
| VoteLedger.CountUpdate | backend/controllers/voteController.js:80-81 | After a direction change the old direction's count drops by one and the new one's rises by one |
| VoteLedger.AppendKeepsUnique | backend/controllers/voteController.js:68-70 | Creating a vote only when none was found keeps one vote per key |
| VoteLedger.RemoveKeepsUnique | backend/controllers/voteController.js:44 | Deleting a vote keeps one vote per key |
| VoteLedger.RedirectKeepsUnique | backend/controllers/voteController.js:59-60 | Changing a vote's direction in place keeps one vote per key |
| VoteLedger.FoundIsOnly | backend/controllers/voteController.js:38 | In a unique ledger the document found is the only one with that key |
| Reputation.Adjusted | backend/controllers/voteController.js:99-120 | An unknown user changes nothing. Otherwise only that user is written, by the table's delta (+5/+10 upvote, -2 downvote, -1 voter downvote), negated for `remove`. An unset reputation counts as 0 |
| Reputation.RemoveUndoesAdd | backend/controllers/voteController.js:116 | `remove` undoes `add` for the same arguments, for every user |
| Reputation.VoteEffect | backend/controllers/voteController.js:72-74 | One vote's effect adds or drops no user, and changes nobody but the author and the voter. For an upvote or a self-vote, it changes only the author |
| Reputation.VoteEffectIsTable | backend/controllers/voteController.js:72-74 | One vote's effect moves every user by the point table: the author's share, plus the voter's -1 for a downvote when voter and author differ |
| Reputation.VoteEffectRoundTrip | backend/controllers/voteController.js:47-49 | Removing a vote's effect after adding it restores every reputation |
| Reputation.SelfDownvoteCostsTwo | backend/controllers/voteController.js:73-74 | A user downvoting their own item loses 2 and nobody else changes |
| Reputation.FlipBackRestores | backend/controllers/voteController.js:54-64 | Reversing a vote, applying the other, and doing it back restores every reputation |
| VoteController.Transition | backend/controllers/voteController.js:38-77 | No user is added or dropped, and every document under another (user, item) key is kept, none being created |
| VoteController.Record | backend/controllers/voteController.js:80-90 | The response's counts are the new ledger's counts, and its score is their net. Only that item's score is rewritten, to the same value, and no user is added or dropped |
| VoteController.VoteService.constructor | backend/models/Question.js:20-23 | The service starts with an empty vote collection over the given users and items, all at score 0, and with its invariants holding |
| VoteController.Step | backend/controllers/voteController.js:7-95 | A failure changes nothing. 400 exactly for a bad item type or vote type. With valid names, 404 exactly for a missing item, of the requested kind, and 500 for an item whose author is gone. On success only the item's score is rewritten, no user is added or dropped, the counts are the ledger's and the score is their difference |
| VoteController.VoteService.AdjustReputation | backend/controllers/voteController.js:99-120 | The in-place update leaves the users as `Adjusted` describes |
| VoteController.VoteService.RecordVote | backend/controllers/voteController.js:38-77 | The create / toggle-off / flip writes leave ledger and users as `Transition` describes |
| VoteController.VoteService.VoteOnItem | backend/controllers/voteController.js:7-95 | The request keeps ledger uniqueness and score consistency, and its state and response are those of `Step` |
| VoteController.RecordKeepsInvariants | backend/controllers/voteController.js:38-90 | A successful request keeps one vote per key and every cached score equal to the ledger's net count |
| VoteController.TransitionKeepsUnique | backend/controllers/voteController.js:38-77 | Every transition from any ledger with one vote per key keeps one vote per key |
| VoteController.OtherItemsKeepScore | backend/controllers/voteController.js:38-77 | A vote on one item leaves every other item's net count unchanged |
| VoteProperties.StepIsRecord | backend/controllers/voteController.js:16-34 | A well-formed request on an existing item whose author exists always succeeds |
| VoteProperties.StepKeepsInvariants | backend/controllers/voteController.js:7-95 | Every request, successful or not, keeps uniqueness and score consistency |
| VoteProperties.StepOnCreate | backend/controllers/voteController.js:68-77 | With no vote held, the document is appended and the vote's points are added |
| VoteProperties.StepOnToggle | backend/controllers/voteController.js:41-51 | Resubmitting the held direction deletes the document found and takes its points back |
| VoteProperties.StepOnFlip | backend/controllers/voteController.js:52-67 | Submitting the opposite direction redirects the same document, and takes the old points back before giving the new ones |
| VoteProperties.FirstVoteEffects | backend/controllers/voteController.js:68-90 | A first vote succeeds, becomes the held vote, and moves every reputation by its table entry |
| VoteProperties.ToggleOffEffects | backend/controllers/voteController.js:41-51 | A toggle-off removes the only vote for the key, so none is held afterwards, and takes the table entry back |
| VoteProperties.FlipEffects | backend/controllers/voteController.js:52-67 | A flip makes the new direction the held vote and moves each reputation by new entry minus old entry |
| VoteProperties.SelfDownvote | backend/controllers/voteController.js:72-74 | A first downvote on one's own item costs the author 2 and changes nobody else |
| VoteProperties.ToggleTwiceRestores | backend/controllers/voteController.js:41-77 | The same direction submitted twice from no vote restores the ledger and every reputation |
| VoteProperties.ToggleTwiceKeepsScore | backend/controllers/voteController.js:80-86 | After those two requests, consistent cached scores are back to their old values |
| VoteProperties.FlipTwiceRestores | backend/controllers/voteController.js:52-67 | A flip and a flip back restore the ledger and every reputation |
| VoteProperties.FlipTwiceKeepsScore | backend/controllers/voteController.js:80-86 | After a flip and a flip back, consistent cached scores are back to their old values |
| VoteProperties.ScenarioUpvote | backend/controllers/voteController.js:68-90 | Upvoting someone else's question on an empty ledger returns (score 1, 1 up, 0 down) and gives the author 5 |
| VoteProperties.ScenarioFlip | backend/controllers/voteController.js:52-67 | Flipping that upvote to a downvote returns (-1, 0, 1), costs the author 7 and the voter 1 |
| VoteProperties.ScenarioToggleOff | backend/controllers/voteController.js:41-51 | Downvoting again returns (0, 0, 0), gives the author 2 back and the voter 1 back |
| VoteProperties.UpvoteFlipToggleScenario | backend/controllers/voteController.js:7-95 | Up, down, down from an empty ledger: the three responses and reputations above, ending where it began |
| AnswerCard.AfterVote | frontend/components/Answer/AnswerCard.tsx:74-101 | The remembered vote toggles. The pressed counter shows the server's count plus one, or that count less one floored at 0 when undoing. The other counter loses one (floored) only when the vote was the other way. No counter is negative |
| AnswerCard.VoteButtons.constructor | frontend/components/Answer/AnswerCard.tsx:39-47 | The card starts with the answer's array lengths, no remembered vote, not loading |
| AnswerCard.VoteButtons.HandleVote | frontend/components/Answer/AnswerCard.tsx:54-109 | A request is sent exactly when there is a token. Without one, nothing changes. A failed request leaves counters and vote unchanged. A successful one leaves the card as `AfterVote` says. Whenever a request was sent, loading ends false; without a token it is left as it was |
| AnswerCard.CardFollowsLedger | frontend/components/Answer/AnswerCard.tsx:72-101 | When the card's remembered vote is the ledger's, it still is after the request. A new vote is shown one above the ledger's count |
| AnswerCard.FirstUpvoteShownTwice | frontend/components/Answer/AnswerCard.tsx:74-89 | The first upvote on an unvoted answer comes back as 1 from the server and is shown as 2 |
| AuthSlice.LoggedIn | frontend/store/slices/authSlice.ts:27-30 | The session after `login` holds the payload's user and token, is authenticated, and is consistent |
| AuthSlice.Rehydrated | frontend/store/slices/authSlice.ts:49-60 | Outside a browser the session is untouched. A changed session is authenticated with the stored user and token, and consistency is kept |
| AuthSlice.StoredAfterLogin | frontend/store/slices/authSlice.ts:32-35 | In a browser "user" and "token" hold the payload afterwards. No other key changes, and outside a browser nothing does |
| AuthSlice.StoredAfterLogout | frontend/store/slices/authSlice.ts:43-46 | In a browser "user" and "token" are gone afterwards. No other key changes, and outside a browser nothing does |
| AuthSlice.ReducersKeepConsistent | frontend/store/slices/authSlice.ts:15-60 | The initial state, the result of `login` and of `logout`, and the result of `rehydrate` on a consistent session are all authenticated exactly when a token (and a user) is held |
| AuthSlice.RehydrateNeedsBoth | frontend/store/slices/authSlice.ts:49-60 | `rehydrate` changes the session only in a browser holding a non-empty stored user and token, and then takes exactly those |
| AuthSlice.ReloadAfterLogin | frontend/store/slices/authSlice.ts:27-60 | After `login` with a non-empty token, `rehydrate` restores that session from any starting state |
| AuthSlice.EmptyTokenNotRestored | frontend/store/slices/authSlice.ts:32-57 | A login with an empty token is accepted but not restored on reload |
| AuthSlice.ReloadAfterLogout | frontend/store/slices/authSlice.ts:38-60 | After `logout`, `rehydrate` leaves a fresh store logged out |
| AuthSlice.AuthStore.constructor | frontend/store/slices/authSlice.ts:15-21 | The store starts from `initialState` (the constant `InitialState`: no user, no token, not authenticated) over the existing storage |
| AuthSlice.AuthStore.Login | frontend/store/slices/authSlice.ts:27-36 | The session becomes the payload, authenticated, and the storage is written as `StoredAfterLogin` says |
| AuthSlice.AuthStore.Logout | frontend/store/slices/authSlice.ts:38-47 | The session becomes the initial one and the storage is cleared as `StoredAfterLogout` says |
| AuthSlice.AuthStore.Rehydrate | frontend/store/slices/authSlice.ts:49-60 | The session becomes `Rehydrated` of the old one, the storage is only read, and consistency is kept |
| JsText.Trim | frontend/app/ask/page.tsx:29 | The result has no whitespace at either end. It is empty exactly when the input is all whitespace. Otherwise it is the input between its leading and trailing whitespace |
| JsText.TrimIdempotent | frontend/app/ask/page.tsx:29 | Trimming twice is trimming once |
| JsText.Split | frontend/app/ask/page.tsx:28 | `split(",")` yields at least one piece and no piece holds a comma |
| JsText.JoinSplit | frontend/app/ask/page.tsx:28 | Joining the pieces with commas gives back the string split |
| JsText.SplitJoin | frontend/app/ask/page.tsx:28 | Splitting comma-free pieces joined with commas gives back the pieces |
| JsText.IntToStringRoundTrip | frontend/app/explore/page.tsx:51 | An integer's decimal text reads back as that integer |
| JsText.IntToStringSign | frontend/app/explore/page.tsx:55-56 | An integer's text is non-empty and starts with "-" exactly for a negative integer |
| AskPage.TrimAll | frontend/app/ask/page.tsx:29 | Each piece is replaced by its trim, in place |
| AskPage.NonEmpty | frontend/app/ask/page.tsx:30 | Exactly the non-empty pieces are kept, each as often as it occurs |
| AskPage.NonEmptySingle | frontend/app/ask/page.tsx:30 | A single piece is kept exactly when it is non-empty; with `NonEmptyConcat` this fixes the order |
| AskPage.NonEmptyConcat | frontend/app/ask/page.tsx:30 | Filtering a concatenation is concatenating the filtered parts, so order is kept |
| AskPage.CleanPieceMembership | frontend/app/ask/page.tsx:27-30 | A string is a clean piece exactly when it is the non-empty trim of some comma-separated piece |
| AskPage.CleanPiecesAreTags | frontend/app/ask/page.tsx:27-30 | Every clean piece is non-empty, already trimmed and comma-free |
| AskPage.CleanPiecesInOrder | frontend/app/ask/page.tsx:27-30 | The clean pieces of `a,b` are those of `a` followed by those of `b`, so input order is kept |
| AskPage.ParseTags | frontend/app/ask/page.tsx:27-31 | The tag list is the first min(5, n) clean pieces, each non-empty, trimmed and comma-free |
| AskPage.IsFormValid | frontend/app/ask/page.tsx:33 | The form is valid exactly when neither title nor description is all whitespace |
| AskPage.AskQuestionForm.constructor | frontend/app/ask/page.tsx:17-20 | The form starts empty and not loading |
| AskPage.AskQuestionForm.HandleSubmit | frontend/app/ask/page.tsx:35-57 | A request is sent exactly when the form is valid. It carries the trimmed title and description, the parsed tags and the token. Navigation happens exactly when it succeeds. After a sent request loading ends false; an invalid form leaves it as it was |
| Pagination.StepBack | frontend/components/Questions/Pagination.tsx:18-20 | The page moves back by one exactly when it is above 1, and never below 1 from a valid page |
| Pagination.StepForward | frontend/components/Questions/Pagination.tsx:22-24 | The page moves forward by one exactly when it is below the last page, and never past it |
| Pagination.GoToPreviousPage | frontend/components/Questions/Pagination.tsx:18-20 | Page `page - 1` is requested exactly when `page > 1` |
| Pagination.GoToNextPage | frontend/components/Questions/Pagination.tsx:22-24 | Page `page + 1` is requested exactly when `page < totalPages` |
| Pagination.StepsStayInRange | frontend/components/Questions/Pagination.tsx:18-24 | From a page in 1..totalPages both steps stay in 1..totalPages |
| Pagination.RenderedControlsMove | frontend/components/Questions/Pagination.tsx:16-24 | When the controls render, at least one of them moves |
| Pagination.ForwardThenBack | frontend/components/Questions/Pagination.tsx:18-24 | Next then previous returns to the page, when there is a next page |
| Pagination.BackThenForward | frontend/components/Questions/Pagination.tsx:18-24 | Previous then next returns to the page, when there is a previous page |
| FilterChange.OnFilterChange | frontend/lib/onFilterChange.ts:3-12 | Every key in the update, even one set to undefined, replaces the old value. Every other key keeps its value, and the page becomes 1 |
| FilterChange.OnFilterChangeIdempotent | frontend/lib/onFilterChange.ts:7-11 | Applying the same update twice is applying it once |
| FilterChange.NoChangeResetsPage | frontend/lib/onFilterChange.ts:7-11 | An empty update only resets the page to 1 |
| FilterChange.OnFilterChangeThen | frontend/lib/onFilterChange.ts:7-11 | Two updates in a row equal one update with the keys of both, the later winning |
| FilterChange.FilterChangeAndPaging | frontend/lib/onFilterChange.ts:7-11 | A page chosen before a filter change is forgotten, and choosing a page after one changes only the page |
| ExplorePage.InitialFilters | frontend/app/explore/page.tsx:38-48 | The page starts at page 1 with no keyword and a sort name the table knows |
| ExplorePage.SortParam | frontend/app/explore/page.tsx:53 | The sort value sent is always one of the table's values, never empty |
| ExplorePage.QueryFor | frontend/app/explore/page.tsx:50-60 | The query always names a page. It names a sort exactly when the filter has one, and that sort is a table value. It names a user exactly when the user filter is non-empty |
| ExplorePage.QueryParams | frontend/app/explore/page.tsx:49-61 | The query built step by step is `QueryFor` of the filters |
| ExplorePage.QueryPageRoundTrip | frontend/app/explore/page.tsx:51 | The query always names a page, and it reads back as the filter's page, or 1 when unset |
| ExplorePage.QueryVoteBounds | frontend/app/explore/page.tsx:55-56 | A vote bound is sent exactly when set and non-zero, and reads back unchanged |
| ExplorePage.QueryTextFilters | frontend/app/explore/page.tsx:52-59 | Keyword, status, user, start and end date are sent unchanged exactly when set and non-empty. The user filter travels as "user" |
| ExplorePage.QueryIgnoresAnswered | frontend/app/explore/page.tsx:49-61 | The `answered` filter never affects the query |
| ExplorePage.QueryValuesNonEmpty | frontend/app/explore/page.tsx:51-59 | No name is sent with an empty value |
| ExplorePage.SortParamTable | frontend/app/explore/page.tsx:53 | The sort value is the table's entry for a known name and "newest" otherwise, never empty |
| ExplorePage.SortNames | frontend/app/explore/page.tsx:25-31 | The five sort names map as the table says, and an unknown name falls back to "newest" |
| ExplorePage.InitialQuery | frontend/app/explore/page.tsx:38-61 | The first query asks for page 1 sorted by newest, and nothing else |
| ExplorePage.SetPage | frontend/app/explore/page.tsx:88-90 | The setter sets the page and changes no other filter |

## Left out

- Database and HTTP. Mongoose queries, `populate` and `save` become operations on maps and sequences. Status codes and JSON bodies become the `VoteError` and `VoteSummary` datatypes. The `message` texts are not modelled.
- Concurrency. One `voteOnItem` call is one atomic step. How the awaits of concurrent requests interleave is not modelled.
- The `catch` of malformed ids. An item id that is not a valid ObjectId makes Mongoose throw (a 500). Here ids are strings, and an unknown id is a 404. A missing author document is modelled: `populate` gives null, dereferencing it throws, and the result is `VotingFailed` with nothing changed.
- Authentication. JWT checking and `req.user` are not modelled. The voter id is a parameter.
- The other controllers are not part of this model. Neither are the `upvotes`/`downvotes` arrays on questions and answers: the answer card takes their lengths as its constructor's parameters.
- User interface effects. Toasts, the pulse animation timers, rendering, the login modal of the ask page and the `useRequireAuth` guard are not modelled. Router navigation becomes a boolean result.
- Network calls from the front end. The outcome of `changeVote` and of `createQuestion` is a parameter. The card's `loadingVote` is true only while the call is pending, which is not observable here.
- AnswerCard.VoteButtons.constructor: the card always starts with no remembered vote (AnswerCard.tsx:47), even when the ledger holds one. `AnswerCard.CardFollowsLedger` therefore assumes the two agree before the request.
- JSON. The stored user is kept as its JSON text, and `JSON.parse` of `JSON.stringify` is taken as the identity. The stored user text is taken to encode a user object, not a JSON literal such as `null`, which `JSON.parse` would turn into a null user. A stored text that is not valid JSON (where `JSON.parse` throws) is not modelled.
- Local storage failures, such as quota or disabled storage, are not modelled.
- VoteLedger.CountVotes: its own contract only bounds the count. What it counts is fixed by `CountZero`, `CountAppend`, `CountRemoveAt` and `CountUpdate`.
- Pagination.Renders: the `totalPages <= 1` guard (Pagination.tsx:16) is a predicate without a contract of its own. `Pagination.RenderedControlsMove` is the statement about it.
- JsText.Trim: whitespace is a fixed set of characters (space, tab, line feed, carriage return, vertical tab, form feed, no-break space, the two Unicode line and paragraph separators, and the byte-order mark). It does not cover all of JavaScript's Unicode space separators.
- ExplorePage.QueryParams:
  - `URLSearchParams` is a record with one optional value per name the page uses.
  - The order in which names are inserted is not modelled, and neither is the percent-encoded `toString`.
- ExplorePage.SortParam: a name that is an object prototype key (such as "toString") is treated as absent. In JavaScript that lookup finds a function instead.
- JsText.IntToString: filter numbers are integers. JavaScript's `toString` of fractions, `NaN` and very large numbers is not modelled, and integers are unbounded.
- The vote-range check of the filter panel (Filters.tsx) is not part of this model.
- Dates are passed through as strings.
