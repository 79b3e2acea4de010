# great-brit, modelled in Dafny

This project models "great-brit", a fantasy-league web app for a television baking
competition. Players rank the contestants ("stars") before each episode, propose and accept
bets on events, and watch a bank balance.

## What is modelled

The store is an immutable value. Every Express route is a pure function from the store and
the request to an `Outcome`, which holds the new store and the reply. A reply is an `Ok`
with a status and a body, an `Err` with a status and a message, or `Unhandled` when the
handler throws outside its `try` and Express 4 sends nothing. Every client handler and
Redux reducer is a pure state transition.

**Server**

- `Common`: the shared sequence toolkit.
  - `findOne` is the first match.
  - `deleteMany` and `find` are `Filter`.
  - A Mongo `.sort({ rank: 1 })` is a stable insertion sort over a total order.
  - A `findIndex`-then-assign is `ReplaceFirst`.
- `Models`: the Mongoose records and the `Db` store.
  - Shared lookups: a session by token, an episode or user by id.
  - `Latest`: the highest-numbered episode, which is what `findOne().sort({ number: -1 })` returns.
  - `RankStars`: the 1..n ranking of a list of stars, shared by episode seeding and the backfill script.
- `EpisodeRoutes`: get and set the current episode, create an episode with default rankings, list and create an episode's events.
- `RankingRoutes`: read a user's rankings for an episode, and replace all of a user's rankings.
- `BackfillRankings`: the offline script that gives every (user, episode) pair without rankings a 1..n ranking of the episode's stars.
- `BetRoutes`: list bets by episode, with a fallback to the latest episode; create, resolve and delete bets.
- `EventRoutes`: the relational (Prisma) generation's event-type listing and its event creation with ordered validation. Ids pass through JavaScript truthiness and a radix-less `parseInt` (section 19.2.5 of ECMA-262): leading white space, a sign, a `0x` prefix and trailing text are handled as JavaScript handles them. The event types' order is a collation parameter, since the database decides it.
- `UserRoutes`: create a user, the users-with-rankings report, profile patch, login and logout.
- `AuthMiddleware`: the request gate.
  - The token is the second space-separated piece of the `Authorization` header.
  - The session is looked up and its expiry compared with the clock.
  - This loosely follows the bearer scheme of section 2.1 of RFC 6750, but the scheme word is never checked.

**Client**

- `RankingsPage`: the adjacent-swap reorder with renumbering.
- `RankingsSubmit`: what the page posts when the user saves.
- `ManageStars`: the star-selection toggle and the selection sync.
- `NewBet`: odds and maximum-win arithmetic, the eligible-user filter and the form reset.
- `BetTable`: the accept-button classification, the column set and the won/lost toggle.
- `Home`: the bank-balance fold and its colour.
- `ResetPassword`: the submit handler's validation sequence.
- `AdminTabs`: the tab selection by pathname and navigation.
- `EpisodesSlice`, `BetsSlice`, `StarsSlice`, `EventsSlice`, `UsersSlice`, `RankingsSlice`: the Redux reducers.

**Parameters.** The following enter as parameters, never as internals:

- the password hash and the password check (bcrypt);
- generated ids and tokens (uuid);
- the clock;
- the outcome of an HTTP request.

**Two generations of the server coexist in the source, and the model follows the code that handles each route:**

- Event creation lives in the Prisma generation's `POST /events`. That generation uses numeric ids and an event-type table.
- The older Mongoose `POST /episodes/:episodeId/events` is modelled separately, as `EpisodeRoutes.CreateEpisodeEvent`.

## Model

| member | source | states |
|---|---|---|
| Models.SessionByToken | server/api/router/rankingRoutes.js:42 | the session found for a token holds that token, and there is none exactly when no session holds it |
| Models.Latest | server/api/router/betRoutes.js:17 | the highest-numbered episode: absent only for an empty store, otherwise an episode no other episode outnumbers |
| Models.RankStarsPermutation | server/api/router/episodeRoutes.js:37-43 | the ranks handed to a list of stars are exactly 1..n, pairwise distinct, and each row names one of the stars |
| Models.UserEpisodeRankings | server/api/router/rankingRoutes.js:22-27 | a user's rankings for an episode number, sorted by rank, containing exactly the matching rows with their multiplicities |
| EpisodeRoutes.GetCurrent | server/api/router/episodeRoutes.js:110-118 | the reply is an episode flagged current, or null exactly when no episode is current |
| EpisodeRoutes.SetCurrent | server/api/router/episodeRoutes.js:121-145 | an unknown id is a 404 that changes nothing; otherwise the target alone is current and every episode keeps its number, airing flag and events |
| EpisodeRoutes.ExactlyOneCurrent | server/api/router/episodeRoutes.js:131-138 | with unique episode ids, after a successful set exactly one episode is current |
| EpisodeRoutes.SetThenGet | server/api/router/episodeRoutes.js:110-145 | reading the current episode right after setting it returns the episode just set |
| EpisodeRoutes.ActiveStarIds | server/api/router/episodeRoutes.js:34 | an id is listed exactly when some stored star with that id is active; there is one entry per active star, and the k-th entry belongs to the k-th active star in store order |
| EpisodeRoutes.SeedRankings | server/api/router/episodeRoutes.js:36-46 | every seeded ranking carries the new episode number, a rank in 1..k and one of the active stars |
| EpisodeRoutes.SeedRankingsOfUser | server/api/router/episodeRoutes.js:36-46 | with unique user ids, each listed user receives exactly the 1..k ranking of the active stars in order |
| EpisodeRoutes.SeedRankingsOfStranger | server/api/router/episodeRoutes.js:36-46 | a user not in the list receives no seeded ranking |
| EpisodeRoutes.CreateEpisode | server/api/router/episodeRoutes.js:22-54 | the new episode keeps the given number and airing flag and is not current; every episode-3 ranking is gone, other rankings stay, and the only additions carry the new number |
| EpisodeRoutes.CreateEpisodeSeedsUser | server/api/router/episodeRoutes.js:31-46 | after creation a user's rankings are the ones kept from before followed by the fresh 1..k ranking of the active stars |
| EpisodeRoutes.EpisodeEvents | server/api/router/episodeRoutes.js:57-74 | each stored event of that episode occurs as often as it is stored, and no other event occurs |
| EpisodeRoutes.CreateEpisodeEvent | server/api/router/episodeRoutes.js:77-107 | an unknown episode is a 404 that stores nothing; otherwise one event with the given fields is appended and returned with 201 |
| EpisodeRoutes.CreateThenListEvents | server/api/router/episodeRoutes.js:57-107 | a created event is listed for its episode, after the events already there |
| RankingRoutes.GetRankings | server/api/router/rankingRoutes.js:9-34 | no session or no episode id is a 401; an unknown episode is a 500; otherwise each of the session user's rankings for that episode's number occurs as often as it is stored, no other ranking occurs, and the list is in rank order |
| RankingRoutes.SubmittedRankings | server/api/router/rankingRoutes.js:56-70 | the k-th ranking is made from the k-th submitted entry whose star exists, with that star, rank, user and episode number, and there is exactly one per such entry; entries naming unknown stars are dropped |
| RankingRoutes.PostRankings | server/api/router/rankingRoutes.js:37-82 | no session is a 401 that changes nothing; otherwise all the user's old rankings are deleted first; with a list and an episode, the user's stored rankings are then exactly the submitted known-star entries, once each and in submission order, under the latest number; other users' rankings are kept, and the reply is the user's rankings in rank order, with the same multiplicities; a missing list is a 500 after the deletion; with no episode at all the user's rows are still deleted, and the reply is a 500 exactly when some entry names a known star, otherwise a 201 with an empty list |
| RankingRoutes.PostKeepsOtherUsers | server/api/router/rankingRoutes.js:53-70 | other users' rankings come out of a post in the same order and multiplicity as they went in |
| RankingRoutes.PostThenGet | server/api/router/rankingRoutes.js:9-82 | reading the latest episode back after a post returns the same sequence the post replied with |
| BackfillRankings.EpisodeStarIds | server/scripts/backfillRankings.js:41-45 | the star ids assigned to an episode, ascending, one per assignment row |
| BackfillRankings.Backfill | server/scripts/backfillRankings.js:23-66 | the script only appends, and every appended row belongs to a listed user and a listed episode number |
| BackfillRankings.BackfillIdempotent | server/scripts/backfillRankings.js:27-38 | running the script on its own output adds nothing |
| BackfillRankings.BackfillSkipsRankedPairs | server/scripts/backfillRankings.js:35-38 | a (user, episode) pair that already had rankings keeps exactly its rows |
| BackfillRankings.BackfillNoStarsNoRows | server/scripts/backfillRankings.js:47-50 | an episode with no assigned stars gets no rankings for a user that had none |
| BackfillRankings.BackfillProcessedPair | server/scripts/backfillRankings.js:53-62 | a processed pair gets exactly the 1..n ranking of its ascending star ids: one ranking per join row, every assigned star ranked, each tagged with the user and the episode number |
| BackfillRankings.StarOrderGivesRankOrder | server/scripts/backfillRankings.js:41-58 | a smaller star id gets a smaller rank |
| BetRoutes.ListBets | server/api/router/betRoutes.js:10-27 | the bets of the named episode's number, each as often as it is stored and no others; "undefined" or an episode numbered 0 falls back to the latest episode; an unknown episode, or no episode to fall back to, is a 500 |
| BetRoutes.ResolveUsers | server/api/router/betRoutes.js:45-50 | one entry per requested id in order: the id where it names a user, null where it names none |
| BetRoutes.CreateBet | server/api/router/betRoutes.js:30-69 | a bet by the session user under the latest episode number, unresolved, with nobody accepted; no session or no episode is a 500 that stores nothing |
| BetRoutes.CreateBetNeverUnauthorized | server/api/router/betRoutes.js:38-43 | the bet-creation handler never answers 401 itself, because it reads the session before checking it |
| BetRoutes.CreateBetChecked | server/api/router/betRoutes.js:38-66 | with the session tested first, a missing session is exactly the case of a 401, which stores nothing; with a session, a bet is created exactly when an episode exists, appended under the latest number |
| BetRoutes.CreateBetCheckedUnauthorized | server/api/router/betRoutes.js:38-43 | for a missing session the corrected handler answers 401 and stores no bet, where the handler as written answers 500; with a session the two agree |
| BetRoutes.CreateThenList | server/api/router/betRoutes.js:10-69 | a created bet is listed both when no episode is named and when the latest episode is named |
| BetRoutes.UpdateBet | server/api/router/betRoutes.js:71-93 | an unknown id is a 404 that changes nothing; otherwise the first bet with the id gets the new `won` and nothing else changes |
| BetRoutes.UpdateBetExactlyOne | server/api/router/betRoutes.js:76-84 | with unique ids, only the named bet changes, and only in its `won` |
| BetRoutes.DeleteBet | server/api/router/betRoutes.js:95-112 | an unknown id is a 404 that changes nothing; otherwise the first bet with the id is removed, and the bets before and after it keep their order |
| BetRoutes.DeleteBetExactlyOne | server/api/router/betRoutes.js:99-107 | with unique ids, the remaining bets are exactly those with other ids |
| EventRoutes.ParseIntCases | server/api/router/eventRoutes.js:47-49 | `parseInt` of a text starting with a decimal digit, other than a `0x` prefix, is the value of its leading digit run; a text without any digit is NaN |
| EventRoutes.ParseSkipsSpace | server/api/router/eventRoutes.js:47-49 | leading JavaScript white space does not change what `parseInt` reads |
| EventRoutes.ParseNegativeDigits | server/api/router/eventRoutes.js:47-49 | a minus sign before decimal digits negates their value |
| EventRoutes.ParseShowHex | server/api/router/eventRoutes.js:47-49 | after a `0x` prefix the digits are read in base 16 |
| EventRoutes.ParseUpperHex | server/api/router/eventRoutes.js:47-49 | `0X1A` reads as 26 |
| EventRoutes.ParseShowNat | server/api/router/eventRoutes.js:47-49 | parsing the decimal text of an id gives the id back |
| EventRoutes.ListEventTypes | server/api/router/eventRoutes.js:6-17 | every event type once, ordered by description under the database's collation |
| EventRoutes.ListEventTypesOrdered | server/api/router/eventRoutes.js:8-10 | the listed event types are pairwise in description order, for any collation |
| EventRoutes.CodePointCollation | server/api/router/eventRoutes.js:8-10 | code-point order, the collation of a binary locale, is total and transitive |
| EventRoutes.CreateEvent | server/api/router/eventRoutes.js:35-87 | a falsy star id is a 400, then a falsy event-type id a 400, then an unknown star a 404, then an unknown event type a 404, each storing nothing; otherwise one event with the parsed ids, the time and a null episode for a falsy episode id |
| EventRoutes.CreateEventFromText | server/api/router/eventRoutes.js:39-82 | well-formed decimal ids of an existing star and event type always create the event with those ids |
| UserRoutes.UsersWithRankings | server/api/router/userRoutes.js:40-61 | one entry per user in store order, each with that user's rankings for the episode's number in rank order; an unknown episode throws when there is any user |
| UserRoutes.UsersWithRankingsComplete | server/api/router/userRoutes.js:47-57 | each entry holds exactly that user's rankings for the episode, with multiplicities |
| UserRoutes.PatchUser | server/api/router/userRoutes.js:64-72 | the first user with the id takes each supplied name and email, every other user is unchanged, and no field left out of the query changes; the reply is the user as it was before |
| UserRoutes.PatchThenFind | server/api/router/userRoutes.js:64-72 | looking the user up after a patch finds the supplied fields with their new values and the rest as before |
| UserRoutes.PatchUserIdempotent | server/api/router/userRoutes.js:64-72 | sending the same patch twice leaves the store as one patch did |
| UserRoutes.Login | server/api/router/userRoutes.js:74-110 | an unknown email is a 401 "User not found", a failed check a 401 "Invalid password", neither creating a session; success appends one session for the first user with that email and returns its token |
| UserRoutes.Logout | server/api/router/userRoutes.js:113-131 | an unknown token is a 404 that changes nothing; otherwise the first session with the token is removed, and the sessions before and after it keep their order |
| UserRoutes.LogoutExactlyOne | server/api/router/userRoutes.js:118-126 | with unique tokens, the remaining sessions are exactly those with other tokens |
| UserRoutes.LoginThenLogout | server/api/router/userRoutes.js:74-131 | logging out with the token a login just issued restores the store |
| UserRoutes.CreateThenLogin | server/api/router/userRoutes.js:17-110 | a newly created account with a fresh email can log in with its password |
| AuthMiddleware.Split | server/api/router/authMiddleware.js:4 | `split(" ")`: at least one piece, none containing a space |
| AuthMiddleware.JoinSplit | server/api/router/authMiddleware.js:4 | joining the pieces with spaces gives the header back |
| AuthMiddleware.SplitJoin | server/api/router/authMiddleware.js:4 | space-free pieces joined with spaces split back into the same pieces |
| AuthMiddleware.TokenOf | server/api/router/authMiddleware.js:4-8 | the token is the non-empty second piece of the header, and absent for a missing header, one without a space, or an empty second piece |
| AuthMiddleware.TokenIgnoresScheme | server/api/router/authMiddleware.js:4 | any scheme word followed by a space and a token yields the token; a lone word yields none |
| AuthMiddleware.Authenticate | server/api/router/authMiddleware.js:3-26 | no token is a 401; an unknown token or a session expired strictly before now is a 401; otherwise next is called with the session's user; every rejection is a 401 |
| AuthMiddleware.AuthenticateUniqueTokens | server/api/router/authMiddleware.js:11-21 | with unique tokens the gate rejects exactly when that session's expiry is before now |
| AuthMiddleware.AuthenticateBearer | server/api/router/authMiddleware.js:3-21 | a "scheme token" header whose session has not expired passes to next |
| RankingsPage.Move | client/src/containers/Rankings/index.js:56-73 | an out-of-range move leaves the list unchanged; otherwise the item swaps with its neighbour, every item is renumbered with its position, and the items are a permutation of the input |
| RankingsPage.MoveAtEdges | client/src/containers/Rankings/index.js:61-63 | moving the first item up or the last item down changes nothing |
| RankingsPage.MoveOtherIsDown | client/src/containers/Rankings/index.js:61 | any direction other than "up" moves down |
| RankingsPage.UpThenDown | client/src/containers/Rankings/index.js:61-69 | with unique ids, moving an item up and back down restores the order, renumbered |
| RankingsSubmit.BodyRankings | client/src/store/rankingsSlice.js:19-26 | the thunk reads `rankings` off its argument, so a bare array posts no list |
| RankingsSubmit.SubmitAsWritten | client/src/containers/Rankings/index.js:52-54 | the page as written hands the thunk a bare array, so the request carries no rankings list |
| RankingsSubmit.Submit | client/src/store/rankingsSlice.js:19-22 | the argument shape the thunk reads: the items under `rankings`, which become the posted list |
| RankingsSubmit.SubmitAsWrittenWipes | client/src/containers/Rankings/index.js:52-54 | as written, saving deletes every ranking of the signed-in user and answers 500 |
| RankingsSubmit.SubmitAsWrittenExample | client/src/containers/Rankings/index.js:52-54 | a concrete store whose only ranking is lost when the unchanged page is saved |
| RankingsSubmit.SubmitStores | client/src/store/rankingsSlice.js:19-26 | posting the items inside an object stores each item with a known star at its rank under the latest episode, once and in page order, and nothing else for the user |
| ManageStars.Toggle | client/src/containers/Episodes/ManageStars.js:36-39 | a selected id is removed everywhere, an unselected one is appended, and membership of every other id is unchanged |
| ManageStars.ToggleRemovesInOrder | client/src/containers/Episodes/ManageStars.js:37-38 | removal keeps the remaining ids in order and shortens the list |
| ManageStars.ToggleTwice | client/src/containers/Episodes/ManageStars.js:37-39 | toggling the same star twice restores the set of selected ids |
| ManageStars.ToggleNoDuplicates | client/src/containers/Episodes/ManageStars.js:37-39 | a duplicate-free selection stays duplicate-free |
| ManageStars.HandleToggle | client/src/containers/Episodes/ManageStars.js:36-45 | the request carries the episode and exactly the new selection |
| ManageStars.SyncThenToggle | client/src/containers/Episodes/ManageStars.js:29-39 | after a non-empty star list loads, an id is selected exactly when a listed star has it, so ticking any listed star next deselects it |
| NewBet.MaxWin | client/src/containers/Bets/NewBet.js:27-29 | the maximum win times the numerator equals the stake times the denominator |
| NewBet.Odds | client/src/containers/Bets/NewBet.js:38 | the odds times the denominator equal the numerator |
| NewBet.Submit | client/src/containers/Bets/NewBet.js:35-49 | the body carries the description, users, stake, odds and maximum win, and the form returns to its initial values |
| NewBet.OddsTimesMaxWin | client/src/containers/Bets/NewBet.js:27-38 | the submitted odds times the maximum win equal the stake |
| NewBet.EvenOdds | client/src/containers/Bets/NewBet.js:27-29 | even odds win exactly the stake |
| NewBet.MaxWinIncreasing | client/src/containers/Bets/NewBet.js:27-29 | for fixed odds a larger stake gives a larger maximum win |
| NewBet.EligibleChoices | client/src/containers/Bets/NewBet.js:190-191 | every user but the session user is offered, and the session user never is |
| BetTable.AcceptButtonFor | client/src/containers/Bets/BetTable.js:14-37 | exactly one of "Your Bet" (the proposer), "Accept Bet" (an eligible non-proposer) and "Not Eligible" (anyone else), and only "Accept Bet" is enabled |
| BetTable.ProposerCannotAccept | client/src/containers/Bets/BetTable.js:17-27 | the proposer gets a disabled "Your Bet" even when listed as eligible |
| BetTable.Columns | client/src/containers/Bets/BetTable.js:39-112 | a read-only table has no action column; otherwise exactly one, between the eligible users and won |
| BetTable.WonClick | client/src/containers/Bets/BetTable.js:96-104 | only an admin click sends an update, and it carries the negated flag, so an unresolved bet becomes won |
| BetTable.WonLabel | client/src/containers/Bets/BetTable.js:94-107 | "Won" and green exactly when won is truthy, so an unresolved bet shows "Lost" |
| BetTable.WonClickTwice | client/src/containers/Bets/BetTable.js:96-104 | two admin clicks return a resolved bet to its flag and an unresolved one to lost |
| Home.FoldIsSum | client/src/containers/Home/index.jsx:17-19 | the left fold of the deltas equals the start value plus their sum |
| Home.Balance | client/src/containers/Home/index.jsx:17-20 | the balance is 100 plus the sum of the deltas, and 100 with no history |
| Home.BalanceAppend | client/src/containers/Home/index.jsx:17-20 | a new entry raises the balance by exactly its delta |
| Home.BalanceOrderFree | client/src/containers/Home/index.jsx:17-19 | reordering the history does not change the balance |
| Home.BalanceColor | client/src/containers/Home/index.jsx:39 | green exactly when the balance is strictly positive, red otherwise, including zero |
| ResetPassword.HandleSubmit | client/src/containers/ResetPassword/index.js:26-57 | mismatched passwords are reported before the length rule; a request with the URL token and the password is sent exactly when both match and are at least 6 UTF-16 code units long; loading ends false and the error is the failure's message or the fallback |
| ResetPassword.Utf16LengthBmp | client/src/containers/ResetPassword/index.js:35 | a password within the Basic Multilingual Plane has one length unit per character |
| ResetPassword.AstralPasswordAccepted | client/src/containers/ResetPassword/index.js:35-40 | three characters beyond the Basic Multilingual Plane count as length 6, so the request is sent |
| ResetPassword.ErrorIsFresh | client/src/containers/ResetPassword/index.js:28-53 | the error shown after a submit is always one this submit produced, or none |
| AdminTabs.IncludesAt | client/src/containers/Admin/index.js:22 | `includes` holds exactly when the text occurs at some position |
| AdminTabs.SelectedTab | client/src/containers/Admin/index.js:21-22 | the selected tab is a configured tab: Episodes when its path occurs, else Stars when its path occurs, else Episodes |
| AdminTabs.ChangeThenSelect | client/src/containers/Admin/index.js:21-47 | navigating to a tab's path selects that tab |
| EpisodesSlice.Reduce | client/src/store/episodesSlice.js:50-118 | pending sets loading and nothing else; each fulfilment or rejection clears loading; rejections record the message; a creation appends and leaves the current episode alone; the current-episode actions replace only the current episode; other actions change nothing |
| EpisodesSlice.ErrorNeverCleared | client/src/store/episodesSlice.js:62-116 | once an error is recorded, no run of actions clears it |
| EpisodesSlice.NoRejectionNoError | client/src/store/episodesSlice.js:52-116 | without a rejection the error stays null |
| EpisodesSlice.CreatesAppend | client/src/store/episodesSlice.js:87-90 | creating episodes one after another appends them in order |
| BetsSlice.Reduce | client/src/store/betsSlice.js:35-51 | a fetch replaces the list, a creation appends, an update puts the new bet at the first position with that id, leaves every other position alone and keeps the length, an unknown id changes nothing, other actions change nothing |
| BetsSlice.FetchShowsServerList | client/src/store/betsSlice.js:10-41 | after a fetch the store shows exactly the server's list, and after a failed fetch an empty list, whatever it held before |
| BetsSlice.UpdateReplacesOne | client/src/store/betsSlice.js:46-49 | with unique ids, an update replaces exactly the bet with that id |
| StarsSlice.Reduce | client/src/store/starsSlice.js:34-52 | a fetch replaces the list, a creation appends, an update puts the new star at the first position with that id, leaves every other position alone and keeps the length, other actions change nothing |
| StarsSlice.UpdateReplacesOne | client/src/store/starsSlice.js:45-50 | with unique ids, an update replaces exactly the star with that id |
| EventsSlice.ListsIndependent | client/src/store/eventsSlice.js:51-62 | list actions never touch the event types, and type fetches never touch the list |
| UsersSlice.NoTokenStored | client/src/store/usersSlice.js:63-67 | no run of actions ever stores a session token, because registration writes the action's absent field |
| UsersSlice.HistoryFetchedBalance | client/src/store/usersSlice.js:76-79 | after the history arrives, the home balance is 100 plus the sum of its deltas |
| RankingsSlice.LastListWins | client/src/store/rankingsSlice.js:33-38 | after any run of actions the list is the last one the server sent, or the starting list if none arrived |

## Left out

- Persistence: Mongoose and Prisma queries become operations on immutable sequences.
  - Database-side ordering is a stable sort, and the order among equal ranks is unspecified in the source.
  - Unawaited or parallel saves (the `forEach(async …)` of episode creation, `Promise.all` of bet and ranking creation) are modelled as finished in sequence. Races and partial failures are not modelled.
  - `populate` is not modelled. Records keep plain ids. Unresolved eligible users stay null entries.
- Foreign calls become parameters:
  - bcrypt's hash and compare;
  - uuid generation;
  - `new Date()`;
  - the network outcome of a client request.
- `server/models/Session.js`, `server/models/User.js` and `server/models/Ranking.js` are not part of this model. Their fields follow their use in the routes, and a new session's expiry is a parameter.
- Floating point: money and odds are `real`.
  - `parseFloat`, NaN arithmetic and `toLocaleString` are not modelled.
  - An empty stake field is `None`.
- Rendering, component state beyond the handlers above, timers and navigation side effects are out of scope, for example the redirect after a password reset and the react-dnd drag handles.
- Delta calculation and bet settlement are not implemented in the source, so they are not modelled. `server/models/UserDelta.js` is a schema only.
- The star routes, the chat and socket scaffolding, the email service, the request helper, the server bootstrap and the build configuration are not part of this model.
- `ManageStars` imports `fetchEpisodeStars`, `updateEpisodeStars` and `episodeStarsSelector` from the episode slice, which defines none of them. `ManageStars.HandleToggle` models the request the handler would dispatch. `ManageStars.SyncSelection` models the effect on whatever list the selector yields.
- EventRoutes.ParseRaw: a JSON number is taken as the integer it is. Fractional numbers, which `parseInt` truncates, and magnitudes of 10^21 or more, which JavaScript writes in exponent form before parsing, are not modelled.
- EventRoutes.ParseIntCases: the value is an exact integer. JavaScript rounds a digit run beyond 2^53 to the nearest double, and a minus sign before zero gives -0; neither is modelled.
- EventRoutes.CreateEvent: a `parseInt` that yields NaN is modelled as the lookup failing with a 500. The relational client's exact error for a NaN id is not modelled.
- UserRoutes.PatchUser: the query-string fields are text. A field that is absent is left unchanged, as the document store strips undefined keys from an update.
- RankingsPage.Move: requires the moved item to be in the list. The arrows are rendered only for listed items, and `findIndex` returning -1 is not modelled.
- BackfillRankings.Backfill: the script's console output and its catch-all error handler are not modelled.
- UserRoutes.UsersWithRankings: the report's `toObject` copy is modelled as the user record itself.
- Each route is modelled as its handler alone. The `authenticateUser` gate mounted in front of the bet routes (server/api/router/betRoutes.js:30, server/api/router/authMiddleware.js:6-18) reads a different session store, the relational one. That gate is modelled on its own as `AuthMiddleware.Authenticate` and is not composed with the handlers.
- BetRoutes.CreateBet: a body without `eligibleUsers` makes the handler throw at server/api/router/betRoutes.js:45, giving a 500. This is not modelled, because the eligible ids are always a sequence here.
- UserRoutes.CreateUser: a missing password makes `bcrypt.hash(undefined)` throw at server/api/router/userRoutes.js:21, giving a 500. This is not modelled.
- UserRoutes.Login: a body without `password` makes `bcrypt.compare(undefined, …)` reject at server/api/router/userRoutes.js:83, giving a 500. This is not modelled, because the password is always text here.
- Ids are natural numbers, so Mongoose's cast error for a malformed id is not modelled. In the source that error has these effects:
  - EpisodeRoutes.SetCurrent answers 500 instead of 404, because `findById` runs inside the try (server/api/router/episodeRoutes.js:124-125).
  - UserRoutes.UsersWithRankings throws outside any try (server/api/router/userRoutes.js:43), so Express sends no reply, even when there are no users.
  - UserRoutes.PatchUser throws outside any try (server/api/router/userRoutes.js:66-69), so Express sends no reply.
  - BetRoutes.CreateBet answers 500 for a malformed eligible id (server/api/router/betRoutes.js:46), where the model stores a null entry.
- AuthMiddleware.Authenticate: a session store lookup error (the handler's 500) is not modelled, because the lookup is a pure function here.

## Findings

| source | as written | input that shows it | evidently intended | confidence | as-written member | corrected member |
|---|---|---|---|---|---|---|
| client/src/containers/Rankings/index.js:52-54 | `postRankings(items)` passes the bare array, but the thunk (client/src/store/rankingsSlice.js:21-22) destructures `{ rankings, episodeId }` from it. The posted body therefore has no `rankings`. The route (server/api/router/rankingRoutes.js:53-56) deletes all of the user's rankings and then throws on `rankings.map`. | A signed-in user with one ranking saves the unchanged page. The reply is 500 and the user has no rankings left. | `postRankings({ rankings: items })`: the page's items are stored as the user's rankings | high, not executed | RankingsSubmit.SubmitAsWritten, with RankingsSubmit.SubmitAsWrittenWipes | RankingsSubmit.Submit, with RankingsSubmit.SubmitStores |
| server/api/router/betRoutes.js:38-43 | `session.userId` is read on the line before `if (!session)`. For a missing session the read throws and the catch answers 500, so the 401 branch is dead. | A token with no session posts a bet. The reply is 500 and no bet is stored. | test the session before reading it: a missing session is a 401 that stores nothing | high, not executed | BetRoutes.CreateBet, with BetRoutes.CreateBetNeverUnauthorized | BetRoutes.CreateBetChecked, with BetRoutes.CreateBetCheckedUnauthorized |

One more behaviour is modelled as written, without a corrected half:

- `UsersSlice.Reduce`: registration stores `action.sessionToken`, which a fulfilled action never carries. `POST /users` replies with the user alone (server/api/router/userRoutes.js:32), so there is no token that the reducer could have meant to store.
