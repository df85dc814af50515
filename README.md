# Football news: comments, session, feed and tables, modelled in Dafny

The site is an Express server plus browser scripts. This project models the
parts of it that hold logic of their own:

- **Server** (`server.dfy`, module `Server`). The comment and like store
  behind `/api/signup`, `/api/login`, the `verifyToken` bearer gate,
  `GET /api/comments/:articleId` with its per-viewer `hasLiked` flag,
  `POST /api/comments` and `POST /api/comments/:commentId/like`.
  - Users and comments are maps keyed by their ids. `posted` keeps the
    order comments were written in.
  - The `Store` class holds the collections that the route handlers
    update in place.
  - bcrypt is a symbolic hash that `ComparePassword` checks.
  - jsonwebtoken is a pair of functions handed in as a parameter. Its
    contract is the ghost predicate `Honest`: a signed payload verifies
    until its expiry instant.
- **Article page** (`article.dfy`, module `ArticlePage`).
  - The paragraph builder: a blank-line split, and otherwise greedy
    packing of sentences into chunks of at most 500 characters.
  - `getTimeAgo`.
  - The comment like button, with its `disabled` re-entrancy guard and
    the way it settles on the server's answer.
  - The comment form's guards and its count.
- **Article hand-off** (`handoff.dfy`, module `Handoff`). The
  `article_<id>` key under which the home page and the feed register an
  article, and the `currentArticle` session-storage slot that the article
  page reads once and clears.
- **Home page** (`news_home.dfy`, module `NewsHome`).
  - The session controller: the `currentUser`/`authToken` globals that
    mirror the two local-storage keys, with restore, revalidation, login
    and logout, and the comment form they lock or unlock.
  - The local like toggle.
  - Initials.
  - The five-row standings sidebar.
- **Latest feed** (`latest.dfy`, module `LatestFeed`).
  - The infinite-scroll pagination state: `currentPage`, `isLoading`,
    `hasMoreArticles`, `apiLimitReached`, `totalArticlesLoaded` and
    `allLoadedArticles`.
  - The search box: the server's results or the local fallback filter.
  - The article card's storage key and default field values.
- **Tables** (`tables.dfy`, module `Tables`).
  - The position classes of a standings row.
  - The legend texts and `selectLeague`.
  - The top-scorer and top-assist leaderboards.
  - The nationality-to-flag-code map.

Shared helpers:
- `js_string.dfy` (module `JsString`) models the JavaScript string
  built-ins the code relies on (`toLowerCase`, `trim`, `includes`,
  `split(' ')`, `replace`) and decimal ids.
- `sequences.dfy` (module `Sequences`) models `filter`, `slice` and the
  stable `Array.prototype.sort` with a descending comparator.
- `uri.dfy` (module `Uri`) models `decodeURIComponent`: escapes, UTF-8
  sequences and the `URIError` it throws.
- `optional.dfy` (module `Optional`) holds the `Option` datatype used for
  `null`/`undefined`.

Where the prose description of the system and the code disagree, the model
follows the code:

- The route checks `jwt.verify`, and the library rejects a token from its
  `exp` instant on. So a token is valid while `now < exp`, not up to and
  including `exp`.
- Mongoose's `required` validator rejects an empty string. An empty comment
  text or article id therefore reaches the catch block and answers 500
  (`server.js:246-253`, `267`), not a 400 of its own. The same goes for an
  empty signup name (`server.js:36-40`, `113-117`, `135`).
- A posted comment is answered with a plain 200, not 201 (`server.js:255-264`).
- `checkLoginStatus` assigns `authToken` from storage even when no user is
  saved (`football-news.js:12`).
- The schema's `lowercase` setter also applies to `findOne({ email })`
  queries, so signup's duplicate check and login compare lower-cased
  emails.

## Model

| member | source | states |
|---|---|---|
| Server.FindByEmail | server.js:35-54 | finds a user exactly when some stored user has the lower-cased email, and the one found has it |
| Server.SignupRejection | server.js:99-107 | a non-Gmail address (after lower-casing) is refused with 400 whatever the store holds; a Gmail address already taken is refused as a duplicate; there is no rejection exactly when the address is Gmail and free |
| Server.Login | server.js:140-172 | fails exactly when no stored user has that lower-cased email and that password; an unknown email and a wrong password give the identical 400 body; success returns the stored user without password and a token signed for that user |
| Server.IssuedClaims | server.js:122 | the payload of every token the server signs has exactly the keys `userId` and `email` |
| Server.BearerToken | server.js:176 | the token taken from the header contains no space and exists only when a header was sent |
| Server.BearerTokenOf | server.js:176 | for `Bearer <t>` with a space-free `t`, the second space-separated piece is `t` |
| Server.Authenticate | server.js:175-189 | denies with 401 exactly when the token is missing or empty or fails verification, so the handler never runs; when it admits, the user id is the verified payload's `userId` |
| Server.AuthenticateIssued | server.js:175-189 | a token the server issued at time t (signed at lines 122 and 157) is admitted with its user id exactly while now < t + 7 days, and refused with 401 "Invalid token" afterwards |
| Server.Profile | server.js:313-332 | 401 from the gate; 404 "User not found" when the token carries no user id or its user is not stored; otherwise the profile, carrying that user's name, email and creation time and no password |
| Server.Unlike | server.js:292 | removes every occurrence of the user and keeps every other id |
| Server.ToggleLike | server.js:285-298 | only `likedBy` and `likes` change; the user's membership flips and nobody else's does; unliking clamps the count at zero; liking appends the user once and adds one; a non-negative count stays non-negative |
| Server.UnlikeNoDup | server.js:292 | removing a user from a duplicate-free list keeps it duplicate-free |
| Server.UnlikeOnce | server.js:292 | removing a user who appears once takes away exactly that one occurrence |
| Server.ToggleKeepsConsistent | server.js:290-298 | if the count equals the list length and the list has no duplicates, both still hold after a toggle |
| Server.ToggleTwiceFromUnliked | server.js:290-298 | two toggles by the same user, starting from not liked, restore the comment exactly |
| Server.ToggleTwiceFromLiked | server.js:290-298 | two toggles starting from liked restore the count and the set of likers; the user ends up last in the list |
| Server.Entries | server.js:211-213 | the listed entries are stored comments with their ids, each id among those posted, and every posted comment appears |
| Server.EntriesNoDup | server.js:211-213 | when no id was posted twice, no entry is listed twice |
| Server.ArticleEntriesFacts | server.js:211-213 | the article's entries are exactly its stored comments, ordered newest first, and each comment appears once when no id was posted twice |
| Server.ArticleEntriesDistinct | server.js:211-213 | when no id was posted twice, no comment id is listed twice for an article |
| Server.Views | server.js:216-225 | one view per entry, in order, each flagged by whether the viewer is a non-empty id in its `likedBy` |
| Server.ListFor | server.js:211-225 | the listing holds every comment of the article and nothing else, each once (when no id was posted twice), newest first, each `hasLiked` exactly when the viewer is among its likers |
| Server.ListComments | server.js:192-234 | the route fails, with 500, exactly when the second `decodeURIComponent` of the path parameter throws; otherwise it lists exactly what `ListFor` lists for the decoded id: every comment of that article and no other, each once (no id is posted twice), newest first, with `hasLiked` for the viewer of the `id` claim; a missing or bad token never makes it fail |
| Server.ListingPlainId | server.js:195 | an article id without `%` is unchanged by the second decoding, so the route lists that very article |
| Server.ListingMalformedId | server.js:195 | for the article id `a%b` the second decoding throws and the route answers 500 |
| Server.ListingRenamedId | server.js:195 | for the article id `a%41` the route lists article `aA`, never a comment stored under `a%41` |
| Server.ListingAnonymous | server.js:199-225 | with no header, no Bearer prefix or a token that does not verify, no comment is flagged as liked |
| Server.ListingIgnoresIssuedTokens | server.js:199-225 | for any token this server issued, even a valid one, no comment is flagged as liked, because the listing reads the payload's `id` key, which issued tokens do not carry |
| Server.ListCommentsCorrected | server.js:192-234 | without the second decoding and with the `userId` claim, the route always lists, and lists exactly the comments of the id it was given |
| Server.CorrectedListingShowsOwnLikes | server.js:199-225 | reading `userId` instead, a valid issued token flags exactly the comments its user has liked |
| Server.NewComment | server.js:246-253 | a new comment has no likes and an empty `likedBy`, so the like invariant holds |
| Server.Store.constructor | server.js:35-89 | an empty store satisfies the store invariant |
| Server.Store.Signup | server.js:94-137 | rejections write nothing; an empty name answers 500 and writes nothing; otherwise a fresh user is stored with the lower-cased email and the hashed password, the reply carries a token for it, and a login with the same credentials gives that same reply; the store invariant (unique emails among others) is kept |
| Server.Store.PostComment | server.js:237-269 | 401 from the gate, 404 for an unknown user, 500 for an empty text or article id, each with nothing written; otherwise one new comment under a fresh id, by that user, with zero likes and appended to the posting order |
| Server.Store.LikeComment | server.js:272-310 | 401 from the gate and 404 for an unknown comment with nothing written; otherwise exactly that comment is toggled, and the reply gives its new count and whether the user now likes it; the like invariant is kept |
| ArticlePage.DropNewlines | article.js:131 | drops exactly the leading line feeds |
| ArticlePage.SplitBlank | article.js:131 | at least one piece; the first piece is a prefix of the body; no piece contains a blank line |
| ArticlePage.SplitBlankJoin | article.js:131 | splitting pieces joined by blank lines gives back exactly those pieces |
| ArticlePage.PackConcat | article.js:133-145 | the chunks, untrimmed, concatenate to exactly the sentences in order |
| ArticlePage.PackNoEmpty | article.js:136-144 | no chunk is empty |
| ArticlePage.PackBound | article.js:136-144 | each chunk is at most 500 characters or one of the given pieces |
| ArticlePage.PackChunksBounded | article.js:136-144 | each chunk is at most 500 characters or a single sentence |
| ArticlePage.PackFirst | article.js:136-144 | a chunk in progress is never shortened: the first chunk starts with it |
| ArticlePage.PackGreedy | article.js:136-144 | a chunk is closed only when the next would not fit with it: two neighbouring chunks together exceed 500 |
| ArticlePage.TrimAll | article.js:147 | each paragraph is trimmed, one for one |
| ArticlePage.TrimAllTwice | article.js:147 | trimming the paragraphs twice changes nothing |
| ArticlePage.PackSentences | article.js:133-145 | the loop over the sentences pushes exactly the greedy chunks, each trimmed, in order |
| ArticlePage.Paragraphs | article.js:131-147 | with more than one blank-line piece, the trimmed pieces in order; otherwise the trimmed greedy chunks of the sentences, or of the whole body when no sentence matched |
| ArticlePage.TimeAgo | article.js:494-513 | the bucket is years above a year, months above 30 days, days above a day, hours above an hour, minutes above a minute, else just now (negative inputs included); each count is the whole number of its units elapsed |
| ArticlePage.TimeAgoText | article.js:494-513 | the text is "Just now" exactly when at most a minute has passed |
| ArticlePage.LikeButton.constructor | article.js:455-470 | a button starts enabled with the listed count and liked state |
| ArticlePage.LikeButton.Press | article.js:516-534 | signed out: only a login prompt; while disabled: nothing; with no comment id: nothing changes; otherwise the button is disabled and the like request for its comment is sent |
| ArticlePage.LikeButton.Settle | article.js:545-570 | the button is enabled again on every exit; a like reply sets the count and liked class it carries; a failure leaves both as they were |
| ArticlePage.CommentGuard | article.js:342-352 | a comment is sent exactly when signed in with a non-blank input, and the text sent is the trimmed input; otherwise the login prompt or the empty-text notice |
| ArticlePage.CommentBox.Posted | article.js:410-422 | the new comment goes first, the input is cleared and the count shown rises by one (from 0 when it did not parse) |
| ArticlePage.CommentBox.constructor | article.js:447-450 | after loading, the list holds the comments and the count shows their number; the input is empty |
| Handoff.ArticleKey | football-news.js:633 | the key is `article_` followed by the id with every `/` replaced by `_`, so no `/` remains |
| Handoff.ArticleKeyInjective | football-news.js:633 | ids without `_` never share a key |
| Handoff.ArticleKeyCollides | football-news.js:633 | `a/b` and `a_b` share a key |
| Handoff.Take | article.js:49-76 | a stored article is returned and the slot cleared; otherwise the slot is kept and the URL data is used when it parses |
| Handoff.TakeConsumesOnce | article.js:49-76 | after one read, a second read falls back to the URL data |
| Handoff.Browser.Register | football-news.js:633-644 | registers the article under its key and changes nothing else |
| Handoff.Browser.Navigate | football-news.js:722-728 | navigates, storing the article, exactly when the key holds one; otherwise nothing changes |
| Handoff.Browser.constructor | football-news.js:633-644 | before any card is rendered, no article is registered, the session slot is empty and the page has not navigated |
| Handoff.Browser.TakeArticle | article.js:49-76 | reads and clears the slot as `Take` describes |
| NewsHome.Session.constructor | football-news.js:6-8 | no user and no token at page load, so the globals mirror storage |
| NewsHome.Session.UpdateForm | football-news.js:42-74 | the input is read-only, prompts login and the post button is disabled exactly when there is no user |
| NewsHome.Session.CheckLoginStatus | football-news.js:11-21 | the token global always takes the stored token; the user is restored and revalidation starts exactly when both keys are present; storage is unchanged |
| NewsHome.Session.Logout | football-news.js:178-185 | both globals and both storage keys are cleared together and the form is locked |
| NewsHome.Session.FinishRevalidation | football-news.js:24-39 | a refused profile request logs out; any other answer changes nothing |
| NewsHome.Session.SignedIn | football-news.js:120-125 | a successful login (and likewise signup, lines 158-163) sets both globals, writes both keys and unlocks the form; a failure changes nothing |
| NewsHome.Session.PostDecision | football-news.js:274-285 | a comment is sent exactly when there is a user, a non-empty token and a non-blank input, and it is the trimmed input; without a user or token the login is prompted; a blank input with both gets the empty-text notice |
| NewsHome.PostArticleId | football-news.js:289 | the article id is the attribute when set, else `main-article`, never empty |
| NewsHome.LocalLikeButton.constructor | football-news.js:253-256 | the button starts with the liked class and the count it shows |
| NewsHome.LocalLikeButton.Toggle | football-news.js:253-269 | the liked state flips; the count rises by one when becoming liked and falls by one otherwise |
| NewsHome.Initials | football-news.js:316 | at most two upper-case characters |
| NewsHome.Words | football-news.js:316 | the words of a name are non-empty and hold no space |
| NewsHome.FirstLettersSkipsEmpty | football-news.js:316 | an empty piece of the split (from a leading, trailing or repeated space) contributes no letter |
| NewsHome.InitialsOfName | football-news.js:316 | for every name, the initials are the upper-cased first letters of its first two non-empty words, one letter for one word and none for a blank name |
| NewsHome.InitialsOfWords | football-news.js:848 | for a name of space-separated non-empty words, the initials are the upper-cased first letters of its first one or two words |
| NewsHome.Sidebar | football-news.js:903-904 | the first five standings (or all, if fewer) in order, tagged `top` exactly when the position is at most 4 |
| LatestFeed.OrElse | src/scripts/latest.js:249-257 | a non-empty field wins, a missing or empty one gives the default |
| LatestFeed.Card | src/scripts/latest.js:248-292 | the card's storage key is the article key of its id, or of "" when it has none; title, excerpt, author and category are never empty; the body defaults to the excerpt |
| LatestFeed.Feed.constructor | src/scripts/latest.js:11-20 | page 1, nothing loaded, loading allowed |
| LatestFeed.Feed.BeginLoad | src/scripts/latest.js:317-319 | a load starts exactly when not loading, more articles remain and the rate limit was not hit; otherwise nothing changes |
| LatestFeed.Feed.FinishLoad | src/scripts/latest.js:327-390 | `isLoading` is reset on every exit; a 429 sets the limit flag and stops the feed; a non-empty batch is appended in order, counted, and sets the page, ending the feed on the last page or a short batch; an empty or unsuccessful answer ends the feed; other errors change nothing; the feed never restarts once ended |
| LatestFeed.Feed.Scroll | src/scripts/latest.js:393-404 | near the bottom, and only when a load may start, requests exactly the next page; otherwise nothing changes |
| LatestFeed.SearchQuery | src/scripts/latest.js:439 | the query is empty exactly when the input is blank |
| LatestFeed.LocalSearch | src/scripts/latest.js:485-497 | keeps exactly the loaded articles whose lower-cased fields contain the query |
| LatestFeed.LocalSearchBatches | src/scripts/latest.js:485-497 | searching the loaded articles equals searching each batch in loading order |
| LatestFeed.Search | src/scripts/latest.js:455-555 | an empty query shows every article; a successful non-empty answer shows it; an empty answer falls back to the local filter with bodies; an unreachable server falls back to the filter without bodies |
| LatestFeed.OfflineSearchNarrower | src/scripts/latest.js:520-530 | the offline filter never finds an article the online fallback would not |
| Tables.PositionClassOf | src/scripts/tables.js:265-281 | Champions League: first 8, next 16 and the rest; other leagues: the leader, places 2-4, places 5-6, then the last three, with earlier rules winning on a short table |
| Tables.RelegationIsLastThree | src/scripts/tables.js:276-281 | in a league table of nine rows or more, the relegation rows are exactly the last three |
| Tables.ShortTableNoRelegation | src/scripts/tables.js:276-281 | a league table of six rows or fewer marks no relegation |
| Tables.Legend | src/scripts/tables.js:231-247 | the texts depend only on whether the league is the Champions League |
| Tables.TablesPage.constructor | src/scripts/tables.js:9 | the page starts on the Premier League; the legend shown at load is taken to be the Premier League one, since the page never calls `updateLegend` on load and the markup that holds it is not part of this model |
| Tables.TablesPage.SelectLeague | src/scripts/tables.js:218-228 | the current league and legend follow the selection before the league is requested |
| Tables.TablesPage.RowClasses | src/scripts/tables.js:262-281 | one class per row, each from the current league, the row index and the table length |
| Tables.TopScorers | src/scripts/tables.js:324 | at most ten players, all with goals, drawn from the list; exactly the first ten players with goals (or all of them when fewer), in the order given |
| Tables.TopScorersInOrder | src/scripts/tables.js:324 | the board takes players at increasing positions of the list, only players with goals, and leaves out a player with goals only when ten earlier ones fill it |
| Tables.TopAssists | src/scripts/tables.js:403-406 | at most ten players with assists, in non-increasing order, none more often than in the list; if fewer than ten, every one with assists |
| Tables.TopAssistsAreTop | src/scripts/tables.js:403-406 | a player left out has no more assists than anyone shown |
| Tables.TopAssistsStable | src/scripts/tables.js:405 | players with equal assists keep their original order |
| Tables.TopAssistsBoardStable | src/scripts/tables.js:403-406 | on the board itself, the players with a given number of assists are the first of those players in list order |
| Tables.CountryCode | src/scripts/tables.js:481-541 | a listed nationality gets its mapped code, any other gets `null` |
| Tables.FlagUrl | src/scripts/tables.js:363-364 | empty exactly when there is no code, otherwise the flag address of the code |
| Tables.Leaderboard | src/scripts/tables.js:327-370 | one row per player in order, ranked by position plus one, with the flag of the nationality (`Unknown` when missing) |
| JsString.Lower | server.js:99 | same length, each character lower-cased |
| JsString.Trim | src/scripts/latest.js:439 | the result is a slice of the input without leading or trailing white space |
| JsString.TrimEmpty | article.js:342-352 | the trimmed text is empty exactly when the input is blank |
| JsString.TrimIdempotent | article.js:147 | trimming twice is trimming once |
| JsString.Includes | src/scripts/latest.js:492-496 | true exactly when the query occurs at some position |
| JsString.Split | server.js:176 | at least one piece, none holding the separator |
| JsString.SplitJoin | football-news.js:316 | splitting joined separator-free pieces gives them back |
| Uri.DecodeUriComponent | server.js:195 | a decoded text is never longer than the input |
| Uri.DecodePlain | server.js:195 | text without `%` decodes to itself |
| Uri.DecodeAsciiEscape | server.js:195 | an escape `%XY` of a character below 0x80 decodes to that character, and the rest decodes as on its own |
| Uri.DecodeStrayPercent | server.js:195 | `a%b` throws |
| Uri.DecodeEscapedLetter | server.js:195 | `a%41` decodes to `aA` |
| Uri.DecodeTwoByteSequence | server.js:195 | the two escapes `%C3%A9` decode to the one character U+00E9 |
| Uri.DecodeOverlong | server.js:195 | the overlong sequence `%C0%80` throws |
| Sequences.FilterMembers | src/scripts/tables.js:324 | the filter keeps exactly the elements that pass |
| Sequences.FilterIndices | src/scripts/tables.js:324 | the filter's result is the elements at exactly the passing positions, in increasing order |
| Sequences.FilterNoDup | server.js:292 | filtering a duplicate-free list keeps it duplicate-free |
| Sequences.FilterAppend | src/scripts/latest.js:344 | filtering keeps the original order across concatenation |
| Sequences.Take | src/scripts/tables.js:324 | the first n elements, or all of them |
| Sequences.SortDesc | src/scripts/tables.js:405 | sorting is a permutation |
| Sequences.PermutationNoDup | server.js:213 | a rearrangement of a duplicate-free list is duplicate-free |
| Sequences.SortDescSorted | src/scripts/tables.js:405 | the result is in non-increasing key order |
| Sequences.SortDescStable | src/scripts/tables.js:405 | equal keys keep their relative order |
| Sequences.WithKeyTake | src/scripts/tables.js:406 | the equal-key elements of a prefix are a prefix of those of the whole list |

## Left out

- The upstream proxy routes `/api/news`, `/api/article`, `/api/standings`, `/api/scorers` and `/api/fixtures*`, with their league-code maps: they are HTTP calls and JSON remapping.
- `src/scripts/fixtures.js` is not part of this model. Its session code repeats the home page's and the rest is rendering.
- bcrypt and jsonwebtoken are symbolic. A hash records its password, and token verification is a parameter whose contract is `Honest`.
- MongoDB is replaced by in-memory maps. `populate` is not modelled.
- A malformed comment id, which makes `findById` throw a cast error and answer 500, is not modelled. Any id not in the store answers 404.
- Server.ListFor: comments with equal creation times keep their posting order. The database gives no order among ties.
- Server.Store.Signup: the unique index on email is not modelled separately. Two concurrent signups for one address cannot happen in this sequential model.
- Server.Store.Signup and Server.Store.PostComment: they state only the 500 status of a validation failure, not the text of the message.
- The sentence tokenizer's regular expression is not modelled. Its matches are an input of `ArticlePage.Paragraphs`, and text after the last sentence mark is dropped only if the matches drop it.
- The `football-news.js` copies of the paragraph builder (`football-news.js:788-805`) and of `getTimeAgo` (`football-news.js:700-719`) are not modelled separately. They are identical to `article.js`'s.
- The article page's own session code (`article.js:157-217`) is not modelled separately. It differs from the home page's: `updateUIForLoggedInUser` there only unlocks the form for a user and never locks it (`article.js:186-207`); logout clears the globals and both keys and then redirects to the home page without touching the form; `addComment` there checks only `currentUser`, not the token, which `ArticlePage.CommentGuard` models (`article.js:341-345`).
- `JSON.parse` of the saved user in `checkLoginStatus` (`football-news.js:16`) is not modelled: the stored user is held as a parsed value, so a stored text that does not parse, which throws there, cannot occur. In the article hand-off, a session entry or URL data that does not parse is the `Garbled` value.
- Lengths and positions count characters (Unicode scalar values), while JavaScript counts UTF-16 code units. For text outside the Basic Multilingual Plane this shifts the 500-character limit of the paragraph packing (`article.js:137`), and `n[0]` and `substring(0, 2)` of the initials (`football-news.js:316`) can take half of a surrogate pair; neither is modelled.
- Server.Store.Signup: name, email and password are strings. A request that omits the email or the password throws in `toLowerCase` or in `bcrypt.hash` and answers 500 (`server.js:99`, `109`); that path is not modelled.
- Date parsing and locale formatting: elapsed seconds and date texts are inputs.
- DOM templating, notifications, modals, the mobile menu, animations and CSS classes other than those named above.
- Timers, debouncing, request timeouts and asynchronous races, for example a standings answer arriving after another league was selected. Each asynchronous handler is split into a start step and a finish step that run in sequence.
- The TheSportsDB player photo lookup: it is a network call.
- `toLowerCase` and `toUpperCase` map ASCII letters only.
- NewsHome.LocalLikeButton.Toggle: the count is an integer. The `NaN` that `parseInt` yields for a count that does not parse is not modelled.
- Tables.CountryCode: it looks up the map's own entries only. Inherited object keys such as `constructor` are not modelled.

## Findings

| source | as written | input that shows it | evidently intended | confidence | as-written member | corrected member |
|---|---|---|---|---|---|---|
| server.js:195 | the comment listing runs `decodeURIComponent` on a path parameter that Express has already decoded | the page asks for article `a%b` (sent as `a%25b`, which Express turns into `a%b`): the route answers 500; for `a%41` it lists article `aA` | use `req.params.articleId` as Express gives it | medium; not executed | Server.ListingRenamedId | Server.ListCommentsCorrected |
| server.js:205 | the comment listing takes the viewer from `decoded.id` | any valid token from `/api/login` or `/api/signup`, whose payload is `{ userId, email }`: every comment is listed with `hasLiked` false, even those the user liked | read `decoded.userId`, the key the server signs (server.js:122, 157) | high; not executed | Server.ListingIgnoresIssuedTokens | Server.CorrectedListingShowsOwnLikes |
