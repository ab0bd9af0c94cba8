# StoryVerse server rules in Dafny

StoryVerse is a collaborative storytelling web application. Users write stories, append
contributions to any story, like stories and contributions, and page through the story list.
Admins promote, demote, ban, unban and delete users, and list and delete stories. This project
models the server-side rules of those operations and proves what they guarantee:

- `server/routes/stories.js`:
  - the pagination block of `GET /stories` and `GET /stories/user/mystories`;
  - creating, reading, updating and deleting a story;
  - contributing to a story and deleting a contribution;
  - liking a story or a contribution.
- `server/routes/admin.js`: the admin routes, each behind the admin gate; the six routes with an
  `:id` then pass the `isMongoId` id guard.
- `server/middleware/isAdmin.js`: the admin gate.

Files and modules:

| file | module | what it holds |
|---|---|---|
| `common.dfy` | `Common` | id types; `Option`; the `Outcome` of a request, which is `Ok(value)` or `Err(BadRequest \| Forbidden \| NotFound)` |
| `sequences.dfy` | `Sequences` | `indexOf`/`findIndex` (`IndexOf`), `splice(i, 1)` (`RemoveAt`), and "no duplicates" |
| `likes.dfy` | `Likes` | the like toggle that both like routes use, and its properties |
| `pagination.dfy` | `Pagination` | JavaScript `parseInt`, `\|\| default`, `Math.ceil`, the `pagination` object, and its properties |
| `stories.dfy` | `Stories` | `Story` and `Contribution` records; the contribution ledger; the class `StoryCollection`, which holds the story table and one method per story route except the two listings |
| `users.dfy` | `Users` | the `User` record and the class `UserCollection`, which holds the user table |
| `is_admin.dfy` | `AdminGate` | the gate of `isAdmin.js` |
| `admin.dfy` | `Admin` | the `isMongoId` guard and one method per admin route |
| `scenarios.dfy` | `Scenarios` | request sequences proved from the handlers' contracts alone |

The route handlers change state. They load a document, check it, edit it in place and save it.
So they are methods of the two table classes, or methods that modify them. Each handler's
`ensures` gives the answer and the whole new table for every branch: not found, forbidden, bad
request and success. The pure parts are functions, and lemmas prove their properties. Those parts
are the like toggle, the ledger operations, the pagination arithmetic, the gate and the id guard.

Four behaviours of the code are worth knowing, and the model keeps them:

- A second like by a user who had already liked does not restore the like array. It puts the user
  at the end (`ToggleTwiceFromPresent`, `ToggleTwiceReorders`).
- `DELETE /admin/users/:id` deletes any existing user, including the requester and other admins
  (`SelfDeletionAllowed`).
- `page` and `limit` are not clamped. Every non-zero integer is kept, negative ones included
  (`PageParamKeepsNonZero`, `NegativeLimitHasNoNextPage`).
- Contribution content is not validated, so `Contribute` accepts any string.

## Model

| member | source | states |
|---|---|---|
| `Sequences.IndexOf` | server/routes/stories.js:266 | returns -1 exactly when the element is absent; otherwise returns the index of its first occurrence |
| `Sequences.RemoveAt` | server/routes/stories.js:269 | `splice(i, 1)` removes one element: the length drops by one, elements before `i` keep their place, elements after it move down by one, and the multiset loses one copy of the removed element |
| `Likes.Toggle` | server/routes/stories.js:266-275 | if the user has liked, the array is one shorter and holds one copy of the user fewer; otherwise it is one longer and holds one copy more |
| `Likes.ToggleAbsent` | server/routes/stories.js:271-274 | a user who has not liked is appended at the end |
| `Likes.TogglePresent` | server/routes/stories.js:266-270 | a user who has liked loses exactly the first occurrence, and the other entries keep their order |
| `Likes.ToggleTwiceFromAbsent` | server/routes/stories.js:266-275 | like then unlike gives back exactly the original array |
| `Likes.ToggleTwiceFromPresent` | server/routes/stories.js:266-275 | on an array without duplicates, unlike then like restores the multiset of likers but puts the user last |
| `Likes.ToggleTwiceReorders` | server/routes/stories.js:266-275 | a concrete case: toggling "a" twice on `["a","b"]` gives `["b","a"]` |
| `Likes.ToggleKeepsNoDuplicates` | server/routes/stories.js:266-275 | the toggle keeps a like array free of duplicates, and afterwards the user is present exactly when they were absent before |
| `Pagination.ParseIntNaN` | server/routes/stories.js:17 | `parseInt` gives NaN exactly when no decimal digit follows the leading white space and sign, or when a `0x` prefix has no hex digit after it |
| `Pagination.LeadingDigits` | server/routes/stories.js:17 | `parseInt` reads the longest prefix made of digits of the radix |
| `Pagination.UndefinedIsNaN` | server/routes/stories.js:17 | an absent query parameter (`undefined`) parses to NaN |
| `Pagination.ParseDecimal` | server/routes/stories.js:17-18 | `parseInt` reads back the decimal notation of every integer, negative ones included |
| `Pagination.OrDefault` | server/routes/stories.js:17-18 | `\|\| d` gives either the default or the parsed number, and the parsed number only when it is not 0; a non-zero default gives a non-zero result |
| `Pagination.PageParam` | server/routes/stories.js:17 | `page` is never 0; it is 1 exactly when the parameter parses to NaN, 0 or 1 |
| `Pagination.LimitParam` | server/routes/stories.js:18 | `limit` is never 0; it is 10 exactly when the parameter parses to NaN, 0 or 10 |
| `Pagination.PageParamKeepsNonZero` | server/routes/stories.js:69-70 | every non-zero integer a client passes is kept as `page` and as `limit`, negative ones included |
| `Pagination.AbsentParamsDefault` | server/routes/stories.js:69-70 | an absent parameter, and any string in which no decimal digit follows the leading white space and sign, parse to NaN and give page 1 and limit 10 |
| `Pagination.ZeroParamsDefault` | server/routes/stories.js:69-70 | the parameter "0" gives page 1 and limit 10 |
| `Pagination.CeilDiv` | server/routes/stories.js:30 | `Math.ceil(a / b)` is the least integer not below the quotient, for either sign of `b` |
| `Pagination.Paginate` | server/routes/stories.js:30-41 | echoes `page` and the total; with a positive limit, `totalPages` is the fewest pages of `limit` stories that hold the total |
| `Pagination.NegativeSkip` | server/routes/stories.js:19 | for a page that is not 0, the skip is negative exactly when the page is -1 or less with a positive limit, or 2 or more with a negative limit |
| `Pagination.PaginationOf` | server/routes/stories.js:17-40 | from the raw query: the page is the parsed one and never 0, and the total is echoed; with a positive limit, there is a next page exactly when stories remain after the page, a previous page exactly when the page skips stories, and no pages exactly when there are no stories |
| `Pagination.HasNextPageIffMoreStories` | server/routes/stories.js:19-39 | with a positive limit, `hasNextPage` holds exactly when stories remain after `skip + limit` |
| `Pagination.EveryStoryOnAPage` | server/routes/stories.js:19-30 | with a positive limit, every story position lies in the `[skip, skip + limit)` window of a page between 1 and `totalPages` |
| `Pagination.OnlyOnePageHoldsAStory` | server/routes/stories.js:19-30 | with a positive limit, the only page whose window holds a story position is the one `EveryStoryOnAPage` names |
| `Pagination.HasPrevPageIffSkipped` | server/routes/stories.js:19-40 | with a positive limit, `hasPrevPage` holds exactly when the skip is positive |
| `Pagination.NoPagesIffNoStories` | server/routes/stories.js:30 | with a positive limit, `totalPages` is 0 exactly when there are no stories |
| `Pagination.NegativeLimitHasNoNextPage` | server/routes/stories.js:83-91 | with a negative limit, `totalPages` is at most 0, so page 1 has no next page; every page from 2 on has a negative skip, so its query fails |
| `Pagination.TwentyFiveStories` | server/routes/stories.js:69-92 | 25 stories with limit 10: page 1 gives 3 pages, a next page and no previous one; page 3 gives a previous page and no next one |
| `Stories.FindContribution` | server/routes/stories.js:228-230 | returns -1 exactly when no contribution has the id; otherwise returns the index of the first one that has it |
| `Stories.ContributeThenDeleteRestores` | server/routes/stories.js:201-243 | deleting the contribution just appended finds it at the end and gives back the ledger as it was |
| `Stories.DeleteRemovesContribution` | server/routes/stories.js:228-243 | with unique ids, a deleted contribution cannot be found again, and the ids stay unique |
| `Stories.Edited` | server/routes/stories.js:141-143 | a provided title or content replaces the old one, and a missing one keeps it; id, author, likes, contributions and `createdAt` never change |
| `Stories.EditIdempotent` | server/routes/stories.js:141-143 | repeating an update changes nothing more |
| `Stories.InsertNewestFirst` | server/routes/admin.js:163-165 | inserting a story adds exactly that story to the list's multiset |
| `Stories.InsertKeepsNewestFirst` | server/routes/admin.js:165 | inserting into a newest-first list keeps it newest first |
| `Stories.StoryCollection.Create` | server/routes/stories.js:52-59 | the new story has the requester as author, no likes and no contributions, and it is stored under its fresh id |
| `Stories.StoryCollection.Get` | server/routes/stories.js:103-111 | returns the stored story, or NotFound |
| `Stories.StoryCollection.FindByIdAndDelete` | server/routes/stories.js:176 | removes the story if it exists and returns it |
| `Stories.StoryCollection.Update` | server/routes/stories.js:125-147 | NotFound if the story is missing; Forbidden with the table unchanged if the requester is not the author; otherwise stores and returns `Edited` |
| `Stories.StoryCollection.Delete` | server/routes/stories.js:161-178 | NotFound if missing; Forbidden with the table unchanged if the requester is not the author; otherwise removes exactly that story |
| `Stories.StoryCollection.Contribute` | server/routes/stories.js:193-208 | NotFound if missing; otherwise appends exactly one contribution by the requester, with any content and no likes, and changes nothing else |
| `Stories.StoryCollection.DeleteContribution` | server/routes/stories.js:223-246 | NotFound for a missing story or id; Forbidden with the table unchanged if the first match is not the requester's; otherwise splices out exactly that first match |
| `Stories.StoryCollection.LikeStory` | server/routes/stories.js:259-279 | NotFound if missing; otherwise replaces only the story's likes with their `Toggle`; keeps every like array free of duplicates |
| `Stories.StoryCollection.LikeContribution` | server/routes/stories.js:289-309 | NotFound for a missing story or contribution id; otherwise toggles only the likes of the first matching contribution, and leaves the story's likes and every other contribution, in order, unchanged |
| `Stories.StoryCollection.AllNewestFirst` | server/routes/admin.js:163-165 | returns every stored story exactly once (as a multiset), newest first |
| `AdminGate.Gate` | server/middleware/isAdmin.js:6-15 | 404 exactly when the requester is not a user; 403 exactly when they are a user but not an admin; pass exactly when they are an admin |
| `AdminGate.GateLooksOnlyAtRequester` | server/middleware/isAdmin.js:6-13 | changing or removing any other user never changes the gate's answer |
| `Admin.IsMongoId` | server/routes/admin.js:33 | a string passes exactly when it has 24 characters, all hex digits except that the second may be the `x` or `h` of a `0x` or `0h` prefix |
| `Admin.NonHexIdRejected` | server/routes/admin.js:33-39 | a 24-character id with a non-hex character is refused, and so is one whose first character is `x` |
| `Admin.MongoIdAcceptsHexPrefix` | server/routes/admin.js:60 | the guard also accepts a `0x` prefix followed by 22 hex digits |
| `Admin.Authorize` | server/routes/admin.js:32-39 | the gate's 404 and 403 come before the id guard's 400, and a request passes only if both let it through |
| `Admin.ListUsers` | server/routes/admin.js:18-25 | behind the gate, returns the whole user table |
| `Admin.DeleteUser` | server/routes/admin.js:32-52 | after the gate and the guard: NotFound if the target is missing; otherwise removes exactly that user, with no check of self or role |
| `Admin.Promote` | server/routes/admin.js:59-86 | after the gate and the guard: NotFound if missing; 400 with the table unchanged if already an admin; otherwise sets only `isAdmin` to true |
| `Admin.Demote` | server/routes/admin.js:204-230 | after the gate and the guard: NotFound if missing; 400 with the table unchanged if not an admin; otherwise sets only `isAdmin` to false |
| `Admin.Ban` | server/routes/admin.js:93-120 | after the gate and the guard: NotFound if missing; 400 with the table unchanged if already banned; otherwise sets only `isBanned` to true |
| `Admin.Unban` | server/routes/admin.js:127-154 | after the gate and the guard: NotFound if missing; 400 with the table unchanged if not banned; otherwise sets only `isBanned` to false |
| `Admin.ListStories` | server/routes/admin.js:161-170 | behind the gate, returns every story exactly once, newest first |
| `Admin.DeleteStory` | server/routes/admin.js:177-197 | after the gate and the guard: NotFound if missing; otherwise removes that story whoever its author is |
| `Scenarios.LikeUnlikeDelete` | server/routes/stories.js:254-279 | U2's likes on U1's story go `[U2]` then `[]`; after U1 deletes it, reading it and liking it both answer NotFound |
| `Scenarios.OnlyTheAuthorEdits` | server/routes/stories.js:136-139 | another user's edit and delete are both Forbidden, and the story is unchanged |
| `Scenarios.LikeTwiceRestores` | server/routes/stories.js:266-275 | two likes by a user who had not liked leave the story table exactly as it was |
| `Scenarios.ContributeThenDelete` | server/routes/stories.js:201-243 | a contribution its author deletes right away leaves the story table exactly as it was |
| `Scenarios.PromoteThenDemote` | server/routes/admin.js:69-80 | promoting then demoting another user leaves the user table exactly as it was |
| `Scenarios.BanThenUnban` | server/routes/admin.js:103-114 | banning then unbanning a user leaves the user table exactly as it was |
| `Scenarios.SelfDemotionLocksOut` | server/routes/admin.js:213-224 | an admin may demote themselves, after which the gate answers 403 |
| `Scenarios.SelfDeletionAllowed` | server/routes/admin.js:42-48 | an admin may delete their own account, after which the gate answers 404 |

## Left out

- Authentication (`server/middleware/auth.js`). It verifies a signed token with a library. Each operation takes the requester's id as a given input, and the 401 and 400 answers for a missing or bad token are not modelled.
- Server errors (500). These include database failures, and Mongoose's cast error when a route of `stories.js` gets a story id that is not an ObjectId. The model looks such an id up like any other and answers NotFound. The same holds for a 24-character `0x…` id that passes `isMongoId` but is no ObjectId.
- Stories.StoryCollection.Create: the story id is the database's fresh ObjectId, a parameter required to be new. The same holds for the id of a new contribution in `Contribute`. The Story schema file is not part of this model, so its field validation is not modelled either.
- Mongoose mechanics are not modelled: `populate`, `lean`, `save`, the `updatedAt` timestamp, and the ObjectId-versus-string comparison inside `indexOf`. Ids are plain strings compared for equality.
- The page of stories that `GET /stories` and `GET /stories/user/mystories` return is left out. The database's sort, skip and limit produce it. Only the pagination object is modelled. The database's refusal of a negative skip, which answers 500, is not modelled. `NegativeSkip` states when the skip is negative: a page of -1 or less with a positive limit, or a page of 2 or more with a negative limit.
- Pagination.ParseInt: models `parseInt` on strings. A query parameter that the query parser turns into an array or an object is not modelled. Neither is the loss of precision for numbers above 2^53. `Math.ceil(total / limit)` is computed exactly on integers, not in floating point.
- Stories.StoryCollection.AllNewestFirst: the order among stories with equal `createdAt` is left open, as the database leaves it.
- The `isBanned` flag is kept on the user record as the admin routes use it. `server/models/User.js` does not declare that field, so whether a strict schema saves it is not modelled. Only the ban and unban routes read the flag. No route checks it before granting access, so a banned user keeps full access, in the model as in the code.
- Comments are not modelled. No comment route exists in the server code.
- Concurrency is not modelled. Each request is one atomic step, so lost updates between concurrent requests on the same document are out of scope.
- Console logging and the client (`client/src/**`) are not modelled. That includes the client-side guard against deleting oneself or an admin.
