# Meme hub domain model

This project models the client-side domain layer of a small meme-sharing web
application (React and TypeScript). The model covers:

- the **meme store**: a collection of memes with votes, comments and tags, plus the active feed tab;
- the **mock authentication store**: the signed-in user and the copy kept in local storage;
- the **home page feed**: tabs, ranking and "Load More" paging;
- the **profile page statistics**;
- the **three-step meme-creation wizard**.

Each part listed above is modelled in Dafny and its contracts are proved.

Modules follow the source files:

| module | file | models |
|---|---|---|
| `Wrappers` | `wrappers.dfy` | `Option` and `Result` |
| `JsString` | `js_string.dfy` | the JavaScript string operations the core uses: `trim`, `toLowerCase`, `startsWith`, `split('@')[0]` |
| `Sorting` | `sorting.dfy` | `Array.prototype.sort`, which is stable since ES2019, with a descending comparator on an integer key |
| `AuthContext` | `auth_context.dfy` | `src/contexts/AuthContext.tsx`, as the class `AuthStore` |
| `MemeContext` | `meme_context.dfy` | `src/contexts/MemeContext.tsx`: the pure operations on memes, plus the class `MemeStore` |
| `HomePage` | `home_page.dfy` | `src/pages/HomePage.tsx`: feed ranking, plus the class `HomePageState` |
| `ProfilePage` | `profile_page.dfy` | `src/pages/ProfilePage.tsx`: the profile statistics |
| `CreateMemePage` | `create_meme_page.dfy` | `src/pages/CreateMemePage.tsx`, as the class `CreateMemeWizard` |

## How the model departs from the source

**State and values.** React state that the handlers replace (`useState` pairs) becomes class fields. The handlers become methods with `modifies` clauses. Pure derivations become functions, and the properties the application relies on become lemmas.

**Parameters.** Some inputs become plain parameters:

- the current time;
- fresh ids (`Date.now().toString()` in the source);
- the signed-in user, which the meme store reads from the authentication context;
- the object URL made for an uploaded file.

**Timestamps.** Timestamps are integers in milliseconds. The seed memes' dates are taken at midnight UTC.

**The vote field.** `userVote` has four states:

| source value | model |
|---|---|
| `undefined` | `Unset` |
| `null` | `NoVote` |
| `'up'` / `'down'` | `Voted(d)` |

The source compares with `meme.userVote !== null`, and `undefined !== null`. So the first vote on a meme whose vote was never set takes the "switch" branch, and that branch takes one off the opposite counter. This holds for every seeded meme and every new meme, so counters can become negative (`FirstVoteCanGoNegative`).

**The model follows the code as written; in particular:**

- **Vote toggle.** Voting twice in the same direction restores a meme only from a cleared vote or from a vote in that direction (`VoteTwiceRestores`). From `Unset` it drifts (`VoteTwiceFromUnsetDrifts`).
- **Comment length.** The store accepts an empty or all-blank comment; only the forms refuse it, by a trim check (`CommentFormAccepts`). The store refuses only comments over 140 characters, and exactly 140 is accepted.
- **Creating a meme.** `createMeme` checks only that a user is present, not the `isAuthenticated` flag.
- **Flagging.** `flagMeme` does no length check. The 5 to 200 character bound is applied only by the flag forms (`FlagFormAccepts`).
- **Ranking ties.** Ties in the ranked tabs keep store order, which follows from the stable sort; they are not broken by creation time.
- **Ids.** Nothing keeps ids unique. `UpdateWhere` edits every meme with the id, and lookups return the first one.
- **Load More.** `hasMoreToLoad` compares with the whole collection rather than with the tab's list, so it can offer "Load More" on a tab that is already fully shown (`LoadMoreOfferedOnFullTab`). When it is false, nothing is hidden (`NoMoreToLoadShowsAll`).

## Model

| member | source | states |
|---|---|---|
| `JsString.Trim` | src/pages/CreateMemePage.tsx:119-123 | the result is the slice of the input that starts after its leading whitespace and is followed only by whitespace; it is empty exactly when the input is all whitespace, and otherwise neither starts nor ends with whitespace |
| `JsString.LowerChar` | src/pages/CreateMemePage.tsx:122-123 | a capital A-Z maps to the letter 32 code points above it, the result is never a capital, and every other character is unchanged |
| `JsString.ToLower` | src/pages/CreateMemePage.tsx:122-123 | lower-casing keeps the length and maps each character on its own, capitals to lower case and every other character unchanged |
| `JsString.StartsWith` | src/pages/CreateMemePage.tsx:91 | the character-by-character comparison is true exactly when the prefix is the first characters of the string |
| `JsString.ToLowerOfLower` | src/pages/CreateMemePage.tsx:122-123 | lower-casing is idempotent |
| `JsString.NormalizedIsCanonical` | src/pages/CreateMemePage.tsx:122-123 | a trimmed, lower-cased tag is already trimmed and lower-cased, and it is empty exactly when the trimmed input is |
| `JsString.BeforeFirst` | src/contexts/AuthContext.tsx:45 | `split(sep)[0]` is the longest prefix without the separator, and the separator follows it when it is shorter than the string |
| `Sorting.Insert` | src/pages/HomePage.tsx:26-45 | inserting into a descending list keeps it descending and adds exactly that element |
| `Sorting.SortDesc` | src/pages/HomePage.tsx:26-45 | the sort result is descending by the key and a permutation of the input |
| `Sorting.SortDescStable` | src/pages/HomePage.tsx:26-45 | elements with equal keys keep their input order (stability of `Array.prototype.sort`) |
| `Sorting.SortDescUnique` | src/pages/HomePage.tsx:26-45 | any stable, descending permutation is the sort result, so the comparator fixes the output completely |
| `Sorting.InsertStable` | src/pages/HomePage.tsx:26-45 | one insertion keeps each key class in order, with the new element first in its class |
| `Sorting.SortedSameClassesEqual` | src/pages/HomePage.tsx:26-45 | two descending lists with the same elements per key, in the same order, are equal |
| `Sorting.FirstIsMax` | src/contexts/MemeContext.tsx:171-173 | the head of a descending list has the largest key |
| `AuthContext.MockUser` | src/contexts/AuthContext.tsx:43-48 | the mock user has id "123" and the given email; its username is the part of the email before the first '@'; its avatar is the avatar service URL seeded with the email |
| `AuthContext.MockUserExample` | src/contexts/AuthContext.tsx:45 | "dev@example.com" gives "dev" and an address without '@' is kept whole |
| `AuthContext.AuthStore.constructor` | src/contexts/AuthContext.tsx:34-35 | a new provider is signed out; the storage slot keeps what an earlier session left |
| `AuthContext.AuthStore.RestoreSession` | src/contexts/AuthContext.tsx:76-82 | a stored user is installed and marks the session authenticated; an empty slot changes nothing |
| `AuthContext.AuthStore.Login` | src/contexts/AuthContext.tsx:38-56 | any credentials sign in the mock user for the email, and the user is persisted |
| `AuthContext.AuthStore.Register` | src/contexts/AuthContext.tsx:59-67 | registration changes no state |
| `AuthContext.AuthStore.Logout` | src/contexts/AuthContext.tsx:69-73 | the user, the flag and the stored copy are all cleared |
| `AuthContext.LogoutThenReload` | src/contexts/AuthContext.tsx:69-82 | after logout, a reload restores no session |
| `AuthContext.LoginThenReload` | src/contexts/AuthContext.tsx:38-82 | after login, a reload restores the same user, authenticated |
| `MemeContext.ApplyVote` | src/contexts/MemeContext.tsx:216-245 | the vote toggle: repeating the vote retracts it; from a cleared vote one is added; otherwise (including an unset vote) the vote moves and the opposite counter loses one. Only the counters and the vote change, and the score moves by ±1 or ±2 |
| `MemeContext.VoteTwiceRestores` | src/contexts/MemeContext.tsx:216-245 | from a cleared vote or the same vote, two identical votes restore the meme |
| `MemeContext.VoteTwiceFromUnsetDrifts` | src/contexts/MemeContext.tsx:216-245 | from an unset vote, two identical votes leave the opposite counter one lower and the vote cleared |
| `MemeContext.FirstVoteCanGoNegative` | src/contexts/MemeContext.tsx:228-235 | a first vote on an unset meme with a zero opposite counter makes that counter -1 |
| `MemeContext.ApplyEdit` | src/contexts/MemeContext.tsx:272-282 | an edit keeps id, creator, creation time and featured flag; a comment edit appends exactly that comment and changes nothing else |
| `MemeContext.UpdateWhere` | src/contexts/MemeContext.tsx:216-245 | the map by id keeps length and ids, edits exactly the memes with the id and leaves the others equal |
| `MemeContext.UpdateUnknownIdChangesNothing` | src/contexts/MemeContext.tsx:272-282 | an update for an id no meme has leaves the collection unchanged |
| `MemeContext.Filter` | src/contexts/MemeContext.tsx:297-299 | the filter keeps exactly the matching memes and is no longer than its input |
| `MemeContext.FilterCounts` | src/contexts/MemeContext.tsx:297-299 | each matching meme keeps its multiplicity, and non-matching memes have none |
| `MemeContext.FilterAppend` | src/contexts/MemeContext.tsx:297-299 | the filter distributes over concatenation |
| `MemeContext.Find` | src/contexts/MemeContext.tsx:301-303 | find returns the first matching meme, and none exactly when nothing matches |
| `MemeContext.FindIsFirstOfFilter` | src/contexts/MemeContext.tsx:297-303 | find is the head of the filter |
| `MemeContext.FilterUpdateCommute` | src/contexts/MemeContext.tsx:272-299 | edits never change what a query matches, so filtering after an update by id equals updating after filtering |
| `MemeContext.MemeOfTheDay` | src/contexts/MemeContext.tsx:168 | the meme of the day is the first featured meme of the collection, and there is none exactly when no meme is featured |
| `MemeContext.GetUserMemes` | src/contexts/MemeContext.tsx:297-299 | the user's memes are exactly the memes the user created |
| `MemeContext.GetMemeById` | src/contexts/MemeContext.tsx:301-303 | the lookup returns the first meme with the id, and none exactly when no meme has it |
| `MemeContext.FeaturedMemes` | src/contexts/MemeContext.tsx:171-173 | the featured list has min(3, n) memes, is sorted by score, and is drawn from the collection |
| `MemeContext.FeaturedAreTop` | src/contexts/MemeContext.tsx:171-173 | no meme left out of the featured list scores above the last featured one |
| `MemeContext.NewMeme` | src/contexts/MemeContext.tsx:185-200 | a new meme has the given id, creator and time, no votes, no comments, an unset vote, and is not featured; a missing image or missing tags default to empty |
| `MemeContext.NewComment` | src/contexts/MemeContext.tsx:261-270 | a new comment carries the given id, the text as given, the current time, and the commenting user's id, name and avatar |
| `MemeContext.CreatedMemeVisible` | src/contexts/MemeContext.tsx:202 | a prepended meme is found by its id and heads its creator's list |
| `MemeContext.SeedFacts` | src/contexts/MemeContext.tsx:62-155 | five seed memes, none with a vote set; the first is the meme of the day |
| `MemeContext.MemeStore.constructor` | src/contexts/MemeContext.tsx:162-164 | the store starts with the seed memes on the "new" tab |
| `MemeContext.MemeStore.SetActiveTab` | src/contexts/MemeContext.tsx:164 | setting the tab leaves the memes unchanged |
| `MemeContext.MemeStore.CreateMeme` | src/contexts/MemeContext.tsx:175-206 | without a user it fails and changes nothing; otherwise the new meme is prepended and returned |
| `MemeContext.MemeStore.VoteMeme` | src/contexts/MemeContext.tsx:208-248 | signed out, it gives a toast and changes nothing; otherwise the vote toggle is applied to the memes with the id |
| `MemeContext.MemeStore.AddComment` | src/contexts/MemeContext.tsx:250-285 | signed out or without a user, it is refused; over 140 characters, it is refused; otherwise the comment is appended to the memes with the id |
| `MemeContext.MemeStore.FlagMeme` | src/contexts/MemeContext.tsx:287-295 | flagging changes nothing, and it is acknowledged exactly when signed in |
| `MemeContext.CommentFormAccepts` | src/components/memes/MemeCard.tsx:47 | the comment forms accept a text exactly when it has a character that is not whitespace |
| `MemeContext.BlankFlagReasonAccepted` | src/components/memes/MemeCard.tsx:59 | the flag forms count characters without trimming, so a reason of five spaces passes where the same text as a comment is refused |
| `MemeContext.AcceptedCommentBounds` | src/components/memes/MemeCard.tsx:47 | a comment that passes the form's trim check and the store's limit has 1 to 140 characters, at least one of them not whitespace |
| `HomePage.Ranked` | src/pages/HomePage.tsx:18-48 | "new" is all memes newest first; "top-day" and "top-week" are the memes of the last day or week by score; "top-all" is all memes by score; any other tab keeps store order |
| `HomePage.FilteredMemes` | src/pages/HomePage.tsx:18-51 | the shown list is the first `visible` memes of the tab's list, all of them when fewer |
| `HomePage.RankedKeepsTies` | src/pages/HomePage.tsx:26-45 | within one score (or one creation time), the tab keeps store order |
| `HomePage.CreatedMemeHeadsNewTab` | src/pages/HomePage.tsx:26-29 | a just-created meme heads the "new" tab when no meme is newer |
| `HomePage.LoadMoreOfferedOnFullTab` | src/pages/HomePage.tsx:50-53 | seven memes older than a day give an empty "top-day" list that is fully shown, while the first page of six is still smaller than the collection |
| `HomePage.NoMoreToLoadShowsAll` | src/pages/HomePage.tsx:50-53 | when "Load More" is not offered, the whole tab's list is shown |
| `HomePage.HomePageState.constructor` | src/pages/HomePage.tsx:10 | six memes are visible at first |
| `HomePage.HomePageState.LoadMore` | src/pages/HomePage.tsx:12-15 | each "Load More" adds six, keeping a whole number of pages |
| `HomePage.HomePageState.ChangeTab` | src/pages/HomePage.tsx:63-66 | a tab change sets the store's tab and goes back to six |
| `ProfilePage.Total` | src/pages/ProfilePage.tsx:31-33 | the sum is 0 on no memes; a comment sum is never negative |
| `ProfilePage.TotalAppend` | src/pages/ProfilePage.tsx:31-33 | the sum over a concatenation is the sum of the sums |
| `ProfilePage.ProfileView` | src/pages/ProfilePage.tsx:23-33 | nothing is shown unless signed in with a user; otherwise the page shows the user's memes in store order, each as often as the store has it (`GetUserMemes`), and the three sums over them |
| `ProfilePage.CreatingKeepsTotals` | src/pages/ProfilePage.tsx:28-57 | creating a meme raises the count by one and leaves the three sums unchanged |
| `ProfilePage.CommentRaisesTotal` | src/pages/ProfilePage.tsx:33 | commenting on an id raises the comment sum by the number of memes with that id |
| `ProfilePage.CommentShowsInProfile` | src/pages/ProfilePage.tsx:28-33 | a comment on one of the user's memes shows in the user's comment sum |
| `CreateMemePage.CheckUpload` | src/pages/CreateMemePage.tsx:80-94 | no file, over 2 MiB, not an image type, or accepted; size is checked before type, and exactly 2 MiB passes |
| `CreateMemePage.NormalizeTag` | src/pages/CreateMemePage.tsx:119-123 | the tag is the trimmed input with each character lower-cased; a non-blank input gives a non-empty tag with no whitespace at either end and no capital, and only blank input gives the empty string |
| `CreateMemePage.TagIsNormalized` | src/pages/CreateMemePage.tsx:122-123 | a stored tag is left as it is by trimming, lower-casing and normalising |
| `CreateMemePage.Without` | src/pages/CreateMemePage.tsx:129-131 | removing a tag drops every copy of it and keeps the others |
| `CreateMemePage.WithoutAppend` | src/pages/CreateMemePage.tsx:129-131 | removal distributes over concatenation, so order is kept |
| `CreateMemePage.WithoutKeepsCanonical` | src/pages/CreateMemePage.tsx:129-131 | removal keeps the tag list duplicate-free and canonical |
| `CreateMemePage.AppendKeepsCanonical` | src/pages/CreateMemePage.tsx:121-123 | appending an absent tag keeps the list duplicate-free and canonical |
| `CreateMemePage.CreateMemeWizard.constructor` | src/pages/CreateMemePage.tsx:55-65 | the wizard starts on step 1 with no image, no text and no tags |
| `CreateMemePage.CreateMemeWizard.SelectImage` | src/pages/CreateMemePage.tsx:76-78 | picking a template selects it |
| `CreateMemePage.CreateMemeWizard.SetTopText` | src/pages/CreateMemePage.tsx:298 | the top caption is replaced |
| `CreateMemePage.CreateMemeWizard.SetBottomText` | src/pages/CreateMemePage.tsx:309 | the bottom caption is replaced |
| `CreateMemePage.CreateMemeWizard.SetTagInput` | src/pages/CreateMemePage.tsx:411 | the tag input is replaced |
| `CreateMemePage.CreateMemeWizard.FileUpload` | src/pages/CreateMemePage.tsx:80-103 | an accepted file becomes both the uploaded and the selected image; a refused or missing file changes nothing |
| `CreateMemePage.CreateMemeWizard.NextStep` | src/pages/CreateMemePage.tsx:105-112 | the step advances by one unless it is step 1 with no image |
| `CreateMemePage.CreateMemeWizard.PrevStep` | src/pages/CreateMemePage.tsx:114-116 | the step goes back by one |
| `CreateMemePage.CreateMemeWizard.AddTag` | src/pages/CreateMemePage.tsx:118-127 | Enter with a non-blank input appends the normalised tag and clears the input, unless that tag is present; the tag list stays canonical |
| `CreateMemePage.CreateMemeWizard.RemoveTag` | src/pages/CreateMemePage.tsx:129-131 | the tag is removed, and the list stays canonical |
| `CreateMemePage.CreateMemeWizard.Submit` | src/pages/CreateMemePage.tsx:133-158 | without an image nothing is sent; otherwise image, captions and tags reach the store unchanged, and the new meme heads the store, or the submission fails without a user; the store's active tab is kept; a created meme never has an empty image URL |

## Left out

- **Rendering.** JSX, styling, icons and the option tables for fonts and templates are not modelled. The font, size and colour choices of the wizard are presentation only.
- **Routing and navigation.** These are not modelled, and neither are the redirects of the profile and creation pages when signed out. The profile view returns no profile in that case.
- **Timers and flags.** The one-second `setTimeout` delays, `async`/`await`, and the `isLoading` and `isSubmitting` flags are left out. Each operation is one atomic step, and no interleaving of concurrent calls is modelled.
- **Local storage.** It is one `Option<User>` slot, and JSON serialisation is not modelled. The model does not capture an unparsable stored value, or the stored string `"null"`: `JSON.parse` would yield `null` while the flag is still set.
- **Clock, ids and object URLs.** The clock, `Date.now()` ids and `URL.createObjectURL` are parameters. Revoking object URLs is not modelled.
- **Comment times.** The seed comment's creation time is taken as 10:30 UTC; the source parses it in local time.
- **Unicode.** `JsString.Trim` recognises ASCII whitespace, U+00A0 and U+FEFF. Other Unicode space characters are not modelled.
- **Lower-casing.** `JsString.ToLower` maps only ASCII capitals; other cased letters are not modelled.
- **String length.** Lengths are counted in characters rather than UTF-16 code units.
- **Toasts.** These are modelled as the returned `Notice` or `UploadCheck` value, not as display effects.
- **Pages without state.** The meme card, the details page, the header, the auth modal and the grid are not modelled. Only the comment and flag checks they make before calling the store are kept (`CommentFormAccepts`, `FlagFormAccepts`).
- **Wizard rendering and redirects.** Step 3's preview is not modelled. Neither is the wizard's redirect when signed out, or its navigation after submit. Whether a user is present is checked by the store.
- HomePage.HomePageState.HasMoreToLoad: stated as a plain function with no contract of its own. What it implies is stated by `NoMoreToLoadShowsAll` and `LoadMoreOfferedOnFullTab`.
- CreateMemePage.HasImage: a plain definition with no contract of its own: JavaScript truthiness of a `string | null` image (`null` and `""` are falsy). What it decides is stated by the contracts of `NextStep` and `Submit`.
- MemeContext.FlagFormAccepts: a plain definition with no contract of its own: the form library's bounds of 5 to 200 characters. `BlankFlagReasonAccepted` states a consequence.
- AuthContext.AuthStore.RestoreSession: any value in the slot is restored as it is stored; the model does not capture the case where the stored text is not a user.
