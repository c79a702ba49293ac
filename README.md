# alpentoau core model

A Dafny model of the logic at the heart of the *alpentoau* web-novel site. It
covers the NestJS back end and the pure helpers of the Next.js front end.

Back end:

- **Ads.** The ad table is a map from id to ad. The model covers selection of
  active ads by type and position, the popup "trigger" query, the impression
  and click counters, and admin update and delete.
- **Reading progress.** The table holds at most one row per (reader, story).
  It is upserted after a "chapter belongs to story" check. The model covers
  the chapters-read number meant for popup ads, deletion, and the paginated
  reading history.
- **Bookmarks and comments.** Bookmarks are an idempotent set of (user, story)
  pairs. Comments may be edited or deleted only by their author.
- **Stories.** Update and removal check the author. The model covers lookup by
  slug, text search, and the page metadata of every listing.
- **Auth.** Registration refuses a taken address or name. Every login failure
  gets the same message. The model also covers the profile lookup, token
  refresh, and the JWT guard's mapping from errors to messages.
- **DTOs.** The class-validator decorators on the request bodies are given
  their meaning in the `Validation` module. Each DTO is then proved to accept
  exactly the bodies a closed-form predicate describes.

Front end:

- `slugify` from the seeding script.
- The `Pagination` component.
- The category page's filter, sort and page pipeline.
- The relative-time labels and list edits of the reading-history page.
- The locale-redirect middleware.
- The registration form.

Database tables are fields of classes. The ad table of `AdService` is a map
keyed by id, so its ids are unique by construction. The other tables are
sequences of rows (`ReadProgressService`, `BookmarkService`, `CommentService`,
`StoryService`, `AuthService`), and each of these classes keeps the table's
unique constraints as its `Valid()` invariant. Stateful front-end pages are classes whose fields are
the React state (`CategoriesPage`, `HistoryPage`, `RegisterForm.Form`).

Things the code gets from libraries or the outside world are parameters of
the model:

- bcrypt's `hash`/`compare` and the JWT signer;
- validator.js's `isEmail`/`isUrl`;
- JavaScript's `Number` parsing of text, Unicode NFD decomposition and
  `localeCompare`;
- dates and the clock (instants are integers; the reading-history page gets
  the elapsed milliseconds, or None when the date does not parse);
- the set of existing story ids and the chapter table;
- the outcome of the registration request.

Prisma failures are modelled as error values:

- `update`/`delete` on a missing key gives `MissingRecord`;
- a negative `skip` gives `InvalidQuery`;
- an unstorable date gives `InvalidInput`.

## Model

| member | source | states |
|---|---|---|
| Common.CeilDiv | backend/src/bookmarks/bookmarks.service.ts:51 | `Math.ceil(total / limit)` for a positive limit: the fewest pages of `limit` that hold `total` rows. |
| Common.Window | backend/src/bookmarks/bookmarks.service.ts:29-38 | `skip`/`take` returns at most `take` rows, exactly `min(take, max(0, n - skip))` of them, each the row at `skip + i`. |
| Common.PageOf | backend/src/comments/comments.service.ts:28-33 | Page `page` fails with a query error exactly when `page < 1` (negative skip); otherwise it holds at most `limit` rows, those from position `(page-1)*limit` on. |
| Seqs.Filter | frontend/pages/the-loai/index.tsx:57-66 | `filter` keeps exactly the elements satisfying the predicate and adds nothing (sub-multiset, no longer). |
| Seqs.FilterAppend | frontend/pages/user/lich-su.tsx:90 | Filtering distributes over concatenation, so the kept elements stay in their original order. |
| Seqs.FilterCount | frontend/pages/the-loai/index.tsx:57-66 | Filtering keeps each kept value exactly as often as the list holds it. |
| Seqs.FilterIdempotent | frontend/pages/user/lich-su.tsx:90 | Filtering twice with the same predicate equals filtering once. |
| Seqs.FilterFilter | frontend/pages/the-loai/index.tsx:57-66 | Two successive filters equal one filter by the conjunction. |
| Seqs.FilterExt | frontend/pages/the-loai/index.tsx:57-66 | Filters with pointwise-equal predicates agree. |
| Seqs.FilterAll | frontend/pages/user/lich-su.tsx:90 | A filter that every element passes leaves the list unchanged. |
| Seqs.Find | backend/src/auth/auth.service.ts:65-66 | A `findUnique`/`findFirst` lookup returns the first row in table order that matches the key, or none when no row matches. The user, comment, story and progress lookups are instances. |
| Seqs.Insert | frontend/pages/the-loai/index.tsx:67-72 | One insertion step of a stable sort: one longer, the same multiset plus the element. |
| Seqs.SortWith | frontend/pages/the-loai/index.tsx:67-72 | `sort` with a comparator returns a permutation of its input (same length, same multiset). |
| Seqs.InsertNonIncreasing | frontend/pages/the-loai/index.tsx:70 | Inserting into a list sorted by descending key keeps it sorted. |
| Seqs.SortDescNonIncreasing | frontend/pages/the-loai/index.tsx:70 | Sorting with `b.key - a.key` yields a list in non-increasing key order. |
| Seqs.SortNeverAfter | frontend/pages/the-loai/index.tsx:71 | A comparator that always returns 0 leaves the list in its original order. |
| Text.LowerChar | frontend/middleware/trans.ts:23 | `toLowerCase` on one character: ASCII capitals move by 32, no ASCII capital remains, no character moves down. |
| Text.Lower | frontend/pages/the-loai/index.tsx:58-59 | `toLowerCase` on a string: same length, lower-cased character by character. |
| Text.ReplaceChar | backend/src/stories/stories.service.ts:101 | `replace(/c/g, d)`: same length, every `c` becomes `d`, everything else is kept. |
| Text.NatToString | frontend/pages/user/lich-su.tsx:60-68 | The printed form of a count is non-empty, all digits, and has two or more digits exactly from 10 up. |
| Text.NatToStringRoundTrip | frontend/pages/user/lich-su.tsx:60-68 | Reading the printed digits back gives the number. |
| Text.IntToString | backend/src/stories/stories.service.ts:84 | `${id}` is non-empty and starts with '-' exactly for negative ids. |
| Validation.Length | backend/src/auth/dto/index.ts:12-13 | The length `MinLength`/`MaxLength` measure never exceeds the number of characters. |
| Validation.ToNumber | backend/src/stories/dto/story.dto.ts:37 | `@Type(() => Number)` keeps numbers, null and undefined, and turns anything else into a number or NaN. |
| Validation.Convert | backend/src/stories/dto/story.dto.ts:70 | Conversion changes that one property only, and keeps the body's set of properties. |
| Validation.WithDefault | backend/src/stories/dto/story.dto.ts:72 | An initializer applies only when the body lacks the property; other properties are untouched. |
| Validation.OptionalSkipsChecks | backend/src/stories/dto/story.dto.ts:28-30 | `@IsOptional` accepts null and undefined whatever the other decorators say. |
| Validation.LengthIgnoresSelectors | backend/src/auth/dto/index.ts:12-13 | Appending a presentation selector leaves the length unchanged; any other character adds one. |
| Validation.LengthPlain | backend/src/auth/dto/index.ts:12-13 | Without presentation selectors the length is the character count. |
| AuthDto.UsernameExactly | backend/src/auth/dto/index.ts:10-14 | The user name decorators accept exactly strings of 3 to 20 characters. |
| AuthDto.EmailExactly | backend/src/auth/dto/index.ts:16-18 | The e-mail decorators accept exactly non-empty strings that `isEmail` accepts. |
| AuthDto.PasswordExactly | backend/src/auth/dto/index.ts:20-23 | The registration password needs 6 or more characters with no upper bound; the login password any non-empty string. |
| AuthDto.RegisterAcceptedExactly | backend/src/auth/dto/index.ts:9-24 | A registration body is valid if and only if its user name, e-mail and password meet those bounds. |
| AuthDto.LoginAcceptedExactly | backend/src/auth/dto/index.ts:26-34 | A login body is valid if and only if the e-mail is well-formed and the password is a non-empty string. |
| AuthDto.VerifyAcceptedExactly | backend/src/auth/dto/index.ts:36-40 | A verification body is valid if and only if the token is a non-empty string. |
| AuthDto.LoginHasNoMinimum | backend/src/auth/dto/index.ts:20-33 | A one-character password passes login validation but not registration. |
| ReadProgressDto.AcceptedExactly | backend/src/read-progress/dto/index.ts:3-14 | A progress report is valid if and only if both ids are numbers and the progress is a number in [0, 100]. |
| ReadProgressDto.ProgressBoundaries | backend/src/read-progress/dto/index.ts:10-13 | 0, 100 and 37.5 pass; -0.5, 100.5, the text "50" and a textual story id are refused. |
| StoryDto.TitleExactly | backend/src/stories/dto/story.dto.ts:16-20 | A create title is a string of 3 to 200 characters; an update title may also be absent. |
| StoryDto.DescriptionExactly | backend/src/stories/dto/story.dto.ts:22-26 | A create description has 10 to 2000 characters; an update description may also be absent. |
| StoryDto.CoverImageExactly | backend/src/stories/dto/story.dto.ts:28-30 | The cover image is absent or a URL. |
| StoryDto.StatusExactly | backend/src/stories/dto/story.dto.ts:32-34 | The status is absent or one of ONGOING, COMPLETED and HIATUS. |
| StoryDto.GenreExactly | backend/src/stories/dto/story.dto.ts:36-38 | The create genre must be an integer; in an update and in a query it may also be absent. |
| StoryDto.SearchExactly | backend/src/stories/dto/story.dto.ts:79-81 | The search text is absent or a string. |
| StoryDto.CreateAcceptedExactly | backend/src/stories/dto/story.dto.ts:15-39 | A create body, after conversion and defaults, is valid if and only if all five field conditions hold. |
| StoryDto.CreateDefaultsStatus | backend/src/stories/dto/story.dto.ts:34 | A create body without `status` gets ONGOING; a body that carries one keeps it. |
| StoryDto.UpdateAcceptedExactly | backend/src/stories/dto/story.dto.ts:41-66 | An update body is valid if and only if each field it carries meets the create bound. |
| StoryDto.EmptyUpdateAccepted | backend/src/stories/dto/story.dto.ts:41-66 | An empty update body is valid. |
| StoryDto.QueryAcceptedExactly | backend/src/stories/dto/story.dto.ts:68-87 | A query is valid if and only if page, limit and genre convert to integers (or are absent) and the search is text. |
| StoryDto.QueryDefaults | backend/src/stories/dto/story.dto.ts:72-77 | A query without page and limit asks for page 1 of 20. |
| StoryDto.QueryBounds | backend/src/stories/dto/story.dto.ts:68-77 | Page 0 and a negative limit pass validation; a fractional page does not. |
| Ads.ActiveAds | backend/src/ads/ads.service.ts:43-51 | `getActiveAds`: the sub-table of active ads matching the supplied type and position; its meaning is stated by ActiveAdsExact, FiltersNarrow and SelectionIndependentOfDates. |
| Ads.ActiveAdsExact | backend/src/ads/ads.service.ts:43-51 | `getActiveAds` returns an ad exactly when it is active and matches each supplied filter; an absent filter applies nothing. |
| Ads.FiltersNarrow | backend/src/ads/ads.service.ts:43-51 | Supplying a type or a position only narrows the selection. |
| Ads.DatesIgnored | backend/src/ads/ads.service.ts:43-51 | An active ad whose end date has passed is still selected. |
| Ads.SelectionIndependentOfDates | backend/src/ads/ads.service.ts:43-51 | Changing any ad's dates never changes which ads are selected. |
| Ads.TriggeredAds | backend/src/ads/ads.service.ts:67-73 | `getTriggeredAds`: the active ads of the context's position, none without one; stated by TriggeredAdsByPositionOnly and TriggeredAdsSound. |
| Ads.TriggeredAdsByPositionOnly | backend/src/ads/ads.service.ts:67-73 | With a position, the trigger query is `getActiveAds(undefined, position)`; without one it is empty; user, chapters read and story never matter. |
| Ads.TriggeredAdsSound | backend/src/ads/ads.service.ts:67-73 | Every triggered ad is an unchanged, active ad of the requested position. |
| Ads.ImpressionEffect | backend/src/ads/ads.service.ts:53-58 | An impression raises that ad's impressions by exactly one and changes no other field and no other ad. |
| Ads.ClickEffect | backend/src/ads/ads.service.ts:60-65 | A click raises that ad's clicks by exactly one and changes no other field and no other ad. |
| Ads.ImpressionsAddUp | backend/src/ads/ads.service.ts:53-58 | `n` impressions in sequence raise the counter by exactly `n` and touch nothing else. |
| Ads.CountersCommute | backend/src/ads/ads.service.ts:53-65 | Recording a click and an impression in either order gives the same table. |
| Ads.Updated | backend/src/ads/ads.service.ts:28-37 | The ad after `updateAd` with the supplied fields and parsed dates; stated by UpdatedProperties. |
| Ads.UpdatedProperties | backend/src/ads/ads.service.ts:28-37 | For a body carrying only `UpdateAdDto`'s fields, an update keeps the counters and the trigger rule, changes nothing when nothing is supplied, is idempotent, and changes a date only when it is supplied. |
| Ads.AdService.constructor | backend/src/ads/ads.service.ts:7-8 | The service starts from the given table. |
| Ads.AdService.GetActiveAds | backend/src/ads/ads.service.ts:43-51 | Returns the selection, each ad unchanged and active. |
| Ads.AdService.GetTriggeredAds | backend/src/ads/ads.service.ts:67-73 | Returns the trigger selection, empty without a position. |
| Ads.AdService.TrackAdImpression | backend/src/ads/ads.service.ts:53-58 | Increments that ad's impressions and returns the updated ad; a missing id fails with the table unchanged. |
| Ads.AdService.TrackAdClick | backend/src/ads/ads.service.ts:60-65 | Increments that ad's clicks and returns the updated ad; a missing id fails with the table unchanged. |
| Ads.AdService.UpdateAd | backend/src/ads/ads.service.ts:28-37 | For a body carrying only `UpdateAdDto`'s fields: an unstorable date or a missing id fails with the table unchanged; otherwise only that ad is rewritten with the supplied fields. |
| Ads.AdService.DeleteAd | backend/src/ads/ads.service.ts:39-41 | Removes exactly that id and returns the removed ad; a missing id fails. |
| ReadProgress.Upsert | backend/src/read-progress/read-progress.service.ts:27-44 | The `upsert` on the (user, story) key; stated by UpsertElements, UpsertKeepsKeysUnique, UpsertExactlyOne and UpsertLeavesOthers. |
| ReadProgress.UpsertElements | backend/src/read-progress/read-progress.service.ts:27-44 | After an upsert the record is in the table and every other row was there before. |
| ReadProgress.UpsertKeepsKeysUnique | backend/src/read-progress/read-progress.service.ts:27-44 | An upsert keeps at most one row per (user, story). |
| ReadProgress.UpsertExactlyOne | backend/src/read-progress/read-progress.service.ts:27-44 | After an upsert the key has exactly one row, holding the new chapter and progress. |
| ReadProgress.UpsertLeavesOthers | backend/src/read-progress/read-progress.service.ts:27-44 | An upsert leaves every other key's row as it was. |
| ReadProgress.RewindAllowed | backend/src/read-progress/read-progress.service.ts:34-38 | A later report with an earlier chapter overwrites the pointer: progress is not monotone. |
| ReadProgress.RemoveEffect | backend/src/read-progress/read-progress.service.ts:142-149 | After a delete the key has no row, and other keys keep theirs. |
| ReadProgress.ChaptersReadCount | backend/src/read-progress/read-progress.service.ts:212-231 | The chapters-read number is the recorded chapter's `number`, or 0 without a record. |
| ReadProgress.UserProgress | backend/src/read-progress/read-progress.service.ts:65-98 | `getUserReadProgress`: the user's rows, of the story when one is given, newest first; stated by UserProgressSpec. |
| ReadProgress.UserProgressSpec | backend/src/read-progress/read-progress.service.ts:65-98 | Returns exactly the user's rows (of the story when a non-zero id is given), newest first; story id 0 means no filter. |
| ReadProgress.ReadingHistory | backend/src/read-progress/read-progress.service.ts:152-210 | The history page fails for `page < 1`; otherwise at most `limit` of the user's rows, newest first, from `(page-1)*limit`, with `totalPages = ceil(total/limit)`. |
| ReadProgress.ReadingHistoryOwnRows | backend/src/read-progress/read-progress.service.ts:156-157 | Every row of a history page belongs to the user. |
| ReadProgress.TwoReportsOneRecord | backend/src/read-progress/read-progress.service.ts:27-44 | Reports of chapter 10 then chapter 12 leave one row, pointing at chapter 12. |
| ReadProgress.ReadProgressService.constructor | backend/src/read-progress/read-progress.service.ts:5-6 | Starts from a table with unique keys. |
| ReadProgress.ReadProgressService.UpdateReadProgress | backend/src/read-progress/read-progress.service.ts:8-63 | A chapter outside the story is NotFound with the table unchanged; otherwise the table is the upsert of the record stamped `now`. |
| ReadProgress.ReadProgressService.GetStoryReadProgress | backend/src/read-progress/read-progress.service.ts:100-126 | Returns the row of that key, or nothing. |
| ReadProgress.ReadProgressService.DeleteReadProgress | backend/src/read-progress/read-progress.service.ts:128-150 | A missing row is NotFound with the table unchanged; otherwise removes exactly that key's row and returns it. |
| ReadProgress.ReadProgressService.GetUserReadProgress | backend/src/read-progress/read-progress.service.ts:65-98 | Returns the user's progress list; every row is the user's. |
| ReadProgress.ReadProgressService.GetReadingHistory | backend/src/read-progress/read-progress.service.ts:152-210 | Returns the history page. |
| ReadProgress.ReadProgressService.GetChaptersReadCount | backend/src/read-progress/read-progress.service.ts:212-231 | Returns the chapters-read number, 0 without a record. |
| Bookmarks.AddContents | backend/src/bookmarks/bookmarks.service.ts:16-20 | After adding, the table holds exactly the old pairs plus the new one, still one row per pair. |
| Bookmarks.AddIdempotent | backend/src/bookmarks/bookmarks.service.ts:16-20 | Adding the same pair twice equals adding it once. |
| Bookmarks.DeleteContents | backend/src/bookmarks/bookmarks.service.ts:23-27 | Deleting removes exactly that pair and keeps the others, one row fewer. |
| Bookmarks.BookmarksPage | backend/src/bookmarks/bookmarks.service.ts:29-55 | Fails for `page < 1`; otherwise at most `limit` of the user's bookmarks from `(page-1)*limit`, `totalPages = ceil(count/limit)`, `currentPage = page`. |
| Bookmarks.BookmarksPageSound | backend/src/bookmarks/bookmarks.service.ts:29-55 | A page holds only the user's bookmarks, and the page count covers them all. |
| Bookmarks.AddTwiceStoresOnce | backend/src/bookmarks/bookmarks.service.ts:16-20 | Two adds of the same pair leave exactly one row for it. |
| Bookmarks.BookmarkService.constructor | backend/src/bookmarks/bookmarks.service.ts:5-6 | Starts from a table with one row per pair. |
| Bookmarks.BookmarkService.AddBookmark | backend/src/bookmarks/bookmarks.service.ts:8-21 | A missing story is NotFound with the table unchanged; otherwise the pair is added (idempotently) and returned. |
| Bookmarks.BookmarkService.RemoveBookmark | backend/src/bookmarks/bookmarks.service.ts:23-27 | A missing pair fails with the table unchanged; otherwise exactly that pair is deleted. |
| Bookmarks.BookmarkService.GetBookmarks | backend/src/bookmarks/bookmarks.service.ts:29-55 | Returns the bookmark page. |
| Comments.SetContent | backend/src/comments/comments.service.ts:55-58 | The content update rewrites the content of the rows with that id and nothing else. |
| Comments.SetContentEffect | backend/src/comments/comments.service.ts:55-58 | After an edit that comment has the new content and all its other fields; every other comment is unchanged. |
| Comments.DeleteIdEffect | backend/src/comments/comments.service.ts:68 | Deleting removes exactly the comments with that id. |
| Comments.TopLevelSpec | backend/src/comments/comments.service.ts:30-38 | A story's listed comments are exactly its comments with no parent, newest first. |
| Comments.CommentsPage | backend/src/comments/comments.service.ts:27-46 | Fails for `page < 1`; otherwise at most `limit` top-level comments from `(page-1)*limit`, `totalPages = ceil(top-level count/limit)`. |
| Comments.CommentsPageSound | backend/src/comments/comments.service.ts:27-46 | Every comment on a page is a top-level comment of the story. |
| Comments.RepliesNotCounted | backend/src/comments/comments.service.ts:30-39 | Adding a reply changes neither the listed comments nor the page count. |
| Comments.CommentService.constructor | backend/src/comments/comments.service.ts:5-6 | Starts from a table with unique ids. |
| Comments.CommentService.CreateComment | backend/src/comments/comments.service.ts:8-25 | The new comment holds exactly the given author, content, story, chapter and parent, under a fresh id. |
| Comments.CommentService.GetCommentsForStory | backend/src/comments/comments.service.ts:27-46 | Returns the comment page. |
| Comments.CommentService.UpdateComment | backend/src/comments/comments.service.ts:48-59 | A non-owner, or an id without a comment, gets Forbidden with the table unchanged; the owner's edit changes only that comment's content. |
| Comments.CommentService.DeleteComment | backend/src/comments/comments.service.ts:61-69 | The same owner rule applies; on success exactly that comment is removed. |
| Stories.SlugTitle | backend/src/stories/stories.service.ts:101 | The searched title is the slug with every '-' turned into a space. |
| Stories.FirstTitleMatch | backend/src/stories/stories.service.ts:103-110 | Finds a story whose title contains the text, ignoring case, or none has one. |
| Stories.FindBySlug | backend/src/stories/stories.service.ts:99-150 | Returns a story whose title contains the rewritten slug, ignoring case; NotFound with the slug in the message exactly when none matches. |
| Stories.EmptySlugFindsFirst | backend/src/stories/stories.service.ts:101-110 | An empty slug matches every title, so it finds the first story. |
| Stories.ListPage | backend/src/stories/stories.service.ts:12-49 | Fails for `page < 1`; otherwise at most `limit` stories, most recently updated first, from `(page-1)*limit`, with meta `(page, limit, total, ceil(total/limit))`. |
| Stories.ListPageSound | backend/src/stories/stories.service.ts:12-49 | Every listed story is one of the listed set. |
| Stories.FindAll | backend/src/stories/stories.service.ts:12-50 | `findAll`: a page of every story with the count of all stories; stated by ListPage and ListingsSound. |
| Stories.FindByGenre | backend/src/stories/stories.service.ts:294-331 | `findByGenre`: a page of the genre's stories with their count; stated by ListingsSound. |
| Stories.ListingMeta | backend/src/stories/stories.service.ts:41-48 | For `page >= 1` the meta echoes the page, sets `per_page = limit` and `total_pages = ceil(total/limit)`. |
| Stories.ListingsSound | backend/src/stories/stories.service.ts:12-50 | `findAll` counts every story; `findByGenre` lists and counts only the genre's stories. |
| Stories.Search | backend/src/stories/stories.service.ts:215-291 | `search`: title, description or author matches, counting text matches only and echoing the query; stated by SearchSound and SearchCountsTextOnly. |
| Stories.SearchSound | backend/src/stories/stories.service.ts:215-291 | Every searched story matches in title, description or author name; the total counts only title and description matches; the meta echoes the query. |
| Stories.SearchCountsTextOnly | backend/src/stories/stories.service.ts:219-278 | A story matched only through its author is listed but not counted, so `total = 0` and `total_pages = 0`. |
| Stories.SearchCountsTextOnlyExample | backend/src/stories/stories.service.ts:219-278 | Such a story exists. |
| Stories.Apply | backend/src/stories/stories.service.ts:183-192 | For a body carrying only `UpdateStoryDto`'s fields, an update replaces the supplied fields, keeps the others, keeps id and author, and stamps the update time. |
| Stories.ApplyNothing | backend/src/stories/stories.service.ts:183-192 | An empty update only stamps the update time. |
| Stories.ReplaceRow | backend/src/stories/stories.service.ts:183-192 | The table with that id's row replaced, every other row kept. |
| Stories.ReplaceRowEffect | backend/src/stories/stories.service.ts:183-192 | After the update the id finds the new row, and every other id finds what it found before. |
| Stories.DeleteRowEffect | backend/src/stories/stories.service.ts:209-211 | Deleting removes exactly the story with that id. |
| Stories.StoryService.constructor | backend/src/stories/stories.service.ts:8-10 | Starts from a table with unique ids. |
| Stories.StoryService.FindOne | backend/src/stories/stories.service.ts:53-96 | Returns the story with that id, or NotFound with the id in the message. |
| Stories.StoryService.FindBySlugQuery | backend/src/stories/stories.service.ts:99-150 | Returns the slug lookup. |
| Stories.StoryService.Create | backend/src/stories/stories.service.ts:153-166 | For a body carrying only `CreateStoryDto`'s fields, stores them with the given author under a fresh id and returns the row. |
| Stories.StoryService.Update | backend/src/stories/stories.service.ts:169-193 | For a body carrying only `UpdateStoryDto`'s fields: a missing story, or one by another author, is NotFound with the table unchanged; otherwise only that story is rewritten. |
| Stories.StoryService.Remove | backend/src/stories/stories.service.ts:196-212 | The same two checks apply; on success exactly that story is deleted. |
| Stories.StoryService.FindAllStories | backend/src/stories/stories.service.ts:12-50 | Returns the listing of all stories. |
| Stories.StoryService.SearchStories | backend/src/stories/stories.service.ts:215-291 | Returns the search listing, whose meta carries page, limit, the text-match total, the page count and the query. |
| Stories.StoryService.FindStoriesByGenre | backend/src/stories/stories.service.ts:294-331 | Returns the genre listing. |
| Auth.FirstClash | backend/src/auth/auth.service.ts:24-28 | Finds the first user, in table order, with that e-mail or that name, or none exists. |
| Auth.RegisterConflict | backend/src/auth/auth.service.ts:30-37 | A conflict is reported exactly when some user has the e-mail or the name, with one of the two messages. |
| Auth.ConflictMessageFollowsFirstClash | backend/src/auth/auth.service.ts:24-37 | When the name clashes with an earlier user and the e-mail with a later one, the name message is given. |
| Auth.EmailClashReported | backend/src/auth/auth.service.ts:30-33 | When only the e-mail clashes, the e-mail message is given. |
| Auth.PayloadOf | backend/src/auth/auth.service.ts:93-98 | The token payload's `sub`, role, name and e-mail are the user's. |
| Auth.Login | backend/src/auth/auth.service.ts:64-114 | Succeeds exactly for a known address whose password `compare` accepts, returning the signed payload and the public user; every failure is the same Unauthorized message. |
| Auth.LoginFailuresAlike | backend/src/auth/auth.service.ts:78-85 | An unknown address and a wrong password give identical results. |
| Auth.UnverifiedCanLogin | backend/src/auth/auth.service.ts:87-91 | An unverified user with the right password logs in. |
| Auth.GetProfile | backend/src/auth/auth.service.ts:116-135 | An unknown id is NotFound; otherwise the profile fields are the user's. |
| Auth.RefreshToken | backend/src/auth/auth.service.ts:137-162 | An unknown id is Unauthorized; otherwise the token signs the user's payload. |
| Auth.MissingUserErrors | backend/src/auth/auth.service.ts:130-150 | A missing user is NotFound to the profile and Unauthorized to the refresh. |
| Auth.VerifyEmailIgnoresToken | backend/src/auth/auth.service.ts:58-62 | Verification returns success whatever the token. |
| Auth.UniqueEmailFindsOwner | backend/src/auth/auth.service.ts:65-66 | With unique addresses, the lookup by a user's address finds that user. |
| Auth.AuthService.constructor | backend/src/auth/auth.service.ts:15-20 | Starts from a registry with unique ids, addresses and names. |
| Auth.AuthService.Register | backend/src/auth/auth.service.ts:22-56 | A taken address or name is a Conflict with the table unchanged; otherwise exactly one unverified user is appended, holding `hash(password, 12)`. |
| Auth.AuthService.LoginUser | backend/src/auth/auth.service.ts:64-114 | Returns the login decision. |
| Auth.AuthService.ViewProfile | backend/src/auth/auth.service.ts:116-135 | Returns the profile decision. |
| Auth.AuthService.Refresh | backend/src/auth/auth.service.ts:137-162 | Returns the refresh decision. |
| Auth.RegisterThenLogin | backend/src/auth/auth.service.ts:39-114 | A user just registered can log in with the chosen password, and the token names that user. |
| JwtGuard.RejectionMessage | backend/src/auth/jwt-auth.guard.ts:10-28 | The message of a rejection, chosen from the info alone; stated by MessageCases, NamesBeforeMessages and MissingTokenExample. |
| JwtGuard.HandleRequest | backend/src/auth/jwt-auth.guard.ts:7-32 | The user passes through unchanged exactly when there is no error and a user; otherwise Unauthorized. |
| JwtGuard.RejectionIgnoresUser | backend/src/auth/jwt-auth.guard.ts:9-29 | Every rejection's message depends on the info alone, even when a user comes with the error. |
| JwtGuard.NamesBeforeMessages | backend/src/auth/jwt-auth.guard.ts:12-22 | The three known error names give their messages whatever the info's message. |
| JwtGuard.MessageCases | backend/src/auth/jwt-auth.guard.ts:10-28 | Every rejection is one of five messages; without info, or without a known name or a message, it is the default. |
| JwtGuard.MissingTokenExample | backend/src/auth/jwt-auth.guard.ts:23-28 | Another error with a message gets the prefixed message; an empty message gets the default. |
| Slugify.Slug | backend/prisma/seed-update.ts:7-18 | `slugify`: lower-case, NFD, strip marks, dash whitespace, keep word characters and dashes, collapse and trim dashes; stated by SlugIsSlug, SpacesBecomeOneDash, SlugIdempotent and DroppedLetterExample. |
| Slugify.StripNothing | backend/prisma/seed-update.ts:12 | Text without combining marks loses nothing to mark removal. |
| Slugify.DropSpaces | backend/prisma/seed-update.ts:13 | The suffix after a whitespace run does not start with whitespace. |
| Slugify.KeepWordDash | backend/prisma/seed-update.ts:14 | Only `\w` characters and '-' remain. |
| Slugify.DropDashes | backend/prisma/seed-update.ts:16 | The leading '-' run is removed; the rest is a suffix. |
| Slugify.CollapseDashes | backend/prisma/seed-update.ts:15 | No "--" remains, no character is added, and a first character other than '-' is kept. |
| Slugify.TrimEnd | backend/prisma/seed-update.ts:17 | The trailing '-' run is removed; the rest is a prefix. |
| Slugify.WordsHaveNoSpace | backend/prisma/seed-update.ts:13-14 | Word characters and '-' are neither whitespace nor combining marks. |
| Slugify.CollapseKeeps | backend/prisma/seed-update.ts:15 | Collapsing keeps a word-and-dash string word-and-dash. |
| Slugify.TidyIsSlug | backend/prisma/seed-update.ts:14-17 | The last four replacements always produce a slug. |
| Slugify.TrimmedIsSlug | backend/prisma/seed-update.ts:16-17 | Trimming the end of a dash-free-start string gives a slug. |
| Slugify.SlugIsSlug | backend/prisma/seed-update.ts:7-18 | `slugify` output has only `\w` and '-', no whitespace, no "--", and no '-' at either end. |
| Slugify.DroppedLetter | backend/prisma/seed-update.ts:11-14 | 'đ' and 'Đ', which do not decompose, never appear in a slug. |
| Slugify.DroppedLetterExample | backend/prisma/seed-update.ts:7-18 | "Đọc" slugifies to "oc": the 'đ' is deleted, not transliterated. |
| Slugify.DashSpacesNoSpaces | backend/prisma/seed-update.ts:13 | Text without whitespace is unchanged by the whitespace replacement. |
| Slugify.DashSpacesPrefix | backend/prisma/seed-update.ts:13 | A whitespace-free prefix passes the whitespace replacement unchanged. |
| Slugify.DropSpacesThen | backend/prisma/seed-update.ts:13 | A whitespace run is consumed up to the next non-space. |
| Slugify.CollapseNoDouble | backend/prisma/seed-update.ts:15 | Text without "--" is unchanged by collapsing. |
| Slugify.TidyFixesSlug | backend/prisma/seed-update.ts:14-17 | A slug passes the last four replacements unchanged. |
| Slugify.SpacesBecomeOneDash | backend/prisma/seed-update.ts:13 | A whitespace run between two words becomes exactly one '-'. |
| Slugify.DashAcross | backend/prisma/seed-update.ts:13 | Word, whitespace run, word becomes word '-' word. |
| Slugify.DashRun | backend/prisma/seed-update.ts:13 | A whitespace run before a word becomes one '-'. |
| Slugify.JoinIsSlug | backend/prisma/seed-update.ts:14-17 | Two words joined by '-' form a slug. |
| Slugify.LowerFixesSlug | backend/prisma/seed-update.ts:10 | Lower-casing leaves a slug without ASCII capitals unchanged. |
| Slugify.SlugIdempotent | backend/prisma/seed-update.ts:7-18 | `slugify(slugify(x)) == slugify(x)` when NFD fixes ASCII and the slug has no ASCII capitals. |
| Slugify.SlugFixed | backend/prisma/seed-update.ts:7-18 | A slug without capitals is its own slug. |
| Pagination.TotalPages | frontend/components/Pagination.tsx:9 | The page count is at least 1 and is the fewest pages that hold every item. |
| Pagination.OnePageDrawsNothing | frontend/components/Pagination.tsx:9-11 | Nothing is drawn exactly when every item fits on one page. |
| Pagination.Go | frontend/components/Pagination.tsx:10 | The requested page is clamped into [1, totalPages]; a page in range is kept. |
| Pagination.Dedup | frontend/components/Pagination.tsx:13-14 | The Set keeps each candidate once and adds nothing. |
| Pagination.Candidates | frontend/components/Pagination.tsx:13 | The five candidates are 1, the current page and its neighbours, and the last page. |
| Pagination.InRange | frontend/components/Pagination.tsx:14 | At most five pages remain, exactly the candidates within [1, totalPages]. |
| Pagination.PageNumbersIncreasing | frontend/components/Pagination.tsx:13-14 | The listed numbers are strictly increasing. |
| Pagination.PageNumbersMembers | frontend/components/Pagination.tsx:13-14 | A number is listed exactly when it is an in-range candidate. |
| Pagination.PageNumbersSpec | frontend/components/Pagination.tsx:13-14 | The list is strictly increasing, has 1 to 5 entries in range, starts at 1, ends at totalPages, and includes the current page when in range. |
| Pagination.WithDots | frontend/components/Pagination.tsx:16-20 | The loop builds exactly the dotted list. |
| Pagination.DottedStep | frontend/components/Pagination.tsx:17-19 | One loop step pushes the page and, when the next page is not consecutive, one "…". |
| Pagination.DottedKeepsPages | frontend/components/Pagination.tsx:16-20 | Dropping the "…" gives back the page numbers in order. |
| Pagination.DottedShape | frontend/components/Pagination.tsx:16-20 | The list starts and ends with a page, never with "…", and has no two adjacent "…". |
| Pagination.DottedSplit | frontend/components/Pagination.tsx:19 | Between two consecutive listed numbers there is one "…" exactly when they differ by more than 1. |
| Pagination.Render | frontend/components/Pagination.tsx:8-58 | Nothing when one page; otherwise the dotted list, prev disabled iff on page 1, next disabled iff on the last page, and arrows requesting clamped neighbours. |
| Pagination.MiddlePages | frontend/components/Pagination.tsx:13-20 | Away from both ends the list is 1 … c-1 c c+1 … totalPages. |
| Pagination.DottedMiddle | frontend/components/Pagination.tsx:16-20 | The five middle pages render with "…" after 1 and before the last page. |
| Categories.MapSortBy | frontend/pages/the-loai/index.tsx:23-28 | name-desc and items-desc map to themselves; every other choice sorts by name ascending. |
| Categories.BarSortsByName | frontend/components/CategoryFilterBar.tsx:12 | The filter bar's own orders ("latest", "views", "rating") all sort by name. |
| Categories.SelectSpec | frontend/pages/the-loai/index.tsx:56-66 | A category is kept exactly when it passes every filter that is set; nothing is added. |
| Categories.FilteredSpec | frontend/pages/the-loai/index.tsx:55-74 | The result is a permutation of the selection (a sub-multiset of the catalogue), non-increasing in item count under items-desc, and in catalogue order under updated-desc. |
| Categories.Slice | frontend/pages/the-loai/index.tsx:79 | `slice` never returns more than the list. |
| Categories.PagedSpec | frontend/pages/the-loai/index.tsx:77-80 | From page 1 on, the page is the window of 12 from `(page-1)*12`. |
| Categories.CategoriesPage.constructor | frontend/pages/the-loai/index.tsx:30-37 | Default filters, page 1, and the catalogue sorted by name in place. |
| Categories.CategoriesPage.SetFilters | frontend/pages/the-loai/index.tsx:47-74 | New filters reset the page to 1 and recompute the list; with no filter set, the catalogue itself is reordered. |
| Categories.CategoriesPage.OnFilterChange | frontend/pages/the-loai/index.tsx:99-106 | A search text and a non-empty sort choice replace their filters, reset the page and recompute the list (sorting the catalogue itself when no filter applies); an empty patch changes nothing. |
| Categories.CategoriesPage.ClearFilters | frontend/pages/the-loai/index.tsx:124 | Back to the default filters and page 1. |
| Categories.CategoriesPage.SetPage | frontend/pages/the-loai/index.tsx:37 | Changes the page only. |
| Categories.CategoriesPage.Paged | frontend/pages/the-loai/index.tsx:77-80 | The visible page is the window of at most 12 filtered categories. |
| History.UnitSeconds | frontend/pages/user/lich-su.tsx:59-68 | Every unit is at least a minute long. |
| History.AgoOf | frontend/pages/user/lich-su.tsx:57-69 | A count is at least 1 and is `floor(seconds / unit)`. |
| History.FormatTimeAgo | frontend/pages/user/lich-su.tsx:54-70 | `formatTimeAgo`: "Vừa xong" or a count of the largest unit exceeded; stated by JustNowExactly, LargestUnitExceeded, UnitMonotone and CountReadsBack. |
| History.JustNowExactly | frontend/pages/user/lich-su.tsx:67-69 | "Vừa xong" exactly for at most 60 seconds, negative ages included. |
| History.LargestUnitExceeded | frontend/pages/user/lich-su.tsx:59-68 | The unit used is the largest one the age strictly exceeds. |
| History.UnitMonotone | frontend/pages/user/lich-su.tsx:59-68 | An older entry never shows a smaller unit. |
| History.HourIsSixtyMinutes | frontend/pages/user/lich-su.tsx:65-68 | Exactly an hour reads "60 phút trước". |
| History.YearIsTwelveMonths | frontend/pages/user/lich-su.tsx:59-62 | Exactly a year reads "12 tháng trước". |
| History.JustNowExamples | frontend/pages/user/lich-su.tsx:55-69 | 60.999 seconds, and a date that does not parse, read "Vừa xong". |
| History.CountReadsBack | frontend/pages/user/lich-su.tsx:60-68 | The printed count reads back as the number of whole units. |
| History.WithoutSpec | frontend/pages/user/lich-su.tsx:89-91 | Removal drops every entry with that id, keeps every other, changes nothing when the id is absent, and is idempotent. |
| History.WithoutKeepsOrder | frontend/pages/user/lich-su.tsx:89-91 | Removal keeps the remaining entries in their original order. |
| History.HistoryPage.constructor | frontend/pages/user/lich-su.tsx:74-75 | The page starts with an empty history, loading. |
| History.HistoryPage.Loaded | frontend/pages/user/lich-su.tsx:77-87 | The fetched list replaces the history and loading ends. |
| History.HistoryPage.RemoveItem | frontend/pages/user/lich-su.tsx:89-91 | The history becomes the list without that id. |
| History.HistoryPage.ClearHistory | frontend/pages/user/lich-su.tsx:93-95 | The history becomes empty. |
| LocaleRedirect.Detect | frontend/middleware/trans.ts:22-23 | The locale is "vi" exactly when the lower-cased header starts with "vi", otherwise "en". |
| LocaleRedirect.Middleware | frontend/middleware/trans.ts:7-29 | Passes through exactly framework, API, dotted and locale-prefixed paths; otherwise redirects to "/" + locale + path, keeping the query. |
| LocaleRedirect.ApiaryPasses | frontend/middleware/trans.ts:10-16 | "/apiary" passes through like "/api/…". |
| LocaleRedirect.VideoRedirected | frontend/middleware/trans.ts:18-20 | "/video" is not taken for "/vi" and is redirected to "/vi/video". |
| LocaleRedirect.LocalePathsPass | frontend/middleware/trans.ts:18-20 | "/vi" and "/en/truyen" pass through. |
| LocaleRedirect.DetectByFirstTwo | frontend/middleware/trans.ts:22-23 | Only the header's first two characters matter, whatever their case. |
| LocaleRedirect.MissingHeaderIsEnglish | frontend/middleware/trans.ts:22-23 | A missing or empty header selects English. |
| LocaleRedirect.NoRedirectLoop | frontend/middleware/trans.ts:18-28 | The redirect target of a '/'-path passes through on the next request, whatever its header. |
| RegisterForm.Validate | frontend/pages/register.tsx:28-35 | Validation passes exactly when name, e-mail and password are non-empty and the confirmation matches; a failure is one of the two messages. |
| RegisterForm.EmptyBeforeMismatch | frontend/pages/register.tsx:28-35 | An empty field is reported before a mismatch. |
| RegisterForm.EmptyConfirmIsMismatch | frontend/pages/register.tsx:28-35 | An empty confirmation under a password is a mismatch, not an empty field. |
| RegisterForm.FailureMessage | frontend/pages/register.tsx:43-52 | A refused request shows the server's text, or "Đăng ký thất bại" when it is empty; a network failure shows the network message. |
| RegisterForm.Form.constructor | frontend/pages/register.tsx:20-24 | The form starts empty, not loading, with no message. |
| RegisterForm.Form.SetUsername | frontend/pages/register.tsx:77 | Sets the user name only. |
| RegisterForm.Form.SetEmail | frontend/pages/register.tsx:88 | Sets the e-mail only. |
| RegisterForm.Form.SetPassword | frontend/pages/register.tsx:99 | Sets the password only. |
| RegisterForm.Form.SetConfirm | frontend/pages/register.tsx:111 | Sets the confirmation only. |
| RegisterForm.Form.Submit | frontend/pages/register.tsx:26-42 | A failed check shows its error and sends nothing; otherwise loading is set and the request carries the three fields. No field changes. |
| RegisterForm.Form.Settle | frontend/pages/register.tsx:43-53 | Loading ends; a failure shows its message and keeps the fields; success shows the confirmation and clears both passwords, keeping name and e-mail. |

## Behaviour of the code worth knowing

- `triggerRule` appears only as seed data (backend/prisma/seed.ts:492-496).
  Nothing evaluates it. `getTriggeredAds` selects by position only
  (backend/src/ads/ads.service.ts:67-73).
- The seed writes `impressionCount`/`clickCount`
  (backend/prisma/seed.ts:498-499). The service increments
  `impressions`/`clicks` (backend/src/ads/ads.service.ts:56,63).
- The [0, 100] range of a reading progress is declared only on
  `UpdateReadProgressDto` (backend/src/read-progress/dto/index.ts:10-13). The
  service stores any number
  (backend/src/read-progress/read-progress.service.ts:27-44).
- Counting an impression or a click for an unknown ad id fails with
  Prisma's missing-record error (`MissingRecord`), not with a NotFound of the
  service's own.
- `getStoryReadProgress` returns null (`None`) when there is no record
  (backend/src/read-progress/read-progress.service.ts:100-126).

## Left out

- Ads.UpdatedProperties, Ads.AdService.UpdateAd, Stories.Apply,
  Stories.StoryService.Update and Stories.StoryService.Create: the update and
  create records carry exactly the DTO's fields. No validation pipe strips
  other properties. `updateAd` spreads the raw body
  (backend/src/ads/ads.service.ts:32), and `update` passes it whole
  (backend/src/stories/stories.service.ts:185). So a body such as
  `{"impressions": 0}` resets a counter. A body such as `{"authorId": 2}`
  moves a story to another author after the author check. A property that is
  not a column makes Prisma refuse the write. `create` spreads the body too
  (backend/src/stories/stories.service.ts:153-158); only `authorId` is
  written after the spread. The model does not represent such bodies.
- Ads.ImpressionEffect, Ads.ClickEffect, Ads.ImpressionsAddUp,
  Ads.AdService.TrackAdImpression and Ads.AdService.TrackAdClick: counters and
  ids are unbounded integers. The Prisma `Int` columns are signed 32-bit, so
  `increment: 1` on 2147483647 fails in the database. The model's unconditional
  +1 does not capture that failure.
- StoryDto.StatusExactly: `@IsEnum(StoryStatus)` checks the Prisma enum, whose
  definition is not part of this model. The value set is taken from the front
  end's story type (frontend/types/story.ts:10): ONGOING, COMPLETED, HIATUS.
- Categories.CategoriesPage.OnFilterChange and Categories.BarSortsByName: the
  page passes the bar a `value` prop (frontend/pages/the-loai/index.tsx:97-98).
  The bar reads `filters.sortBy` during render
  (frontend/components/CategoryFilterBar.tsx:21,37), so as wired it throws on
  its first render and never calls `onFilterChange`. The model gives the
  handler's behaviour as it would run if the bar were wired with `filters`.
- Request validation is not wired in. No `ValidationPipe` appears in
  `main.ts` or the controllers, so the DTO decorators are declared but not
  enforced. The DTO modules state what the decorators accept; the services
  take their inputs unvalidated. Properties a DTO does not declare are
  accepted silently.
- Several pagination requirements go beyond what the source checks:
  - `Common.PageOf`, `Bookmarks.BookmarksPage`, `Comments.CommentsPage`,
    `ReadProgress.ReadingHistory` and `Stories.ListPage` require
    `limit >= 1`. A zero or negative limit gives JavaScript `Infinity`/`NaN`
    page counts and a negative `take`, which the model does not represent.
  - `Pagination.TotalPages` and `Pagination.Render` require `pageSize >= 1`
    for the same reason.
- Rows come back from the database in no particular order. Each table keeps
  its rows in a sequence, and "the first row" means first in that sequence.
  `ORDER BY … desc` is a stable sort by the key. Ties among equal timestamps
  are broken by table order, which the database does not promise.
- Ads: `createAd`, `findAll` and `findOne` are plain Prisma calls with no
  logic and are not modelled.
- Schema defaults and relations are not modelled: ids, `createdAt`,
  `updatedAt`, role defaults, cascading deletes of replies and chapters, and
  foreign keys other than the chapter of a progress row.
- `ReadProgress.ReadProgressService.UpdateReadProgress`: the stored progress
  is a `real`. The check that it is a finite number stays with the DTO.
- Concurrency is not modelled. Parallel requests, atomic increments and
  upsert races are delegated to the database, and the model's methods run
  one at a time.
- Storage failures other than Prisma's missing-record and query errors are
  not modelled.
- Foreign functions are parameters, not models: bcrypt, JWT signing,
  `isEmail`/`isUrl`, `Number` parsing, Unicode NFD, `localeCompare`, `new Date`
  parsing and the clock.
- `Slugify.SlugIdempotent` assumes that NFD leaves ASCII text unchanged. That
  holds of Unicode NFD, but the model does not prove it.
- Strings are sequences of code points. JavaScript's UTF-16 code units differ
  only outside the Basic Multilingual Plane: they affect `slice`, `includes`
  and lengths there.
- `Text.LowerChar` lower-cases ASCII, Latin-1 and the Vietnamese letters.
  Other scripts are left unchanged, unlike JavaScript's full case mapping.
  The database's case-insensitive `contains` is modelled with the same
  mapping, not the database collation.
- `Categories.FilteredSpec` states only a permutation for the two name
  orders. `localeCompare` is a parameter, so no order is claimed there.
- `averageRating` and its `toFixed(1)` use floating point and are left out.
  So are the `include`/`select` shapes of the replies: which related fields
  come back.
- Categories page:
  - The filters saved to and restored from `localStorage`
    (frontend/pages/the-loai/index.tsx:40-50) are not modelled.
  - The parent-name lookup for display (`parentNameOf`) is not modelled.
  - The page's markup is not modelled.
- History page: the one-second `setTimeout` and the mock list are
  represented only by the `Loaded` step. The page never calls the API.
- Locale middleware: the Next.js `matcher` configuration
  (frontend/middleware/trans.ts:31-33) decides which requests reach the
  middleware. It is framework routing and is not modelled.
- Registration form:
  - The browser's own `required` check on the inputs is not modelled. The
    model follows the submit handler.
  - The `fetch` is the `Outcome` parameter. A failure of `res.text()` counts
    as a network error.
- The rest of the user interface, the controllers and modules, the other
  pages and the seeding scripts (apart from `slugify`) are outside the core.
