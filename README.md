# Blog viewer: post lookup, view rendering and dispatch

A Dafny model of the logic of a small client-side blog viewer. The page fetches a
manifest of posts, reads an `id` from its address, and writes exactly one of four views
into one output region (`contentArea.innerHTML`): the list of all posts, one post
converted from Markdown, "Post not found", or an error message.

The model has four modules:

- `Wrappers`: `Option` and `Result`.
- `Utils` (app/utils.js): identifiers are `Num(int)` or `Str(string)`. `Canon` gives the
  text JavaScript's `String` produces: decimal digits, with `-` for negative numbers. The
  first-match search `findPostById` is modelled as `FindIndex`, which returns the index,
  and `FindPostById`, which returns the post.
- `Render` (app/render.js): the output region is the class `ContentArea`. Its field
  `innerHTML` is overwritten by every view. Its ghost counter `writes` counts the
  assignments, so each operation provably writes exactly once. `renderPostList` keeps
  its accumulating loop. Its invariant is stated through the pure functions `Card` and
  `Cards`. The templates are copied character for character, whitespace included. HTML
  is treated as a plain string.
- `Index` (app/index.js): `ChooseView` is the branching of `initBlog`. `InitBlog` applies
  the chosen view to the region.

Inputs from outside the program are abstracted:

- The manifest fetch is a `Result<seq<Post>, string>`.
- The URL parameter is an `Option<string>`, as `URLSearchParams.get` returns a string or
  `null`.
- The content fetch and the Markdown converter (`marked.parse`) are total functions
  `string -> Result<string, string>`. A `Failure` stands for a rejected promise or a
  thrown exception.

Three behaviours of the code that its tests or a first reading might not suggest:

- A conversion failure also gives the error view. The exception thrown inside the
  `.then` at app/render.js:30 reaches the `.catch` at app/render.js:40.
- The post view has no share control, because app/render.js:31-38 writes none.
  tests/render.test.js:26-44 expects a "Share on Facebook" anchor. That test can only
  fail against this code.
- A content fetch counts as failed only when the promise is rejected. `fetch` resolves
  on an HTTP error status such as 404, and then the body of that response is converted
  and shown as a post.

## Model

| member | source | states |
|---|---|---|
| Utils.DecimalText | app/utils.js:8 | `String(n)` for an integer: a non-empty text that starts with '-' exactly when `n` is negative |
| Utils.Canon | app/utils.js:8 | `String(id)`: a string id is its own text, a numeric id its decimal text |
| Utils.CanonText | app/utils.js:8 | `String` leaves a string unchanged; the text of a number is never empty and starts with '-' exactly when the number is negative |
| Utils.Matches | app/utils.js:8 | the `find` callback: a post matches a query when `String(p.id) === String(id)` |
| Utils.MatchesId | app/utils.js:8 | the callback `p => String(p.id) === String(id)` as a function value passed to the search |
| Utils.MatchesSameKind | app/utils.js:8 | every id matches itself; two numeric ids match exactly when equal, two string ids exactly when equal |
| Utils.DecimalTextShape | app/utils.js:8 | the text `String(n)` gives a non-negative integer: non-empty, only the digits 0-9, no leading zero except for 0 itself, and at least two characters from 10 upwards |
| Utils.DecimalTextInjective | app/utils.js:8 | two different non-negative integers never have the same decimal text |
| Utils.NumericIdsMatchIffEqual | app/utils.js:8 | two numeric ids compare equal as strings exactly when they are the same number, negative numbers included |
| Utils.FindFirst | app/utils.js:8 | `Array.prototype.find`: a found position is in range, its element satisfies the callback, and no earlier element does; the result is absent exactly when no element satisfies it |
| Utils.FindFirstAgrees | app/utils.js:8 | the search depends on the callback only through its answers: two callbacks that agree on every element find the same position |
| Utils.FindFirstInConcat | app/utils.js:8 | on a concatenation, a hit in the first part is the result; with no hit there, the result is the second part's hit shifted by the first part's length, and absent if neither part has one |
| Utils.FindIndex | app/utils.js:7-9 | a found index is in range, its post matches the query, and no earlier post matches; the result is absent exactly when no post matches |
| Utils.FindPostById | app/utils.js:7-9 | absent exactly when no post's `String(id)` equals `String(query)`; otherwise the result is an element of `posts` whose canonical id equals the query's, at a least matching index |
| Utils.FindSeesOnlyCanon | app/utils.js:8 | two queries with the same canonical text lead to the same index and the same post, so `Num(1)` and `Str("1")` are interchangeable |
| Utils.FindInConcat | app/utils.js:7-9 | a match in an earlier part of the collection hides every later entry; with no match there, the later part's match is found at an offset of the earlier part's length |
| Utils.FindExamples | tests/utils.test.js:15-27 | on `[{id:1},{id:"2"}]`, the query `1` gives the first entry, `"2"` gives the second and `"1"` gives the first; on `[{id:1}]` the query `999` gives absence |
| Render.Card | app/render.js:5-19 | the card fragment of one post: the template with the title, summary, date and `?id=` plus `String(post.id)` in its four holes |
| Render.PostListHtml | app/render.js:3-22 | the list view: `<div class="row">`, the cards of all posts in order, then `</div>` |
| Render.CardShowsPost | app/render.js:5-19 | one card holds the post's title, summary and date and the link text `?id=` followed by `String(post.id)` |
| Render.PostListInOrder | app/render.js:3-22 | the list view is the row opening, then the cards of the posts before `posts[i]`, the card of `posts[i]`, the cards of the posts after it, and the closing `</div>`: one card per post, in input order |
| Render.CardsSnoc | app/render.js:4-20 | each loop step appends exactly the card of the next post to the cards built so far |
| Render.PostListShowsEveryPost | app/render.js:2-23 | the list view holds every post's title, summary and date and its `?id=<id>` link |
| Render.EmptyPostList | app/render.js:2-23 | an empty collection renders the bare row container `<div class="row"></div>` |
| Render.RenderExample | tests/render.test.js:5-12 | the list of the single test post holds "Test Title", "A short summary" and "?id=post-1" |
| Render.PostHtml | app/render.js:31-38 | the post view: the back link to index.html, then a section holding the converted body |
| Render.LoadedHtml | app/render.js:26-43 | what `loadPost` writes: the error view "Error loading post content." or a post view, and nothing else |
| Render.ContentPath | app/render.js:27 | the fetched path is `posts/` followed by the content reference unchanged |
| Render.PostHtmlShowsBody | app/render.js:31-38 | the post view holds the back link to index.html and the converted body verbatim; different bodies give different views |
| Render.LoadedHtmlOutcomes | app/render.js:26-43 | `loadPost` writes the error view "Error loading post content." exactly when the fetch or the conversion fails; it writes the post view of a given body exactly when both succeed with that body |
| Render.ErrorHtml | app/render.js:51-53 | the error view is nine characters longer than its message, and the message sits verbatim right after `<h3>` |
| Render.ErrorHtmlShowsMessage | app/render.js:51-53 | the error view holds its message verbatim; different messages give different views |
| Render.NotFoundShowsPhrase | app/render.js:46-48 | the not-found view holds "Post not found" and equals the error view of that phrase and of no other message |
| Render.PostVersusError | app/render.js:31-53 | a post view never equals an error view or the not-found view, whatever the body and the message |
| Render.ListVersusViews | app/render.js:3-53 | the list view never equals a post view, an error view or the not-found view, for any posts, body or message |
| Render.ContentArea.Write | app/render.js:22 | one assignment to `innerHTML`: the new content is exactly the argument, whatever was there before, and the write count grows by one |
| Render.ContentArea.RenderPostList | app/render.js:2-23 | the accumulating loop leaves `innerHTML` equal to the list view of `posts`, independent of the prior contents, after exactly one write |
| Render.ContentArea.LoadPost | app/render.js:26-43 | a failed fetch of `posts/<filename>` or a failed conversion writes the content error view; otherwise the back link and a section holding the converted body are written; there is exactly one write in every case |
| Render.ContentArea.ShowNotFound | app/render.js:46-48 | `innerHTML` becomes exactly `<h3>Post not found</h3>` after one write |
| Render.ContentArea.ShowError | app/render.js:51-53 | `innerHTML` becomes exactly `<h3>` + message + `</h3>` after one write |
| Index.Truthy | app/index.js:13 | the `if (postId)` test: true exactly when the value is neither `null` nor `""` |
| Index.ChooseView | app/index.js:9-28 | a failed manifest gives the error view "Error loading posts."; a `null` or empty `id` gives the list of all posts; any other `id` gives not-found exactly when no post matches it, and otherwise the view of the first matching post's filename |
| Index.ViewHtml | app/index.js:16-26 | the text each of the four calls writes; apart from an error view, only the not-found view writes `<h3>Post not found</h3>` |
| Index.InitBlog | app/index.js:9-28 | the region ends up holding the text of the chosen view, written exactly once: a single view operation per run |
| Index.LinkLeadsToPost | app/index.js:12-16 | a card's `?id=` link text, read back as the `id`, loads that card's post, provided the id text is non-empty and no earlier post shares it |
| Index.OutcomesDistinct | app/index.js:11-27 | once the manifest has loaded, the written text is never the manifest error view, and it is the not-found view exactly when the lookup failed |
| Index.ZeroIdIsLookedUp | app/index.js:13 | the address value `"0"` is truthy and finds the post with numeric id 0; `null` and `""` give the list |

## Left out

- `getPostIdFromUrl` (app/utils.js:2-5) wraps the browser's `URLSearchParams`. Its result is an input of type `Option<string>`. Percent-decoding, `+` handling and `&` inside ids are not modelled, so `LinkLeadsToPost` assumes the browser returns the link's id text unchanged.
- `fetchPosts` is not modelled, because app/posts.js is not part of this model. Nor are `fetch`, promises or timing. Their results are inputs. `loadPost` writes asynchronously in the source and synchronously in the model.
- Two overlapping `loadPost` calls race, and the last write wins. This concurrency case is not modelled.
- HTTP error statuses are not modelled. `fetch` resolves on them, so the model's content `Failure` covers only rejected fetches or `text()` calls.
- `marked.parse` is an external converter. It is a function parameter whose failure stands for a thrown exception.
- `Utils.Canon` covers integer ids only. JavaScript formats numbers of magnitude 1e21 and above in exponent form, loses precision above 2^53, and has non-integer ids. None of this is modelled.
- Missing manifest fields, which JavaScript renders as "undefined", are not modelled. Every field is a string.
- Utils.FindPostById states "the same object" (`found1 === posts[0]` in tests/utils.test.js:19) as equality with an element of the sequence. Posts are values here, so reference identity cannot be expressed.
- In the source, an exception inside the manifest's `.then` callback (app/index.js:11-22) also leads to `showError('Error loading posts.')`, for example when the manifest is not an array. The model's manifest is always a sequence, so only a failed fetch yields that view.
- HTML semantics are not modelled: parsing, `textContent`, `querySelector` and escaping. tests/render.test.js:14-24 reads `textContent`, and the model states the same phrases as substrings of `innerHTML`.
- The Facebook share control expected by tests/render.test.js:26-44 is not modelled, because the code does not produce it.
- Two pieces of app/index.js are left out as glue with no logic: the Materialize sidenav initialisation (lines 32-38) and `console.error` logging (line 25).
- tests/posts.test.js only checks that `fetchPosts` returns a thenable, so there is nothing in it to model.
