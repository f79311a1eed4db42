# Photographer portfolio site — a Dafny model of its logic

The site is a landing page for a photography business. Three parts of it
carry logic, and this project models each as pure functions over immutable
values:

- **The photo viewer** (`src/components/PhotoAlbum.tsx`). It is a two-phase
  state machine over a fixed sequence of photos. The state is the current
  index, the "flipping" flag and the flip direction. A "next", "previous" or
  position-dot intent is refused at the edges and during a flip. Otherwise it
  starts a flip and schedules a callback. The index changes only when that
  callback fires. The 600 ms timer is an explicit `TimerFires` event. The
  pending callbacks are a queue of target indices. The parent's `isOpen`
  prop is part of the state. Keyboard dispatch, the displayed photo and the
  position label are pure functions on top (module `Album`).
- **The portfolio tabs** (`src/pages/Index.tsx`). The grid shows every image
  for the initial `"all"` tab. For any other tab it shows the order-preserving
  filter of the images by category (module `Gallery`).
- **The back end's request handler** (`backend/api/index.py`). It answers from
  the method, the `action` and `category` query parameters and the body. The
  possible answers are the CORS pre-flight, three read endpoints, review
  submission and 404. The three tables are sequences of rows. Each query is a
  selection followed by an `ORDER BY`. Its contract says only what every
  admissible SQL answer satisfies: a permutation of the selected rows, sorted
  by the key, ties in any order. Review submission trims the name and text
  the way Python's `str.strip()` does (module `Api`, with `PyText` for
  stripping).

Shared definitions live in `Seqs`: the filter, the subsequence relation, the
sort by key and what an `ORDER BY` answer is. `PyDict` models Python's `dict.get` with a default, for dictionary entries that may be absent.

Two behaviours of the viewer are easy to miss, and the model keeps both:

- `initialIndex` only seeds the first `useState` (`PhotoAlbum.tsx:19`), so
  reopening the viewer keeps whatever index it had.
- Closing does not cancel a pending callback (`PhotoAlbum.tsx:29-32`), so a
  callback scheduled before a close still moves the index while the viewer
  is hidden. `Album.CloseDoesNotCancel` states both.

## Model

| member | source | states |
|---|---|---|
| `Album.Mount` | src/components/PhotoAlbum.tsx:18-21 | The first render seeds the index with `initialIndex`, which is 0 when the parent passes none (:18), the flag with false and the direction with `next`, and nothing is pending. |
| `Album.MountInv` | src/components/PhotoAlbum.tsx:18-21 | Mounting at an index inside the collection, idle with nothing pending, satisfies the viewer invariant. |
| `Album.GoToNext` | src/components/PhotoAlbum.tsx:25-34 | "Next" changes the state iff the index is below the last position and no flip is running. When it does, it raises the flag, sets direction `next` and schedules a callback to index+1. The index itself never changes. |
| `Album.GoToPrev` | src/components/PhotoAlbum.tsx:36-45 | "Previous" changes the state iff the index is above 0 and no flip is running. When it does, it sets direction `prev` and schedules index−1. The index itself never changes. |
| `Album.Jump` | src/components/PhotoAlbum.tsx:126-135 | A dot click changes the state iff the target differs from the current index and no flip is running. The direction is `next` iff the target lies after the current index. The callback carries the target. |
| `Album.Settle` | src/components/PhotoAlbum.tsx:29-43 | A firing callback sets the index it carries and lowers the flag. This is the body of all three `setTimeout` callbacks: "next" and "previous" at :29-32 and :40-43, and the dot's at :130-133. With nothing pending, nothing happens. Visibility and direction are untouched. |
| `Album.KeyActionOf` | src/components/PhotoAlbum.tsx:47-51 | ArrowRight means next, ArrowLeft means previous, Escape means close, each iff the key is exactly that name. Any other key means nothing. |
| `Album.HandleKey` | src/components/PhotoAlbum.tsx:47-51 | ArrowRight does what "next" does, ArrowLeft what "previous" does, and Escape what closing does. Every other key leaves the state identical. |
| `Album.Step` | src/components/PhotoAlbum.tsx:23-135 | The event wiring: the `return null` guard at :23 means that while the viewer is closed every user event leaves the state identical. A firing callback settles, whether or not the viewer is open. Only a firing callback with something pending changes the index. Visibility changes only on "open", or when the open viewer gets the close button (:63) or Escape (:56). On an open viewer the right chevron (:109) runs "next", the left chevron (:97) runs "previous", a dot (:126) runs the jump to its index, a key (:56) runs the key handler, and the close button (:63) closes. "Open" only shows the viewer. |
| `Album.Close` | src/components/PhotoAlbum.tsx:59-66 | Closing hides the viewer and keeps the index, the flag, the direction and the pending callbacks. |
| `Album.CurrentPhoto` | src/components/PhotoAlbum.tsx:78-85 | The image and title shown are those of the photo at the current index, which is a member of the collection. |
| `Album.Position` | src/components/PhotoAlbum.tsx:86 | The label reads index+1 out of the photo count. The ordinal lies between 1 and the count, and it equals the count iff the last photo is shown. |
| `Album.PositionShowsCurrentPhoto` | src/components/PhotoAlbum.tsx:78-86 | The label and the picture agree: counting from 1, the label's ordinal picks out exactly the photo on display. |
| `Album.StepInv` | src/components/PhotoAlbum.tsx:23-51 | Every event the page can produce preserves the invariant: index in range, one pending callback while flipping and none otherwise, every pending target in range. |
| `Album.RunInv` | src/components/PhotoAlbum.tsx:19-45 | By induction over any event sequence, the invariant holds throughout. Hence the index stays in range and at most one callback is pending. |
| `Album.ReachableInBounds` | src/components/PhotoAlbum.tsx:18-19 | Starting from a mount at a valid `initialIndex`, every reachable state has the index in range and at most one pending callback. |
| `Album.RejectedWhileFlipping` | src/components/PhotoAlbum.tsx:25-45 | During a flip every navigation intent is refused, not queued: no callback is added, and the index, flag and direction stay as they are. Closing still hides the viewer. |
| `Album.IndexChangesOnlyOnSettle` | src/components/PhotoAlbum.tsx:25-45 | If an event changes the index, it was a firing callback, and the new index is the one that callback carried. |
| `Album.NextThenSettle` | src/components/PhotoAlbum.tsx:25-34 | From idle below the last photo, "next" leaves the index unchanged and raises the flag. Its callback then lands on index+1 and leaves the viewer idle with nothing pending. The viewer then shows the following photo, and the label reads index+2. |
| `Album.PrevThenSettle` | src/components/PhotoAlbum.tsx:36-45 | From idle above the first photo, "previous" leaves the index unchanged and raises the flag. Its callback then lands on index−1, idle. The viewer then shows the preceding photo, and the label reads the old index. |
| `Album.JumpThenSettle` | src/components/PhotoAlbum.tsx:126-134 | A dot click to any other valid index lands exactly on it after one callback, whatever the distance, and the invariant still holds. The viewer then shows that photo, and the label reads its 1-based position. |
| `Album.EdgesAreNoOps` | src/components/PhotoAlbum.tsx:25-45 | "Next" at the last photo and "previous" at the first leave the state identical. |
| `Album.NextThenPrevBeforeSettle` | src/components/PhotoAlbum.tsx:25-45 | A "previous" issued before the "next" callback fires is dropped. After the callback only the first move (index+1) has happened. |
| `Album.NextPrevRoundTrip` | src/components/PhotoAlbum.tsx:25-45 | "Next", its callback, "previous", its callback: the viewer is back on the starting photo with nothing pending. |
| `Album.CloseDoesNotCancel` | src/components/PhotoAlbum.tsx:18-32 | A callback scheduled before a close survives it and moves the index while the viewer is hidden. Reopening shows the moved index. |
| `Album.UnboundKeyIgnored` | src/components/PhotoAlbum.tsx:47-51 | Any key other than the two arrows and Escape leaves the state identical. |
| `Album.KeysMatchButtons` | src/components/PhotoAlbum.tsx:47-51 | The right and left arrow keys act exactly as the chevron buttons, and Escape acts as the close button. |
| `Album.SampleNext` | src/components/PhotoAlbum.tsx:78-86 | Three photos, opened without an `initialIndex`: it shows photo A at position (1, 3). After "next" it is flipping. After the callback it is at index 1, position (2, 3). |
| `Album.SampleEdgesAndJump` | src/components/PhotoAlbum.tsx:104-135 | Three photos: "next" at the last is a no-op. A jump from the first to the last records direction `next` and lands on index 2. |
| `Gallery.FilteredImages` | src/pages/Index.tsx:64-66 | For `"all"` the grid is the whole list. Otherwise every shown image has the selected category and no image of that category is missing. Every shown image comes from the list, and the grid is never longer than the list. |
| `Gallery.InitialShowsAll` | src/pages/Index.tsx:61-65 | With the initial tab the grid is exactly the list of images. |
| `Gallery.FilteredExactly` | src/pages/Index.tsx:64-66 | The grid is a subsequence of the list, so its order is kept. Counting duplicates, it holds each image as often as the list does when the image is shown, and never otherwise. |
| `Gallery.FilteredUnique` | src/pages/Index.tsx:64-66 | Any order-preserving selection from the list that holds only shown images, and as many as the list has, is exactly the grid. |
| `Gallery.UnusedCategoryEmpty` | src/pages/Index.tsx:66 | A category that no image carries yields an empty grid. |
| `Seqs.Filter` | src/pages/Index.tsx:66 | The filter keeps only elements that satisfy the predicate and that occur in the input. It keeps every such element, and it is no longer than the input. |
| `Seqs.FilterIsSubseq` | src/pages/Index.tsx:66 | The filter's result is a subsequence of its input, so relative order is kept. |
| `Seqs.FilterMultiset` | src/pages/Index.tsx:66 | Each value occurs in the filter's result as often as in the input if it satisfies the predicate, and never otherwise. |
| `Seqs.FilterLength` | src/pages/Index.tsx:66 | The filter's length is the number of input elements that satisfy the predicate. |
| `Seqs.FilterUnique` | src/pages/Index.tsx:64-66 | The filter is the unique subsequence of the input whose elements all satisfy the predicate and whose length is their count. |
| `Seqs.SortBy` | backend/api/index.py:41 | `ORDER BY … ASC`: the result is sorted by the key and is a permutation of the input. |
| `Seqs.SortedPermutationSameKeys` | backend/api/index.py:41 | Two lists sorted by the same key that hold the same elements agree on the key at every position. So an `ORDER BY` answer is fixed up to the order of equal keys. |
| `Seqs.FilterAll` | src/pages/Index.tsx:64-65 | A filter whose predicate accepts everything returns its input unchanged. This is why the `"all"` tab and the filter agree. |
| `Seqs.FilterAppendRejected` | backend/api/index.py:67 | Appending a row the `WHERE` clause rejects does not change the selection. |
| `PyText.Strip` | backend/api/index.py:108-109 | `str.strip()` returns a contiguous slice of the input. Everything cut off before and after is Python whitespace. The slice neither starts nor ends with whitespace, and it is empty iff the input is all whitespace. |
| `PyText.StripIdempotent` | backend/api/index.py:108-109 | Stripping an already stripped string changes nothing. |
| `Api.MethodOf` | backend/api/index.py:12 | An event without a method is treated as GET. Otherwise the method is the one given. |
| `Api.Param` | backend/api/index.py:26-35 | A query parameter reads as its value when present and as the default otherwise. |
| `Api.ActionOf` | backend/api/index.py:32 | A request without an `action` asks for `portfolio`. Otherwise the action is the parameter's value. |
| `Api.CategoryOf` | backend/api/index.py:35 | A request without a `category` asks for `all`. Otherwise the category is the parameter's value. |
| `Api.PortfolioQuery` | backend/api/index.py:37-49 | The portfolio answer is a permutation of the rows of the category (every row for `"all"`), in ascending `display_order`. |
| `Api.ReviewsQuery` | backend/api/index.py:64-69 | The reviews answer is a permutation of the published rows, projected to the selected columns, in descending `created_at`. |
| `Api.ServicesQuery` | backend/api/index.py:87-92 | The services answer is a permutation of the active rows, projected to the selected columns, in ascending `display_order`. |
| `Api.SubmitReview` | backend/api/index.py:106-140 | The answer is 400 iff the trimmed name or text is empty, and then the database is unchanged. Otherwise it is 201 with the new id, and exactly one row is appended: the trimmed review, rating 5 by default, unpublished. |
| `Api.Handle` | backend/api/index.py:10-151 | OPTIONS gets 200 with the pre-flight headers and an empty body, and nothing changes. Any other method gets JSON headers. Read actions get 200 with an admissible ordered answer. The answer is 404 iff the action is unknown, or is `submit_review` without POST. Only a successful POST `submit_review` changes the database. A POST `submit_review` is answered exactly as review submission answers it. |
| `Api.SubmitBlankRefused` | backend/api/index.py:106-121 | A posted review whose name or text is missing or only whitespace gets 400 with the "name and text required" error, and the database is unchanged. |
| `Api.PreflightIgnoresRest` | backend/api/index.py:14-24 | Two OPTIONS requests get the same answer, whatever their query parameters and bodies. |
| `Api.MissingParametersDefault` | backend/api/index.py:12-35 | A request with no method and no parameters is answered as GET with `action=portfolio` and `category=all`. |
| `Api.ReadsIgnoreMethod` | backend/api/index.py:32-104 | For the three read actions, every method but OPTIONS gets the same answer as GET. |
| `Api.SubmitNeedsPost` | backend/api/index.py:106-151 | `submit_review` with any method but POST or OPTIONS is a 404 and stores nothing. |
| `Api.BlankMeansWhitespaceOnly` | backend/api/index.py:108-112 | A name or text is refused iff it is missing or consists only of whitespace. |
| `Api.SubmitStores` | backend/api/index.py:106-140 | A posted review with a non-blank name and text gets 201 with its id. The stored row has the trimmed name and text, rating 5 when none is given, and is unpublished. The portfolio and services tables are untouched. |
| `Api.SubmittedReviewHidden` | backend/api/index.py:123-127 | Until it is moderated, a submitted review does not change what the reviews endpoint answers. |
| `Api.PortfolioRowsExactly` | backend/api/index.py:37-49 | Counting duplicates, the portfolio answer holds each row as often as the table does when the row is in the category, and never otherwise. |
| `PyDict.DictGet` | backend/api/index.py:107-110 | `d.get(key, default)` gives the stored value when the key is present and the default when it is absent. |
| `Seqs.SelectedProjection` | backend/api/index.py:64-69 | An ordered answer over a projected `WHERE` selection holds the projection of every selected row. Every entry is the projection of a selected row. |
| `Api.ServicesAreActive` | backend/api/index.py:87-92 | Every active service appears in the services answer, and every entry of the answer is the projection of an active service. There is one entry per active row. |
| `Api.ReviewsArePublished` | backend/api/index.py:64-69 | Every published review appears in the reviews answer. Every entry of the answer is the projection of a published review. |
| `Api.AnswersAgreeOnKeys` | backend/api/index.py:37-49 | Any two admissible portfolio answers have the same length and the same `display_order` at every position. |

## Left out

- Rendering, CSS classes, the flip animation and the navigation labels are presentation only.
- The 600 ms delay and wall-clock time are not modelled. A callback fires when a `TimerFires` event arrives, and its delay is not represented.
- React batching is not modelled. Each event is handled atomically against the latest state. React re-renders between discrete events, so each handler sees the state the previous event left.
- Album.CurrentPhoto: an empty photo list, or an `initialIndex` outside the list, makes the render throw at PhotoAlbum.tsx:79, where `photos[currentIndex]` is `undefined`. That throw is not modelled. `Album.CurrentPhoto`, `Album.Position` and `Album.MountInv` require the index to lie inside the list, and every viewer property is stated for such mounts.
- The photo sequence is fixed for the viewer's lifetime. The model does not cover the parent handing a shorter list to a viewer whose index then falls outside it.
- The parent of the viewer is not part of this model. Closing assumes the parent honours `onClose` by setting `isOpen` to false, and reopening is an `Open` event that only sets it back.
- The viewer's chevrons are rendered only away from the edges and are disabled during a flip. The model lets them be clicked anyway, because the handlers apply the same guards.
- `scrollToSection` and its DOM calls, the active-section highlight, and the dynamic icon lookup are left out. They are DOM and third-party library calls.
- The static content arrays are left out, since they are data rather than logic.
- psycopg2 is left out: connections, cursors, `commit`, `close` and SQL text. The tables are sequences of rows, the `WHERE` clauses are filters, and `ORDER BY` is "sorted by key". The model computes the answer with a stable sort, which is one admissible answer. Contracts never rely on tie order.
- The inserted review's `id` and `created_at` come from the database. They are parameters of `Api.Handle`. The table's default for `created_at` is not part of this model.
- `created_at` is a non-null integer timestamp. PostgreSQL's placement of NULLs in a descending sort and the `isoformat()` rendering are left out.
- JSON decoding and encoding are left out. The body is already-decoded optional fields, and a missing body reads as `{}`. Bodies that are not valid JSON, are not objects, or carry non-string names and texts make the Python code raise. Those paths are not modelled.
- The rating is stored as given, without validation. A missing rating becomes 5.
- Api.SubmitReview: the rating is an optional integer. The Python code passes any decoded JSON value to the insert unchanged: a string, a float, a boolean, an object or `null`. Non-integer and `null` ratings, and how the database would coerce or refuse them, are not modelled.
- Api.PortfolioQuery, Api.ReviewsQuery, Api.ServicesQuery: every column is non-null. This covers `category` and `display_order` of the portfolio, `is_published` of the reviews and `is_active` of the services. SQL's NULL rules are not modelled: a `WHERE` drops a row whose category or flag is NULL, and an ascending `ORDER BY display_order` puts NULLs last.
- `os.environ` and the database connection are left out. Headers are modelled only as "pre-flight" or "JSON". Both allow any origin, and the exact header dictionaries are not modelled.
