# Inspiration board: placement, gestures and server list logic in Dafny

The repository is an image board. A Flask server (`main.py`) scrapes image
links from a fixed directory index, caches the list for an hour, and serves a
shuffled, proxied selection of it. A browser script (`static/app.js`) places
the images on a pannable plane. Placement uses a coarse occupancy grid that
caps how many images land in each 360-pixel cell. The script also pans the
camera with inertia and lets a long press pick an image up and drag it.

This project models that logic and proves properties of it.

- **Positions are exact reals.** JavaScript numbers become `real`.
  `Math.floor(wx / 360)` is `(x / 360.0).Floor`.
- **Mutable state is a class.**
  - The script's module variables become the fields of two classes:
    - `Placement.World` holds `used`, `occupancy`, the items, the world size and `loadingBatch`.
    - `Gestures.Stage` holds the camera, the pan anchors, `imageDrag` and the long-press timer.
  - The cache becomes the class `Cache.ImageCache`.
  - Each method's contract ties the new state to a pure function of the old one. The properties
    are then proved about that function: `PlaceStep` and `PlaceAll` for the placement methods,
    `Decay` and `Smooth` for a frame.
- **Randomness, clocks and foreign calls are inputs.**
  - Each `placeImage` call receives the positions its six samples would produce.
  - `random.shuffle` is Fisher–Yates driven by an arbitrary `randbelow` oracle.
  - `time.time()` readings, the fetched page, the upstream response and the `urllib`/`int`
    helpers are parameters.
- **The error paths of the modelled code are modelled.**
  - A failed fetch is `None`.
  - `urlparse` raising `ValueError` (for instance on an unbalanced `[` in the host) is `parse`
    returning `None`. The proxy route does not catch it, so the framework answers 500.
  - `urljoin` raising `ValueError` on an href (for instance `http://[x/a.png`) is `join` returning
    `None`. It is not caught, so the whole fetch fails.
  - Werkzeug refuses a header value that holds a line break. A download whose unquoted file name
    holds one therefore raises outside the `except`, and the framework answers 500.
  - The proxy's 400, 500 and 502 answers are variants of its reply type.

The model follows these facts about the code:

- **No cluster arrangement, tap-to-expand or tray.** The script has no such code. A tap on an
  image only ends the pan.
- **The pan flag survives an image drag.** A pointer-up during an image drag skips `endPan`
  (static/app.js:214-221), so `isPanning` stays true. A later move without a pressed button then
  pans the camera from the earlier press. `Gestures.HoverAfterDragPans` proves this.
- **Drag velocity.** `movePan` sets the inertia to the whole offset from the press times 0.08
  (static/app.js:181-182), not to the last step's speed.
- **Smoothing.** The view follows the target by a fixed factor of 0.14 per frame, whatever the
  frame time (static/app.js:71-72).
- **World growth.** The world grows by 1.06 on each axis once per non-empty batch
  (static/app.js:141-142), before any image of the batch is placed.

## Model

| member | source | states |
|---|---|---|
| `Grid.KeyFor` | static/app.js:51 | A position lies in the half-open 360×360 square of its key. |
| `Grid.OccGet` | static/app.js:52 | Defines the cell read: the stored count, or 0 for a cell without an entry. What the read means on a real board, the number of placements in the cell, is `Placement.OccGetCounted`. |
| `Grid.KeyForIsTheCell` | static/app.js:51 | The key of a position is the one cell whose half-open 360×360 square contains it. |
| `Grid.OccInc` | static/app.js:53 | The cell of the position goes up by exactly one. Every other cell keeps its count. The key set gains that cell and nothing else. |
| `Grid.Clamp` | static/app.js:54 | The result lies in `[a, b]` when `a <= b`. It is `n` inside the range, `a` below it and `b` above it. When the bounds cross, `a` wins (`Math.max` is outermost). |
| `Grid.HistogramCounts` | static/app.js:52-53 | After any sequence of increments, the count read for a cell is the number of increments that hit it, so 0 for a cell never incremented. |
| `Grid.HistogramKeys` | static/app.js:52-53 | A cell has an entry exactly when some increment hit it. |
| `Placement.EmptyBoardInv` | static/app.js:19-21 | The empty `used` set and empty grid satisfy the board invariant. |
| `Placement.FirstFree` | static/app.js:107-116 | The attempt loop picks the first of the six candidates whose cell is below `MAX_PER_CELL`; every earlier candidate's cell is full. `None` means all six are full. |
| `Placement.PlaceStep` | static/app.js:104-120 | Preserves the invariant: no cell exceeds 6, `used` is exactly the placed URLs, and no URL is placed twice. A used URL changes nothing. `used` only gains the URL. Items are only appended. |
| `Placement.PlaceStepOutcome` | static/app.js:115-120 | If all candidates are full, the board is unchanged. Otherwise `used` gains the URL, the item goes at the first free candidate, and exactly that candidate's cell rises by one. |
| `Placement.PlaceAll` | static/app.js:146-149 | A batch preserves the invariant. `used` grows only by the batch's URLs. At most one item is appended per URL. |
| `Placement.PlaceStepCounted` | static/app.js:119-120 | Each cell's count stays equal to the number of placements made in it. |
| `Placement.PlaceAllCounted` | static/app.js:146-149 | The same holds across a whole batch. |
| `Placement.OccGetCounted` | static/app.js:52-53 | On a board whose grid counts its placements, `occGet` of any position is the number of placements made in that position's cell. This is the density that `placeImage` compares with `MAX_PER_CELL`. |
| `Placement.PlaceAllPlaced` | static/app.js:105 | A batch whose URLs are all placed already leaves the board unchanged. |
| `Placement.TwoImageBatch` | static/app.js:104-149 | Two new URLs on an empty board both land at their first candidates. Offering one of them again changes nothing. |
| `Placement.MoveTo` | static/app.js:242-247 | A drag rewrites only the held item's position. `used`, the grid and the other items are untouched, and the invariant holds. |
| `Placement.World.constructor` | static/app.js:19-25 | The initial state is an empty board whose grid counts its (no) placements, the canvas size, and no batch in flight. |
| `Placement.World.PlaceImage` | static/app.js:104-130 | The new state is `PlaceStep` of the old one. The invariant is kept, and so is the grid counting the placements. |
| `Placement.World.LoadMore` | static/app.js:132-134 | Starts a batch exactly when none is in flight. While one is, nothing changes. |
| `Placement.World.FinishBatch` | static/app.js:137-154 | An empty or failed list leaves the board and the world size unchanged. A non-empty list grows the world by 1.06 and places its first 28 URLs. The flag is lowered in every case, and the grid still counts the placements. |
| `Placement.World.PlaceBatch` | static/app.js:145-149 | The loop calls `placeImage` on at most `MAX_PER_BATCH` URLs, counting duplicates and drops. The result is `PlaceAll` on that prefix. |
| `Placement.World.MoveItem` | static/app.js:244-247 | The new state is `MoveTo` of the old one. The invariant is kept, and so is the grid counting the placements. |
| `Camera.Decay` | static/app.js:65-68 | One frame of friction never increases the speed. A surviving velocity keeps its sign and is at least 0.01. |
| `Camera.Smooth` | static/app.js:71-72 | The view covers 14% of the gap to the target. It stays between the old view and the target, and a gap that is not zero strictly shrinks. |
| `Camera.CoastStops` | static/app.js:62-68 | A velocity of magnitude at most n/1000 reaches exactly zero within n+1 free frames. |
| `Gestures.MovedFar` | static/app.js:205 | Defines the cancel test: more than 6 from the press on either axis. Its effect is stated by `Gestures.Stage.PointerMove`, and `Gestures.MovedFarIsDistance` shows that it measures distance. |
| `Gestures.MovedFarIsDistance` | static/app.js:205 | A pointer that has not moved never cancels the hold. The test gives the same answer with the press and the pointer exchanged. |
| `Gestures.Stage.constructor` | static/app.js:26-38 | Starts with the camera at the origin, no pan, no image drag and no timer. |
| `Gestures.Stage.Tick` | static/app.js:60-72 | Inertia moves and decays the target only when neither panning nor dragging. The view then follows the target. |
| `Gestures.Stage.Recenter` | static/app.js:77 | Zeroes the target and the inertia. The view is not touched. |
| `Gestures.Stage.Wheel` | static/app.js:157-160 | The impulse has the sign opposite to the wheel delta and goes on the velocity. With shift held, the vertical delta drives the horizontal axis. |
| `Gestures.Stage.StartPan` | static/app.js:164-171 | Raises the pan flag, anchors the pointer and the target, and zeroes the inertia. |
| `Gestures.Stage.MovePan` | static/app.js:172-184 | While panning with no image drag, the target is the anchor plus the offset and the velocity is the offset × 0.08. Otherwise nothing changes. |
| `Gestures.Stage.EndPan` | static/app.js:185-189 | Lowers the pan flag. |
| `Gestures.Stage.PointerDown` | static/app.js:191-202 | A press on an item re-arms the timer for that item. A press elsewhere leaves the timer alone. Every press starts a pan. |
| `Gestures.Stage.BeginImageDrag` | static/app.js:223-230 | Holds the item at its current world position. |
| `Gestures.Stage.LongPressFires` | static/app.js:197-199 | A pending timer disarms itself and picks up its item. With no timer armed, nothing happens. |
| `Gestures.Stage.UpdateImageDrag` | static/app.js:237-248 | The held item moves to its start position plus the pointer offset. The grid is not updated. |
| `Gestures.Stage.EndImageDrag` | static/app.js:249-253 | Clears the image drag. |
| `Gestures.Stage.PointerMove` | static/app.js:203-213 | A move more than 6 from the press on either axis cancels the timer. During an image drag only the item moves and the camera is untouched; otherwise the pan rule applies. |
| `Gestures.Stage.PointerUp` | static/app.js:214-221 | Always cancels the timer. It ends an image drag if there is one and leaves the pan flag as it was; otherwise it ends the pan. |
| `Gestures.HoldAndDrag` | static/app.js:191-248 | Press on an item, hold until the timer fires, move: the item is held and sits at its start plus the pointer offset. The camera's target and view stay put, and the pan stays anchored at the press. |
| `Gestures.HoldDragRelease` | static/app.js:191-253 | Hold, drag and release move that item by the pointer offset and no other item. The target and view end where they started. No drag or timer is left, but the pan flag stays raised, anchored at the press. |
| `Gestures.HoverAfterDragPans` | static/app.js:172-221 | After a hold, drag and release, a move with no button down pans the target by the offset from the earlier press and sets the inertia to that offset × 0.08. |
| `Gestures.TapIsPanRelease` | static/app.js:169-221 | In a quick press and release on an item, the press starts a pan, which zeroes the inertia, so a tap stops a coasting camera. The release then ends the pan. No timer is left, and the target does not move. |
| `Gestures.FlingThenTick` | static/app.js:60-69 | A released pan keeps going: the next frame adds the drag velocity to the target and decays it. |
| `Strings.LeadingSpaces` | main.py:43 | The length of the whitespace run an href starts with: every character before it is whitespace, and the one at it, if any, is not. |
| `Strings.TrailingSpaces` | main.py:43 | The length of the whitespace run an href ends with: every character after the cut is whitespace, and the one before it, if any, is not. |
| `Strings.TrimLeft` | main.py:43 | Returns a suffix of the input. Everything cut off is whitespace, and the result does not start with whitespace. |
| `Strings.IsSpace` | main.py:43 | Python's whitespace set for `strip()`. No visible ASCII character is whitespace. |
| `Strings.TrimRight` | main.py:43 | Returns a prefix of the input. Everything cut off is whitespace, and the result does not end with whitespace. |
| `Strings.Strip` | main.py:43 | `strip()` never lengthens the input. The result neither starts nor ends with whitespace, and a string without whitespace is kept as it is. |
| `Strings.StripSlice` | main.py:43 | The stripped href is the slice of the input left after a run of whitespace is cut from each end: everything before and after it is whitespace. |
| `Strings.StripEmpty` | main.py:43-45 | An href strips to nothing exactly when it is whitespace only. |
| `Strings.LowerChar` | main.py:46 | Defines the one-character form of `lower()`. Its meaning is stated by `Strings.LowerTwice`. |
| `Strings.Lower` | main.py:46 | The ASCII lowering keeps the length and lowers character by character. |
| `Strings.LowerTwice` | main.py:46 | Lower-casing is idempotent, and the lower-cased string has no ASCII capitals. |
| `Strings.Take` | main.py:93 | A Python `[:n]` slice is a prefix. Its length is `min(n, len)` for `n >= 0`; a negative `n` counts from the end. |
| `Http.Arg` | main.py:86 | Defines `request.args.get`: `None` exactly when the argument is absent. It is used by `Api.RequestedLimit`, whose meaning is stated by `Api.EffectiveLimit`, and by `Proxy.MissingUrl`. |
| `Http.Truthy` | main.py:86 | Defines the flag test: the argument is present and is "1", "true" or "yes". What the refresh flag does is stated by `Api.RefreshFlag`. |
| `ImageList.HasImageSuffix` | main.py:46-47 | A name that passes the extension test has at least four characters and a `.` four or five from the end. |
| `ImageList.ImageSuffixIgnoresCase` | main.py:46-47 | The extension test gives the same answer on a string and on its lower-cased form. |
| `ImageList.Keep` | main.py:43-52 | Defines the per-href filter: strip, extension test, join, and no `?` in the joined URL. What the loop keeps is stated by `ImageList.CollectedSound` and `ImageList.CollectedComplete`. |
| `ImageList.CollectedSound` | main.py:42-52 | Every collected URL is the joined form of some kept href and carries no query string. |
| `ImageList.CollectedComplete` | main.py:42-52 | Every kept href's URL is collected. |
| `ImageList.CollectImageUrls` | main.py:41-52 | The href loop fails exactly when some kept-looking href makes `urljoin` raise. Otherwise it returns the collected list. |
| `ImageList.Unique` | main.py:53-61 | The deduplicated list has no duplicates and exactly the input's members. |
| `ImageList.UniqueOrder` | main.py:53-61 | Kept URLs appear in the order of their first occurrences. |
| `ImageList.UniqueOfDistinct` | main.py:53-61 | A list without duplicates is returned unchanged. |
| `ImageList.Dedup` | main.py:54-60 | The `seen`-set loop computes the deduplicated list. |
| `ImageList.FetchRemoteImageUrls` | main.py:37-61 | The fetch computes `Scraped`: it fails when the page fetch fails or `urljoin` raises, and otherwise it returns the collected list, deduplicated. |
| `ImageList.Scraped` | main.py:37-61 | A scrape fails exactly when the page fetch fails or `urljoin` raises on some href. A successful scrape has no duplicates and holds exactly the URLs the href loop collects. |
| `Cache.ImageCache.constructor` | main.py:21-23 | The cache starts empty, stamped at the epoch. |
| `Cache.ImageCache.Get` | main.py:25-31 | Refetches exactly when forced, empty, or strictly older than 3600 s. A refetch that succeeds stores and stamps the scraped list and reports it refreshed. A failed refetch, whether the page fetch failed or `urljoin` raised, leaves the cache as it was. Otherwise the stored list is returned with `refreshed` false. |
| `Cache.NeedsRefresh` | main.py:26-27 | Defines the refetch test. Its meaning is stated by `Cache.ImageCache.Get` and `Cache.FreshForOneTtl`. |
| `Cache.FreshForOneTtl` | main.py:26-27 | An unforced get on a non-empty list is served from the cache exactly up to one TTL after the stamp. |
| `Cache.GetTwice` | main.py:25-31 | Two unforced gets, the second within an hour of the stamp the first leaves (its fetch time if it refetched, the old stamp otherwise): the second returns the first get's non-empty list, unrefreshed. |
| `Cache.ColdStartTwice` | main.py:21-31 | On a new cache the first get fetches, and a second get within an hour of that fetch returns the same non-empty list from the cache, at any clock reading. |
| `Api.RequestedLimit` | main.py:84 | Defines `limit`: the parsed argument, or 60 when absent or not an integer. Its meaning after the clamp is stated by `Api.EffectiveLimit` and `Api.ApiImages`. |
| `Api.ClampLimit` | main.py:85 | The limit is always in 1..200, and a limit already in that range is kept. |
| `Api.EffectiveLimit` | main.py:84-85 | The limit used is in 1..200, and 60 when none is given. |
| `Api.Shuffle` | main.py:91-92 | The shuffle is a permutation of the list. |
| `Api.Proxied` | main.py:95 | Defines the map of `ProxyPath` over the selection. Its meaning is stated by `Api.ProxiedDistinct` and `Api.Respond`. |
| `Api.ProxyPath` | main.py:95 | A proxied path is the `/proxy?url=` prefix followed by exactly the quoted URL, so the quoted URL can be read back from it. |
| `Api.ProxiedDistinct` | main.py:95 | When `quote` maps distinct URLs to distinct texts, a selection without duplicates is proxied to paths without duplicates. |
| `Api.RefreshFlag` | main.py:86-87 | A set refresh flag forces a refetch whatever the list's age. An unset one refetches only an empty or stale list. "yes" sets the flag; "True", "0" and an absent argument do not. |
| `Api.Respond` | main.py:88-100 | `count` is the cached list's size. An empty cache gives no images and count 0. The images are `min(limit, count)` proxied URLs from the shuffle's front, and no URL appears more often than it is listed. |
| `Api.ApiImages` | main.py:83-100 | The response is `Respond` on the cache's list after `Get`, with the refresh flag and the clamped limit. A failed refresh raises. The cache's list and stamp change exactly when a refresh succeeds. |
| `Strings.TakeIsPrefix` | main.py:111 | Cutting the path to the prefix's length and comparing is `startswith`. |
| `Proxy.MissingUrl` | main.py:106-107 | Defines the missing-url test: the argument is absent or empty. Its effect, the 400 "missing url" answer, is stated by `Proxy.ProxyRoute`. |
| `Proxy.Allowed` | main.py:109-114 | A URL is allowed exactly when its scheme and netloc equal the source's and its path starts with the source path. |
| `Proxy.LastSegment` | main.py:123 | `rsplit("/", 1)[-1]` is the suffix after the last `/`: it contains no `/` and is the whole path when the path has none. |
| `Proxy.LastSegmentAfterSlash` | main.py:123 | The last segment of `dir + "/" + name`, where `name` has no `/`, is `name`. |
| `Proxy.DownloadName` | main.py:123 | The name is never empty and has no `/`. It is "image" for an empty path or one ending in `/`; otherwise it is the last segment. |
| `Proxy.DownloadNameExamples` | main.py:123 | A file under the source directory downloads under its own name, and the directory downloads as "image". |
| `Proxy.ProxyRoute` | main.py:104-128 | A missing or empty `url` gives "missing url". A URL that fails the allow-list gives "forbidden source". A server error comes exactly when `urlparse` raises, or when a download is asked for and its unquoted name holds a line break. A fetch error comes exactly when the checks pass and the fetch fails. An image comes otherwise: the upstream body, its Content-Type (default "image/jpeg"), the cache header, and the two download headers only for a truthy `download` flag. |
| `Proxy.ProxyStatus` | main.py:104-128 | The route answers 400 exactly for a missing URL or one that fails the allow-list, and 500 exactly for a parse failure or a header-breaking download name. It answers 502 exactly for a failed fetch of an allowed URL, and 200 exactly in the remaining cases. |
| `Proxy.ServedHeadersAreSafe` | main.py:120-125 | No header value of a served image holds a line break. |
| `Proxy.ContentDisposition` | main.py:124 | The header value is `attachment; filename="`, the file name, and a closing quote, so the name can be read back from it. It holds a line break exactly when the name does. |

## Left out

- **Browser plumbing.** Element creation and styling, `IntersectionObserver` lazy loading, pointer
  capture, the `panning` body class, `applyPan`, `requestAnimationFrame` and the nine-second
  `setInterval` are user interface and I/O. Animation frames and timer expiry are events the
  caller delivers.
- **The 280 ms long-press delay.** It is not modelled; the timer firing is an event.
- **`appendParam`.** It is a wrapper over the browser `URL` API and feeds only the download link.
- **Floating point.** Positions, velocities and the camera are exact reals. Rounding is not
  modelled, so `Decay` and `Smooth` hold of the real-number arithmetic.
- **`rand` and the 0.5 bias blend.** These are not modelled; `placeImage` receives the
  positions its samples produce.
- **`lastPanAt`.** It is written but never read.
- **`beginImageDrag`'s pointer offset and `zIndex`.** The offset is computed but never read, and
  `zIndex` is styling.
- **`API.list(72)`.** The request is not modelled; `FinishBatch` receives its result.
- **Concurrency between `loadMore`'s two halves.** Only the reentrancy guard around the `await` is
  kept, through the `LoadMore`/`FinishBatch` split.
- **Server libraries.** `requests`, BeautifulSoup (the page is its href values),
  `urljoin`/`urlparse`/`quote`/`unquote` and Flask's `int` conversion are parameters. Their
  semantics are not modelled.
- **Server routes.** Flask routing, `jsonify`, the CORS headers of `add_cors_headers`, `index`,
  `healthz`, argparse and the start-up cache warm-up are left out.
- **Text and character handling.**
  - The 502 body's exception text is not modelled.
  - Only a query parameter's first value is seen.
  - Lowercasing covers ASCII only; the other Unicode lowercase mappings are left out.
  - Werkzeug adds "; charset=utf-8" to a `text/*` mimetype. The model keeps the upstream
    Content-Type as given.
  - Werkzeug's encoding of header values outside Latin-1 is not modelled. Only line breaks are
    treated as header-breaking.
- Api.Shuffle: states only that the result is a permutation of its input, not which one. The order depends on `randbelow`, and `randbelow(i + 1) % (i + 1)` keeps any oracle in range.
- Gestures.Stage.UpdateImageDrag: the item's on-screen style is not modelled, only its world position.
