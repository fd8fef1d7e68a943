# Image registry and log buffer — a Dafny model

This project models the stateful core of a small image upload-and-browse
server. The server keeps an in-memory, insertion-ordered list of uploaded
filenames, with duplicates allowed. It also keeps a navigation cursor for the
`/next` and `/previous` endpoints and a one-shot "latest has been fetched"
flag for `/fetch`. A second, separate core is the in-memory log transport:
a buffer of the 50 most recent log entries, shown on the debug endpoint.

The repository has three copies of the registry:

- the modular service `src/services/imageService.js`, which wraps the cursor
  with `(i + 1) % n` and `(i - 1 + n) % n`;
- `old.js` and `server.js`, which wrap it with explicit comparisons and read
  positions with `Array.prototype.at`.

Modules:

- `Wrappers`: `Option` and `Result`.
- `Js`: JavaScript's `%`, `array[i]` and `array.at(i)`. The remainder
  truncates toward zero and is written as repeated subtraction. Both reads
  return `undefined` (`None`) outside the array.
- `Registry`: the state `(images, cursor, fetched)`, the cursor invariant
  `Valid`, and the pure transitions of `imageService.js`.
- `Routes`: the request handlers of `src/routes/imageRoutes.js`, reduced to
  their effect on the registry and their reply. It also replays a sequence of
  requests from a state.
- `Legacy`: the registry logic of `old.js` and `server.js`. It is the same in
  both files, so one model covers both. On every state that satisfies the
  invariant, its registry logic is proved equal to that of the modular
  service: one request at a time, and over whole runs. The comparison uses
  the modular `/fetch` as intended, serving the latest file. As written, the
  modular `/fetch` fails; see "## Findings".
- `LogBuffer`: `InMemoryTransport.log` of `src/utils/logger.js`, with the
  identical copy in `old.js`.

Each operation is total over all states and follows JavaScript semantics
outside the invariant. A position holding no filename (`undefined`) passed to
`path.join` throws a TypeError; the model writes that as the error
`MissingName`. The properties are stated for states that satisfy the
invariant. `Routes.ReachableValid` proves that every state reachable from
process start satisfies it.

Two details of the code that the model keeps:

- Fetch-latest does not check the one-shot flag or emptiness itself. It sets
  the flag and returns the last element. The gate lives in the router, which
  calls `canFetchImage` first and answers 204 when it is false.
- On an empty list, fetch-latest sets the flag before `path.join(undefined)`
  throws.

## Model

| member | source | states |
|---|---|---|
| Js.Rem | src/services/imageService.js:31 | JavaScript's remainder for a positive divisor: its magnitude is below the divisor and at most the dividend's, it takes the dividend's sign, and a negative dividend gives the negated remainder of its magnitude |
| Js.RemQuot | src/services/imageService.js:38 | For a non-negative dividend, the dividend is a whole number of divisors plus the remainder, so the remainder is the value of `%` |
| Registry.Init | src/services/imageService.js:13-15 | The process starts with an empty list and cursor -1; this satisfies the invariant, and there is nothing to fetch |
| Registry.Add | src/services/imageService.js:17-22 | Appends the filename as the new last element and leaves earlier entries unchanged; the cursor points at the new element, the fetch gate reopens, and the invariant holds afterwards |
| Registry.FetchLatest | src/services/imageService.js:24-27 | Sets the fetched flag and returns the last element wherever the cursor is; list and cursor are unchanged; on an empty list the flag is still set and the call fails |
| Registry.CanFetch | src/services/imageService.js:47 | True exactly when the flag is clear and fetch-latest would return a filename, i.e. the list is non-empty |
| Registry.Next | src/services/imageService.js:29-34 | On an empty list: fails with NoImages and changes nothing. Otherwise: the last index wraps to 0, other indexes advance by one, the element at the new cursor is returned, list and flag are unchanged, and the invariant is kept |
| Registry.Previous | src/services/imageService.js:36-41 | On an empty list: fails with NoImages and changes nothing. Otherwise: index 0 wraps to the last index, other indexes step back, the element at the new cursor is returned, list and flag are unchanged, and the invariant is kept |
| Registry.List | src/services/imageService.js:43-45 | The list shown is the one the other operations read: its last entry is what fetch-latest serves, and under the invariant it is empty exactly while the cursor is unset; its contents after uploads are stated by Routes.UploadsAreListed |
| Registry.NextPreviousInverse | src/services/imageService.js:29-41 | On every valid state, next followed by previous, or previous followed by next, restores the original state (an empty registry is left unchanged by both) |
| Registry.SingleImage | src/services/imageService.js:31-38 | On a one-element list, next and previous keep the cursor at 0 and keep returning that element |
| Registry.MovesKeepGate | src/services/imageService.js:29-41 | Next and previous change neither the list nor the fetched flag, in any state |
| Registry.WrapOnThree | src/services/imageService.js:30-38 | With [a, b, c] and the cursor on c, next returns a and previous returns b |
| Routes.Handle | src/routes/imageRoutes.js:16-55 | An upload without a file is refused and changes nothing; an upload adds its file; fetch answers NotAvailable unless canFetchImage holds; otherwise it closes the gate, keeps the list and cursor, and replies with the last element, which is what fetchLastImagePath returns; only an upload changes the list or reopens the gate; the invariant is preserved |
| Routes.FetchAsWritten | src/routes/imageRoutes.js:25-36 | The modular /fetch as written: it leaves the registry exactly as the corrected handler does, but it never serves a file. When admitted, it closes the gate and fails because getImageOrientation is not a function of the service |
| Routes.FetchAsWrittenLosesUpload | src/services/imageService.js:49-56 | After a fresh upload, the as-written /fetch fails and the next one answers NotAvailable, so the upload is never delivered; the corrected handler serves it |
| Routes.RunKeepsValid | src/services/imageService.js:17-41 | Every sequence of requests from a valid state ends in a valid state |
| Routes.ReachableValid | src/services/imageService.js:13-15 | Every state reachable from process start satisfies the cursor invariant |
| Routes.FetchTwice | src/routes/imageRoutes.js:25-30 | Two fetches with no upload between them: the second answers NotAvailable |
| Routes.GateStaysClosed | src/services/imageService.js:18-47 | Once the flag is set it stays set, and every fetch answers NotAvailable, until a request adds an image |
| Routes.UploadsAreListed | src/services/imageService.js:17-45 | N uploads append their N files in order, each is answered with its filename, and a fetch right after serves the last one |
| Routes.AddResetsGate | src/services/imageService.js:17-27 | Upload a, fetch, upload b, fetch: the fetches serve a and then b |
| Routes.EmptyRegistry | src/routes/imageRoutes.js:25-55 | Before any upload, next and previous fail with NoImages and fetch answers NotAvailable |
| Routes.TwoUploadsWalk | src/routes/imageRoutes.js:16-55 | Upload x.jpg and y.jpg, then fetch, next and previous: they return y.jpg, x.jpg and y.jpg, so the cursor moves independently of the gate |
| Legacy.NextWrapAgrees | old.js:153 | For a cursor in [0, n), "last index goes to 0, otherwise increment" equals (i + 1) % n and stays in [0, n) |
| Legacy.PreviousWrapAgrees | old.js:137 | For a cursor in [0, n), "0 goes to n - 1, otherwise decrement" equals (i - 1 + n) % n and stays in [0, n) |
| Legacy.WrapsDisagreeOffInvariant | server.js:93-117 | Outside the invariant the two index formulations differ: from -1 the conditional previous moves the cursor to -2, outside [0, n), though `at(-2)` still reads the element the modular wrap reads; from n the conditional next goes further out, while the modular one returns into range |
| Legacy.AddNewImage | old.js:80-85 | Clears the flag, appends the filename and sets the cursor to length - 1, exactly like the modular add |
| Legacy.FetchLastImage | server.js:46-49 | Ignores its argument, sets the flag and returns `at(-1)`, the last element, exactly like the modular fetch-latest |
| Legacy.IsValidImageList | server.js:51-53 | The guard holds exactly when `at(-1)` names a file; under the invariant it holds exactly when the cursor points into the list |
| Legacy.CanFetchImage | old.js:94-102 | Not-fetched and a valid list: the same predicate as the modular canFetchImage |
| Legacy.Next | server.js:107-119 | On an empty list: rejected before the cursor is touched, so nothing changes. Otherwise the cursor stays in range, the list and flag are kept, and the element at the new cursor is returned |
| Legacy.Previous | server.js:87-99 | On an empty list: rejected before the cursor is touched, so nothing changes. Otherwise the cursor stays in range, the list and flag are kept, and the element at the new cursor is returned |
| Legacy.NextAgrees | old.js:148-155 | Under the invariant, the legacy /next step equals the modular next: same state and same reply |
| Legacy.PreviousAgrees | old.js:132-139 | Under the invariant, the legacy /previous step equals the modular previous: same state and same reply |
| Legacy.Handle | old.js:110-162 | From a valid state, each legacy request, reduced to its guard and registry call, gives the same reply and the same next state as the registry logic of the modular router (Routes.Handle) |
| Legacy.RunAgrees | server.js:63-126 | From a valid state, the registry logic of a legacy server and that of the modular server (Routes.Run) give the same replies and final state for every request sequence |
| Legacy.SameFromStart | old.js:75-77 | From process start, the registry logic of the legacy and modular copies cannot be told apart on any request sequence |
| LogBuffer.Log | src/utils/logger.js:8-11 | The new entry is last. The result is a suffix of the old buffer plus the entry, so order is kept. Below capacity nothing is dropped; at capacity exactly the oldest entry goes. A buffer within 50 stays within 50 |
| LogBuffer.Replay | old.js:19-31 | Starting empty, the buffer never holds more than 50 entries, whatever the number of log calls, and the newest entry is always last |
| LogBuffer.ReplayKeepsNewest | src/utils/logger.js:3-10 | After k log calls from the empty buffer, it holds exactly the last min(k, 50) entries in arrival order |
| LogBuffer.SlideWindow | old.js:24-28 | Logging one more entry onto the newest-50 window of a history gives the newest-50 window of the extended history: below capacity the entry is appended, at capacity the window slides by one |

## Left out

- Express routing, multer disk storage, static serving and the 404 fallback are not modelled. The upload request is reduced to "file part present or not".
- `res.sendFile` is not modelled, nor is its 500 reply when the file has vanished from disk. File storage is outside the model.
- Path resolution (`path.join`, `path.resolve`, creating the upload directory) is not modelled. Returned paths are the bare filename. The exception is `path.join(undefined)`, which throws; the model writes it as `MissingName`.
- Error message texts are not modelled. `NoImages` stands for both "No images available." and "Invalid image list.". The status codes appear as comments on the `Error` kinds.
- The EXIF header is not modelled. The router calls `imageService.getImageOrientation`, but that function is not defined in imageService.js. Its effect, a TypeError, is modelled only in `Routes.FetchAsWritten`; see "## Findings".
- Routes.Handle: its Ok reply to an admitted fetch models what `fetchLastImagePath` returns, that is, the intended behaviour. The router as written closes the gate and then answers 500 (`Routes.FetchAsWritten`).
- Registry.List: returns a value, whereas `getImageList` returns the live array, through which a caller could mutate the registry. The only caller shown, src/services/debugService.js:6, only serialises the array.
- Which messages each operation writes to the log is not modelled. The buffer logic is modelled for an arbitrary entry type. Winston formatting, timestamps, the console and file transports, and the transport's `callback()` are not modelled.
- The debug snapshot is not modelled: `process.uptime()`, `memoryUsage()`, and the JSON pretty-printing. These are runtime introspection.
- The browser script is not modelled. It is UI.
- Concurrency is not modelled. Each request is one atomic transition.
- `Array.isArray(imageList)` is not modelled as a separate check, because in the model the list is always a sequence.
- Registry.Next: says nothing about states that break the cursor invariant, which no request sequence reaches (`Routes.ReachableValid`).
- Registry.Previous: says nothing about states that break the cursor invariant, which no request sequence reaches.
- Legacy.Next: as above, it is described only on valid states and on the empty list.
- Legacy.Previous: as above, it is described only on valid states and on the empty list.

## Findings

| source | as written | input that shows it | evidently intended | confidence | as-written member | corrected member |
|---|---|---|---|---|---|---|
| src/routes/imageRoutes.js:30-31 | after `fetchLastImagePath` has set the fetched flag, the handler calls `imageService.getImageOrientation`, which the exported object (src/services/imageService.js:49-56) does not have. The call throws a TypeError, so the request ends with a 500 and the gate stays closed | upload `x.jpg`, then GET /fetch twice: a 500, then 204 "No image available."; `x.jpg` is never served | serve the latest file (with its orientation header) and close the gate, as old.js:119-130 and server.js:73-84 do | not executed; high — the export object is the service's only definition | Routes.FetchAsWritten, Routes.FetchAsWrittenLosesUpload | Routes.Handle, Routes.AddResetsGate |
