# Face-tracking demo: client heuristics, send policy and file-backed CRUD API

This project models the small amount of logic in a face-tracking demo. The
demo has two halves joined by one HTTP call.

- The browser client describes the first face that a landmark model reports.
  It gives the face a position (Left, Right, Top, Bottom or Center, from the
  box centre against the thirds of the frame) and a size (Small, Medium or
  Large, from the ratio of box area to frame area). It also estimates a head
  pose, which is zero when a needed landmark is missing. It keeps detection
  state per tick and submits a record only when the face count changes.
- The API stores each submission as two sibling files in one flat
  directory: `face_data_<ts>.json` holds the record and `screenshot_<ts>.png`
  holds the image. It offers create, list, read-one, update and delete.

Modules, one file each:

- `Wrappers` (`wrappers.dfy`): `Option` and `Result`.
- `JsValues` (`js_values.dfy`): the JavaScript values a JSON body can carry,
  and JavaScript falsiness, which the handlers' `!x` test uses.
- `FaceTracking` (`face_tracking.dfy`): the client. The heuristics are
  functions over exact reals. The `Tracker` class holds the fields
  `faceDetected`, `numFaces`, `faceData` and `prevNumFaces`, which the
  detection tick (`Detect`) and the count-change effect (`SendEffect`)
  update.
- `FaceModel` (`face_model.dfy`): the storage helpers.
  - `Split` follows JavaScript's `String.prototype.split` for a non-empty
    separator. `Payload` is `split(';base64,').pop()`.
  - The `FaceStore` class holds the directory as a `map` from file name to
    content. JSON text is kept as the value it encodes. A PNG is kept as the
    base64 text it is decoded from.
- `FaceDataController` (`face_data_controller.dfy`): the five handlers.
  - Step functions (`SaveStep`, `GetStep`, `ListStep`, `DeleteStep`) give
    each handler's new directory and response.
  - The `Controller` class's methods call the `FaceStore` helpers and are
    proved to compute those step functions.
  - The lemmas prove the CRUD properties about the step functions.

Two behaviours of the code go beyond its plain CRUD reading, and the model
keeps both:

- A create or update whose `screenshot` is truthy but not a string has no
  `split` method, so `saveScreenshot` throws. This happens after the record
  write has been issued. The model gives status 500 (`Crashed`) with only
  the record written, so the pair is left incomplete
  (`NonStringScreenshotUnpairs`). For a string screenshot the status is
  always 200.
- Get-by-timestamp parses the file it reads. A record file that held
  non-JSON text would make `JSON.parse` throw inside the read callback,
  which ends the process without a response. `Controller.Valid()` (record
  files hold JSON) is kept by every handler, so this cannot happen in the
  model.

## Model

| member | source | states |
|---|---|---|
| `FaceTracking.LeftWins` | client/src/App.jsx:205-209 | a centre left of one third of the width is Left whatever its vertical position, because the left test comes first |
| `FaceTracking.PositionColumns` | client/src/App.jsx:209-212 | Right only when the centre is beyond two thirds of the width; Top, Bottom only when the centre is in the closed middle third of the width, and then above one third, below two thirds of the height |
| `FaceTracking.RightRegion` | client/src/App.jsx:209-210 | for a positive width, Right exactly when the centre is beyond two thirds of the width |
| `FaceTracking.CenterRegion` | client/src/App.jsx:209-213 | Center exactly when the centre lies in the closed middle third of both axes; the boundaries belong to Center |
| `FaceTracking.CentredBoxIsCenter` | client/src/App.jsx:205-213 | a box centred on the frame centre is Center |
| `FaceTracking.SizeThresholds` | client/src/App.jsx:229-233 | Small exactly below 0.15, Large exactly above 0.4, Medium on the closed range between; 0.15 and 0.4 themselves are Medium |
| `FaceTracking.SizeMonotone` | client/src/App.jsx:229-233 | a larger ratio never gives a smaller size in the order Small < Medium < Large |
| `FaceTracking.FaceSizeMonotone` | client/src/App.jsx:224-233 | in one frame, a box of larger area never gets a smaller size |
| `FaceTracking.MissingLandmarkZeroPose` | client/src/App.jsx:242-249 | a mesh lacking landmark 1, 145 or 374 gives pitch, yaw and roll of 0 |
| `FaceTracking.PoseUsesThreeLandmarks` | client/src/App.jsx:243-255 | when present, the pose depends on landmarks 1, 145 and 374 only |
| `FaceTracking.Describe` | client/src/App.jsx:155-169 | a record exists exactly when the face has both mesh and box; it carries the mesh length as `landmarks`, the box, its position, size and pose, and the confidence or 0 when that is missing |
| `FaceTracking.Tracker.constructor` | client/src/App.jsx:58-63 | the initial state: no face, count 0, no record, previous count 0 |
| `FaceTracking.Tracker.Detect` | client/src/App.jsx:132-195 | a tick that is not ready changes nothing; a non-array result or an error resets flag, count and record; otherwise flag = (count > 0), count = number of faces, record from the first face or none; keeps flag = (count > 0) |
| `FaceTracking.Tracker.SendEffect` | client/src/App.jsx:262-270 | sets the previous count to the current one; sends (record, screenshot) exactly when the count differed from the previous one, is positive and a record exists |
| `FaceTracking.Tracker.Tick` | client/src/App.jsx:116-121 | a tick then the effect: the new flag, count and record are those the frame gives (unchanged when not ready, reset on a non-array result or error, else the face count and the first face's record) and the previous count becomes the count; from a settled state a submission goes out exactly when the count changed to a positive value with a record; an unchanged count never sends |
| `FaceModel.Split` | api/models/faceModel.js:20 | a split always has at least one part |
| `FaceModel.SplitJoin` | api/models/faceModel.js:20 | joining the parts with the separator gives back the input |
| `FaceModel.PartsAreFree` | api/models/faceModel.js:20 | no part of a split contains the separator |
| `FaceModel.LastPartIsSuffix` | api/models/faceModel.js:20 | the last part is a suffix of the input |
| `FaceModel.NoSeparatorOnePart` | api/models/faceModel.js:20 | without the separator the split is the input alone |
| `FaceModel.LastPartAfterLastSeparator` | api/models/faceModel.js:20 | for a separator whose occurrences cannot overlap, the last part of `x + sep + p` is `p` when `p` has no separator |
| `FaceModel.MarkerIsBorderless` | api/models/faceModel.js:20 | two occurrences of `;base64,` can never overlap |
| `FaceModel.Payload` | api/models/faceModel.js:19-21 | the persisted payload is a suffix of the input that contains no `;base64,`; without a marker it is the whole input |
| `FaceModel.PayloadAfterMarker` | api/models/faceModel.js:20 | the payload of `prefix + ";base64," + p` is `p` when `p` has no marker: the segment after the last marker |
| `FaceModel.FaceStore.constructor` | api/index.js:88-104 | the directory starts empty, as the startup wipe leaves it |
| `FaceModel.FaceStore.SaveFaceData` | api/models/faceModel.js:9-11 | sets the one entry to the record, replacing any previous content; every other entry is unchanged |
| `FaceModel.FaceStore.SaveScreenshot` | api/models/faceModel.js:19-22 | for a string, sets the one entry to its payload and nothing else; any other value throws and writes nothing |
| `FaceModel.FaceStore.GetAllFaceData` | api/models/faceModel.js:29-31 | exactly the set of names in the directory |
| `FaceModel.FaceStore.GetFaceData` | api/models/faceModel.js:38-43 | an absent path is an error; a JSON entry gives its value; an image entry is taken to fail to parse |
| `FaceModel.FaceStore.DeleteFaceData` | api/models/faceModel.js:50-52 | removes only the given entry; reports an error when it was absent |
| `FaceModel.FaceStore.DeleteScreenshot` | api/models/faceModel.js:59-61 | removes only the given entry; reports an error when it was absent |
| `FaceDataController.NamesInjective` | api/controllers/faceDataController.js:20-21 | different timestamps give different record names and different screenshot names |
| `FaceDataController.NamesDisjoint` | api/controllers/faceDataController.js:20-21 | no record name is a screenshot name |
| `FaceDataController.RecordNameMiddle` | api/controllers/faceDataController.js:20 | the timestamp is recovered from between the record prefix and suffix |
| `FaceDataController.ImageNameMiddle` | api/controllers/faceDataController.js:21 | the timestamp is recovered from between the screenshot prefix and suffix |
| `FaceDataController.DecimalInjective` | api/controllers/faceDataController.js:19-21 | two different instants never render to the same timestamp |
| `FaceDataController.InvalidBodyWritesNothing` | api/controllers/faceDataController.js:15-17 | a falsy `faceData` or `screenshot` gives 400 and leaves the directory unchanged |
| `FaceDataController.SaveWritesPair` | api/controllers/faceDataController.js:19-37 | a valid body with a string screenshot sets exactly the record and the screenshot of one timestamp, leaves every other entry, and reports 200 |
| `FaceDataController.NonStringScreenshotUnpairs` | api/controllers/faceDataController.js:23-35 | a truthy non-string screenshot leaves the new record without its image, with status 500 |
| `FaceDataController.DeleteRemovesPair` | api/controllers/faceDataController.js:110-129 | delete removes exactly the two sibling entries, changes no other entry, and reports 200 |
| `FaceDataController.SavePreservesWellFormed` | api/controllers/faceDataController.js:19-35 | after create or update every record file still holds JSON |
| `FaceDataController.SavePreservesPaired` | api/controllers/faceDataController.js:19-35 | create or update with a string screenshot keeps records and screenshots paired |
| `FaceDataController.DeletePreserves` | api/controllers/faceDataController.js:110-127 | delete keeps record files JSON and keeps records and screenshots paired |
| `FaceDataController.GetAnswers` | api/controllers/faceDataController.js:60-70 | over well-formed storage, get answers 200 exactly when the record file exists and 404 otherwise |
| `FaceDataController.GetAfterSave` | api/controllers/faceDataController.js:19-23 | a get after a valid save with the same timestamp returns the saved record |
| `FaceDataController.GetAfterDelete` | api/controllers/faceDataController.js:110-119 | a get after a delete of the same timestamp is 404 |
| `FaceDataController.SaveLeavesOthers` | api/controllers/faceDataController.js:79-100 | saving under one timestamp does not change what a get of another timestamp returns |
| `FaceDataController.CreatesAtDistinctInstants` | api/controllers/faceDataController.js:19-23 | two creates at different instants do not collide: the first record is still readable after the second |
| `FaceDataController.Controller.constructor` | api/index.js:100-104 | the handlers start over an empty directory |
| `FaceDataController.Controller.CreateFaceData` | api/controllers/faceDataController.js:12-38 | computes the save step under the decimal rendering of the current instant and keeps record files JSON |
| `FaceDataController.Controller.GetAllFaceData` | api/controllers/faceDataController.js:45-53 | computes the list step: 200 with exactly the names in the directory |
| `FaceDataController.Controller.GetFaceDataByTimestamp` | api/controllers/faceDataController.js:60-71 | reads only the record file of the timestamp: 200 with its content when present, 404 otherwise |
| `FaceDataController.Controller.UpdateFaceDataByTimestamp` | api/controllers/faceDataController.js:78-103 | computes the save step under the caller's timestamp and keeps record files JSON |
| `FaceDataController.Controller.DeleteFaceDataByTimestamp` | api/controllers/faceDataController.js:110-130 | computes the delete step, ignoring whether either file existed, and keeps record files JSON |
| `FaceDataController.Controller.Save` | api/controllers/faceDataController.js:23-35 | the record is written first, then the screenshot; a non-string screenshot leaves only the record written and gives 500 |

## Left out

- Rendering, the webcam and canvas, `drawMesh`, `runFacemesh`, the 100 ms
  interval and FPS timing are UI and timers. The effect is modelled as
  running after every tick. When `numFaces` and `faceData` did not change,
  React would not run it, but it would then do nothing anyway.
- `captureScreenshot` and the `fetch` in `sendDataToBackend` are device and
  network I/O. The screenshot is a parameter of `SendEffect`. The
  submission is returned instead of being sent.
- The landmark model (`facemesh.load`, `estimateFaces`) is a foreign library.
  Its result is the `Estimate` parameter of `Detect`.
- `Math.atan2` is floating-point trigonometry. It is a function parameter of
  `EstimateHeadPose`; only the arithmetic on its arguments is modelled.
- The heuristics use exact real arithmetic, not IEEE doubles, so 0.15 and 0.4
  are exact.
- `FaceSize`, `Describe` and `Tracker.Detect` require positive frame
  dimensions. With a zero-sized frame, JavaScript would divide by zero; a
  ready video has positive dimensions.
- The three state updates of one tick (`setFaceDetected`, `setNumFaces`,
  `setFaceData`) are assumed to be batched into one render, as React 18
  does after an `await`, so the effect sees the new count together with the
  new record. Under a legacy root without automatic batching the effect
  could run between `setNumFaces` and `setFaceData`, see the new count with
  the old record, and send nothing on a change from 0 faces to 1; that case
  is not modelled. Neither are overlapping asynchronous `detect` calls.
- `JSON.stringify` and `JSON.parse` are library calls. A record is stored
  as the value it encodes, so their round trip is the identity on it. Node's
  base64 decoding is also a library call: an image is stored as the base64
  text it is decoded from.
- Controller handlers: the response goes out before the write and unlink
  callbacks run. A callback that sees an error logs it and then tries to
  send a second response. That second send throws
  `ERR_HTTP_HEADERS_SENT` inside a file-system callback, where nothing
  catches it, so the Node process exits, and the next start wipes the
  directory. This holds for a failed record or screenshot write in create
  (faceDataController.js:24-26, :31-33) and update (:89-91, :96-98), and for
  a failed unlink in delete (:116-118, :123-125). Each handler is modelled
  as one sequential step whose writes all take effect, its status comes
  only from validation, and the process always carries on.
- `FaceDataController.Controller.DeleteFaceDataByTimestamp`: does not model
  the process exit. Deleting an unknown timestamp, deleting the same
  timestamp twice, or deleting a record whose screenshot is missing (the
  state `NonStringScreenshotUnpairs` leaves) makes one of the unlinks fail
  with ENOENT. In the code the handler answers 200 and then the server
  stops. The model answers 200 and keeps serving from the directory without
  the two names (`DeleteStep`).
- `FaceModel.FaceStore.GetFaceData`: an image entry always fails to parse.
  The bytes that a base64 text decodes to could happen to be JSON text
  (`eyJhIjoxfQ==` decodes to `{"a":1}`), which `JSON.parse` would accept.
  No handler reads an image name, since record names end in `.json`.
- File-system write failures are not modelled; the model's unlink of an
  absent file reports the failure but the handler ignores it. Neither is a
  `readdir` error (500 on list) or `path.join` normalisation of a timestamp
  that contains path separators.
- `Decimal` renders `Date.now()` as digits. It does not model the
  exponent notation JavaScript uses from 10^21 up.
- The Express, CORS, body-parser and Swagger setup in `api/index.js`, and
  the route table in `api/routers/faceDataRoutes.js`, are wiring. The
  startup wipe of the directory is the constructors' empty directory.
- `FaceDataController.Controller.GetAllFaceData`: returns the names as a set. `readdir`
  returns an array in an order the model does not fix.
