# DoggoBot alert and detection layer in Dafny

DoggoBot is a security robot. A face detector watches a camera and posts
frames and alerts to a FastAPI backend. The backend keeps alerts and a
whitelist in SQLite, answers text commands, and fans events out to
subscribers over Server-Sent Events (SSE). A simulation reactor subscribes
and decides what the robot does. This project models the deterministic
decision layer of that system and proves properties of it:

- `store.dfy` (`AlertStore`): the alerts and whitelist tables of
  `backend/database.py` as a class over sequences. It models insertion with
  defaults and primary-key uniqueness, filtered, newest-first, paginated
  queries, one-way acknowledgement, deletion before a cutoff, and the
  whitelist upsert on a unique name, listed in name order.
- `backend.dfy` (`Backend`): the request handlers of `backend/main.py` as
  state transitions of a `Server` class. Its state is the store, the list of
  SSE client queues, and the latest-frame slot. It covers the API-key
  check, broadcast fan-out with removal of failing queues, the frame upload
  and read-back, insert-then-broadcast of alerts, acknowledgement with its
  404, metrics, and client connect and disconnect.
- `nlp.dfy` (`Nlp`): the rule-based command resolver of
  `backend/nlp_handler.py`. Text is normalised, then matched by substring
  keywords in a fixed priority order; the status intent counts the latest
  alerts.
- `cooldown.dfy` (`Cooldown`): the per-key alert throttle
  `should_send_alert`, shared by three detectors.
- `geometry.dfy`, `matching.dfy`, `enrolment.dfy`: the detectors' shared
  logic. Locations are rescaled and turned into boxes. A face is named by
  first-minimal distance, gated either by the library's `matches[]` or by
  `< 0.6`. Whitelists are flattened into parallel name and encoding lists.
- `detector_real.dfy`, `detector_yolo.dfy`, `detector_hybrid.dfy`,
  `detector_simple.dfy`, `detector_gpu.dfy`: the five face detector scripts,
  each pinned down separately, including what the backend stores for each
  one's alert.
- `reactor.dfy` (`Reactor`): `scripts/sim_reactor_stub.py`. It covers the
  `data: ` line parsing, event dispatch, the reaction to an alert over
  `alert_count` and `last_action`, the NLP action table, and polling.

Several inputs are parameters rather than modelled:
- camera frames, face_recognition/YOLO outputs (locations, distances, `matches`, confidences);
- `time.time()` and `datetime.now()`;
- HTTP status codes and bodies;
- `json.loads`/`json.dumps` (`decode`/`encode` functions, `None` standing for a `JSONDecodeError`).

`compare_faces` is taken to flag exactly the distances `<= 0.6`. It
appears as the hypothesis `FaceMatch.LibraryFlags` wherever a property
depends on it.

Where the code differs from the behaviour documented for the system, the
model follows the code:
- A second acknowledgement of the same alert returns success and
  broadcasts a second `ack` event. SQLite's `rowcount` counts matched rows,
  not changed ones.
- Alerts with equal timestamps come back in an order SQLite does not
  promise. The model fixes one order (table order). Every lemma about
  `get_alerts` except `AlertStore.ConsecutivePages` states only what holds
  for any order; that one relies on the fixed order (see "## Left out").
- The matching threshold differs between scripts: `matches[argmin]`
  (distance `<= 0.6`) in `face_detector_real.py` and
  `face_detector_yolov8_gpu.py`, but strict `< 0.6` in
  `face_detector_hybrid.py` and `face_detector.py`.
- The time gate differs too: `>=` cooldown in the throttles, strict `>` in
  `face_detector_gpu.py`.
- `create_alert` stores no bounding box: no column holds it.

## Model

| member | source | states |
|---|---|---|
| AlertStore.MatchingMembers | backend/database.py:87-96 | a row is selected iff it is stored and passes every supplied filter: status only when non-empty, acknowledged only when not None |
| AlertStore.MatchingUnfiltered | backend/database.py:87-96 | with neither filter every row is selected, in table order |
| AlertStore.MatchingIgnoresWindow | backend/database.py:87-99 | which rows match does not depend on limit or offset |
| AlertStore.InsertByTimeCorrect | backend/database.py:98 | placing a row into a newest-first list keeps it newest first and adds exactly that row |
| AlertStore.InsertByTimeAdds | backend/database.py:98 | the insertion adds exactly the new row to the multiset of rows |
| AlertStore.InsertByTimeSorted | backend/database.py:98 | inserting into a newest-first list keeps it newest first |
| AlertStore.SortByTimeDescCorrect | backend/database.py:98 | ORDER BY timestamp DESC yields non-increasing timestamps and a permutation of the matching rows |
| AlertStore.PageSound | backend/database.py:83-112 | every alert get_alerts returns is a stored row passing the filters |
| AlertStore.PageOrderedAndBounded | backend/database.py:98-99 | a page is newest first and holds at most limit rows when limit is non-negative |
| AlertStore.PageUnboundedIsAllMatches | backend/database.py:98-99 | a negative limit with no offset returns every matching row |
| AlertStore.ConsecutivePages | backend/database.py:98-99 | the page at offset o followed by the page at o + limit is the page of twice the limit at o |
| AlertStore.AdjacentWindows | backend/database.py:98-99 | LIMIT l OFFSET o followed by LIMIT l OFFSET o + l is LIMIT 2l OFFSET o, on any ordered result |
| AlertStore.AckRowsAt | backend/database.py:133 | the UPDATE acts on each row independently |
| AlertStore.AckRowsEffect | backend/database.py:133 | only the acknowledged flag of rows with that id changes, and it becomes true |
| AlertStore.AckRowsIdempotent | backend/database.py:129-138 | acknowledging twice leaves the table as acknowledging once |
| AlertStore.KeptEffect | backend/database.py:176-178 | deletion keeps exactly the rows with timestamp >= cutoff, and removes as many rows as are older |
| AlertStore.KeptUniqueIds | backend/database.py:176 | deletion keeps ids unique |
| AlertStore.NameLessIrreflexive | backend/database.py:159 | no name sorts before itself |
| AlertStore.NameLessTransitive | backend/database.py:159 | the name order is transitive |
| AlertStore.NameLessTotal | backend/database.py:159 | any two distinct names are ordered |
| AlertStore.SortedByNameUnique | backend/database.py:159 | two name-sorted listings of the same rows are equal, so ORDER BY name determines get_whitelist |
| AlertStore.NamePosition | backend/database.py:144-147 | in a name-sorted table the rows carrying a given name form one slot of at most one row |
| AlertStore.ReplaceSorted | backend/database.py:144-147 | putting the new entry into that slot keeps the table sorted |
| AlertStore.ReplaceMembers | backend/database.py:144-147 | INSERT OR REPLACE leaves every entry with another name in place and leaves only the new entry under its name |
| AlertStore.Database.constructor | backend/database.py:18-55 | both tables start empty |
| AlertStore.Database.InsertAlert | backend/database.py:57-81 | a null timestamp or status violates NOT NULL; otherwise the row gets the given id or alert_<ms>, status defaulting to unknown, meta to {}, acknowledged false; a duplicate id fails and leaves the table unchanged; else the row is appended and its id returned |
| AlertStore.Database.GetAlerts | backend/database.py:83-112 | returns the window at offset of the matching rows, newest first |
| AlertStore.Database.GetAlertById | backend/database.py:114-127 | returns a stored row with that id iff one exists |
| AlertStore.Database.AcknowledgeAlert | backend/database.py:129-138 | returns true iff a row has that id; sets only acknowledged of that row; the whitelist is unchanged |
| AlertStore.Database.DeleteOldAlerts | backend/database.py:172-181 | removes exactly the rows older than the cutoff and returns their count |
| AlertStore.Database.AddWhitelistPerson | backend/database.py:140-153 | exactly one entry then has that name, with the given images, enc_count their number and a fresh AUTOINCREMENT id; other entries unchanged; the table stays sorted |
| AlertStore.Database.GetWhitelist | backend/database.py:155-170 | returns every entry, strictly sorted by name |
| Backend.Without | backend/main.py:79-80 | a client stays listed iff it was listed and is not among the failed ones; the list never grows |
| Backend.WithoutEffect | backend/main.py:79-80 | removing the failed queues keeps exactly the others, still distinct |
| Backend.WithoutAppend | backend/main.py:79-80 | removal keeps the survivors' relative order |
| Backend.OnlyMembers | backend/main.py:70-76 | the disconnected list holds exactly the registered queues whose put failed |
| Backend.RemoveIsWithout | backend/main.py:80 | list.remove on a list of distinct queues removes that queue, and raises when it is absent |
| Backend.RemoveStep | backend/main.py:79-80 | each failed queue is still listed when its turn comes, so remove never raises, and each removal extends the removed set by that queue |
| Backend.WithoutUnaffected | backend/main.py:79-80 | removing queues not in the list changes nothing |
| Backend.WithoutTwice | backend/main.py:79-80 | two removals equal one removal of both sets |
| Backend.WithoutSameOnList | backend/main.py:79-80 | removal depends only on which listed queues are removed |
| Backend.DeliveredStep | backend/main.py:72-76 | each put appends the event to one queue; a failing put appends nothing |
| Backend.VerifyApiKey | backend/main.py:61-65 | passes iff the header equals the configured key, else 401 |
| Backend.UploadReply | backend/main.py:142-149 | the reply carries the frame size, the boxes and their number; 500 when the boxes are truthy but have no length |
| Backend.FrameView | backend/main.py:207-218 | no frame gives frame None, [] and 0; otherwise the stored boxes and their length |
| Backend.UploadThenRead | backend/main.py:130-146 | a box list uploaded as bounding_boxes is accepted and read back whole, with face_count its length |
| Backend.AlertId | backend/main.py:165 | the id is alert_ followed by the decimal milliseconds, which read back as the same number |
| Backend.Stamped | backend/main.py:164-176 | the payload gets the id, snapshot_path exactly when a snapshot is sent, and keeps every other key |
| Backend.StampedTyped | backend/main.py:164-179 | stamping keeps the payload storable and the stored id is the generated one |
| Backend.Server.constructor | backend/main.py:48-58 | empty store, no clients, no frame |
| Backend.Server.Broadcast | backend/main.py:67-80 | the tagged event is appended to every registered queue whose put succeeds; failing queues are removed, the rest keep their order |
| Backend.Server.PutAll | backend/main.py:70-76 | the put loop delivers to each registered queue and collects the failing ones |
| Backend.Server.RemoveAll | backend/main.py:79-80 | the removal loop drops exactly the collected queues |
| Backend.Server.UploadFrame | backend/main.py:113-149 | 401 without the key; otherwise frame and boxes are overwritten together, malformed boxes becoming [] |
| Backend.Server.GetFrameData | backend/main.py:207-218 | reads the slot as FrameView |
| Backend.Server.CreateAlert | backend/main.py:151-189 | 401 without the key, 400 for invalid JSON; otherwise the stamped payload is inserted and then broadcast as an alert event; nothing is broadcast when the insert fails |
| Backend.Server.AcknowledgeAlert | backend/main.py:307-317 | 404 and no broadcast for an unknown id; otherwise exactly one ack event carrying the id |
| Backend.Server.AcknowledgeAlertAlt | backend/main.py:319-322 | the same state change and reply as AcknowledgeAlert |
| Backend.Server.Metrics | backend/main.py:98-111 | unacknowledged <= total <= 1000, counted over the newest 1000 alerts |
| Backend.Server.Connect | backend/main.py:223-229 | a fresh queue is appended to the clients and the first message is a connected event |
| Backend.Server.NextMessage | backend/main.py:231-242 | the oldest queued event is sent and removed, or a heartbeat when the queue is empty |
| Backend.Server.Disconnect | backend/main.py:244-245 | the client's queue leaves the list |
| Json.Tagged | backend/main.py:69 | the event holds the data's keys plus type, which is the event type unless the data supplies its own |
| Common.DecimalRoundTrip | backend/main.py:165 | the decimal digits of the milliseconds read back as the same number |
| Common.DecimalInjective | backend/main.py:165 | distinct milliseconds give distinct alert ids |
| Nlp.Lower | backend/nlp_handler.py:15 | lower-casing keeps the length and folds each character |
| Nlp.StripLeft | backend/nlp_handler.py:15 | leading whitespace is removed and nothing else |
| Nlp.StripRight | backend/nlp_handler.py:15 | trailing whitespace is removed and nothing else |
| Nlp.StripIdempotent | backend/nlp_handler.py:15 | stripping twice equals stripping once |
| Nlp.NormalizeIdempotent | backend/nlp_handler.py:15 | normalising twice equals normalising once |
| Nlp.NormalizedIsLower | backend/nlp_handler.py:15 | no upper-case letter survives lower() followed by strip() |
| Nlp.FirstMatch | backend/nlp_handler.py:21-82 | the result is unknown or one of the rules |
| Nlp.FirstMatchIsFirst | backend/nlp_handler.py:21-75 | the first rule with a keyword in the text wins |
| Nlp.FirstMatchNone | backend/nlp_handler.py:77-82 | with no rule matching the intent is unknown |
| Nlp.ClassifyIsTable | backend/nlp_handler.py:17-82 | the chain of guarded returns equals status-first then the rule table in order |
| Nlp.IntentName | backend/nlp_handler.py:21-82 | no fixed reply claims the status intent, and only the fallback answers with intent unknown |
| Nlp.ActionOf | backend/nlp_handler.py:21-82 | every understood command carries an action; the fallback carries none |
| Nlp.FixedReply | backend/nlp_handler.py:21-82 | a non-status reply never has the status intent or data; its intent is unknown iff it has no action |
| Nlp.HandleStatus | backend/nlp_handler.py:84-116 | intent status and no action; a store failure gives no data; otherwise total is the number of alerts |
| Nlp.StatusCountsBound | backend/nlp_handler.py:91-93 | friendly + unknown + suspicious <= total |
| Nlp.StatusOverStore | backend/nlp_handler.py:87-108 | over the store the report counts at most 100 alerts, unacknowledged <= total, friendly + unknown + suspicious <= total |
| Nlp.ProcessCommand | backend/nlp_handler.py:11-82 | status iff a status keyword occurs in the normalised text; unknown iff there is no action and the intent is not status |
| Nlp.ProcessCommandNormalized | backend/nlp_handler.py:15 | case and surrounding whitespace never change the reply |
| Nlp.StatusFirst | backend/nlp_handler.py:17-19 | a status keyword wins over every other rule |
| Nlp.ReplyOfRule | backend/nlp_handler.py:21-75 | the reply is the fixed reply of the first matching rule |
| Nlp.ReplyOfCleanRule | backend/nlp_handler.py:21-75 | the same for text already lower-case and stripped |
| Nlp.StopPatrolStops | backend/nlp_handler.py:22-35 | "stop patrol" stops although patrol is a start keyword |
| Nlp.WhichGreets | backend/nlp_handler.py:54 | "which" greets, because "hi" occurs inside it |
| Nlp.NoKeywordIsUnknown | backend/nlp_handler.py:77-82 | text with no keyword gets the unknown reply with no action |
| Geometry.ScaleAllAt | scripts/face_detector_real.py:212-213 | the i-th location has every side doubled |
| Geometry.BoxRoundTrip | scripts/face_detector_real.py:275 | x = left, y = top, width = right - left, height = bottom - top is a bijection with the location |
| Geometry.BoxOfScaled | scripts/face_detector.py:118-146 | the box of a doubled location is the doubled box |
| Geometry.FirstArgMin | scripts/face_detector_real.py:235 | np.argmin: an index of a minimal distance, the first one |
| Geometry.Trunc | scripts/face_detector_yolov8_gpu.py:188 | int() of a float truncates toward zero |
| FaceMatch.FlaggedBest | scripts/face_detector_real.py:234-238 | np.argmin's index (the first minimal distance) is returned exactly when its flag is set; any index returned is flagged and first-minimal; nothing flagged gives None |
| FaceMatch.BestBelow | scripts/face_detector_hybrid.py:201-213 | a face is named iff the minimal distance is below 0.6, at the first minimal index |
| FaceMatch.VariantsDisagreeOnlyAtTolerance | scripts/face_detector_real.py:236 | the matches[] rule and the < 0.6 rule differ exactly when the best distance is 0.6, and then only matches[] names the face |
| FaceMatch.BoundaryFace | scripts/face_detector_hybrid.py:206 | one known face at distance 0.6 is named by one rule and not the other |
| Enrolment.Found | scripts/face_detector_yolov8_gpu.py:122-134 | the encodings kept are the images that gave one, in order |
| Enrolment.FlatLength | scripts/face_detector_hybrid.py:91-95 | one pair per encoding |
| Enrolment.FlatOwner | scripts/face_detector_hybrid.py:91-95 | each pair's name owns that encoding |
| Enrolment.FlatComplete | scripts/face_detector_hybrid.py:91-95 | every encoding of every person appears with its owner |
| Enrolment.FlatAppend | scripts/face_detector_hybrid.py:91-95 | flattening distributes over concatenation |
| Enrolment.NamesAppend | scripts/face_detector_yolov8_gpu.py:138-140 | extending both lists keeps them parallel |
| Enrolment.FlatSnoc | scripts/face_detector_yolov8_gpu.py:138-140 | one more person appends its encodings and as many copies of its name |
| Cooldown.ReplaySentAt | scripts/face_detector_real.py:411-414 | the i-th decision of a frame is the throttle's answer on the map left by the earlier calls |
| Cooldown.ReplaySnoc | scripts/face_detector_real.py:411-414 | one more call updates the map by one step and appends its decision |
| Cooldown.RecordedAfterAccept | scripts/face_detector_real.py:351-357 | after an accepted call the key stays recorded, with a time at least that call's |
| Cooldown.AlertsForSameKeyAreSeparated | scripts/face_detector_real.py:355 | with a non-decreasing clock, two accepted alerts for one key are at least the cooldown apart |
| Cooldown.RepeatAtSameInstantRefused | scripts/face_detector_real.py:351-359 | a repeat at the same instant is refused |
| Cooldown.StepTouchesOnlyItsKey | scripts/face_detector_real.py:347-359 | only the queried key's entry can change, and only when the call is accepted |
| Cooldown.Throttle.constructor | scripts/face_detector_real.py:77-78 | the map starts empty with the given cooldown |
| Cooldown.Throttle.ShouldSendAlert | scripts/face_detector_real.py:347-359 | true iff the key is unseen or at least the cooldown has passed; only then is the time recorded; a refusal leaves the map unchanged |
| Cooldown.Throttle.AlertFaces | scripts/face_detector_real.py:411-414 | one throttle call per face, in order |
| DetectorReal.Identify | scripts/face_detector_real.py:216-240 | Unknown without known faces or when nothing is flagged; when np.argmin's index is flagged, the name at that index; any other name is at a flagged first-minimal index |
| DetectorReal.DetectFaces | scripts/face_detector_real.py:208-242 | every location doubled, count and order kept, one name per encoding |
| DetectorReal.StatusOf | scripts/face_detector_real.py:277 | friendly iff the name is not Unknown |
| DetectorReal.BuildDetections | scripts/face_detector_real.py:272-278 | one detection per (location, name) pair up to the shorter list, with the location's box and the name; status friendly iff the name is not Unknown, and unknown iff it is |
| DetectorReal.DetectionsJson | scripts/face_detector_real.py:272-278 | the list sent holds one bbox/name/status dict per detection |
| DetectorReal.FrameForm | scripts/face_detector_real.py:285 | the only form field sent with the frame is detections |
| DetectorReal.FrameFormFixed | scripts/face_detector_real.py:285 | the corrected form sends the list as bounding_boxes |
| DetectorReal.FrameDetectionsLost | scripts/face_detector_real.py:285 | as written, the backend keeps no boxes and reports face_count 0 for every frame |
| DetectorReal.FrameDetectionsDelivered | scripts/face_detector_real.py:285 | sent as bounding_boxes, the detections reach /frame_data whole with face_count their number |
| DetectorReal.AlertPayloadStored | scripts/face_detector_real.py:308-320 | the stored row: status friendly iff named, identity NULL for Unknown, confidence 0.85 whatever the distance, no angle or distance, snapshot path set |
| DetectorReal.StrangersShareOneAlert | scripts/face_detector_real.py:411-414 | unrecognised faces seen at one instant share the key Unknown, so at most one of them alerts |
| DetectorYolo.MatchFace | scripts/face_detector_yolov8_gpu.py:150-175 | (None, 0.0) when the library is missing, no encodings are known or the crop has no face; when np.argmin's index is flagged, that name with confidence 1 - its distance; a name only ever at a flagged first-minimal index |
| DetectorYolo.MatchedConfidence | scripts/face_detector_yolov8_gpu.py:163-171 | a matched face has confidence >= 0.4 |
| DetectorYolo.Clamp | scripts/face_detector_yolov8_gpu.py:196-200 | x1, y1 >= 0, x2 <= w and y2 <= h; each coordinate already in range is kept |
| DetectorYolo.ClampKeepsOrder | scripts/face_detector_yolov8_gpu.py:196-200 | x1 <= x2 survives clamping when the box overlaps the frame horizontally |
| DetectorYolo.ClampMayInvert | scripts/face_detector_yolov8_gpu.py:196-200 | a box right of the frame comes out with x1 > x2 |
| DetectorYolo.Kept | scripts/face_detector_yolov8_gpu.py:191-193 | exactly the candidates with confidence >= 0.5 are kept |
| DetectorYolo.DetectFacesYolo | scripts/face_detector_yolov8_gpu.py:177-214 | one detection per kept candidate, in order, clamped and matched, with detection confidence >= 0.5 |
| DetectorYolo.StatusOf | scripts/face_detector_yolov8_gpu.py:325 | friendly iff the name is truthy |
| DetectorYolo.Identifier | scripts/face_detector_yolov8_gpu.py:326 | the throttle key is the name, or unknown |
| DetectorYolo.AlertPayload | scripts/face_detector_yolov8_gpu.py:234-242 | the payload's seven keys, distance null |
| DetectorYolo.AlertPayloadStored | scripts/face_detector_yolov8_gpu.py:231-246 | the stored row: identity Unknown Person for a falsy name, angle 0, distance NULL |
| DetectorYolo.DetectionAlertStored | scripts/face_detector_yolov8_gpu.py:322-329 | the row stored for a detection's alert has status friendly iff it was named |
| DetectorYolo.FirstNameless | scripts/face_detector_yolov8_gpu.py:114-115 | the first entry without a name, where the loop raises |
| DetectorYolo.PersonEncodings | scripts/face_detector_yolov8_gpu.py:122-134 | the person's encodings are the first face of each image that has one |
| DetectorYolo.Whitelist.constructor | scripts/face_detector_yolov8_gpu.py:77-78 | both lists start empty |
| DetectorYolo.Whitelist.Load | scripts/face_detector_yolov8_gpu.py:87-148 | True and unchanged without the library or for an empty list; False and unchanged for a failed fetch; otherwise both lists rebuilt in parallel from the entries up to the first without a name, True iff there is none |
| DetectorYolo.Rebuild | scripts/face_detector_yolov8_gpu.py:111-140 | the rebuild loop extends names and encodings person by person |
| DetectorYolo.RebuildStep | scripts/face_detector_yolov8_gpu.py:138-140 | one more named entry appends its encodings and as many copies of its name |
| DetectorHybrid.LoadWhitelist | scripts/face_detector_hybrid.py:80-98 | two empty lists without the file, else the flattened names and encodings |
| DetectorHybrid.LoadedWhitelistSound | scripts/face_detector_hybrid.py:91-95 | equal lengths, one entry per encoding, each name owning its encoding |
| DetectorHybrid.AppendPerson | scripts/face_detector_hybrid.py:92-95 | the inner loop appends the person's encodings in order and the name once per encoding |
| DetectorHybrid.ClassifyFace | scripts/face_detector_hybrid.py:194-220 | friendly iff some distance < 0.6, then named at the first minimal index (np.argmin's), with that distance and the name as throttle identifier; unknown has no name, distance 1.0 and identifier unknown |
| DetectorHybrid.SentPostsMembers | scripts/face_detector_hybrid.py:228-231 | an alert is posted for a face exactly when its throttle answer was yes |
| DetectorHybrid.FaceAlertStored | scripts/face_detector_hybrid.py:118-132 | the stored row; a friendly face has confidence > 0.4 and an unknown one exactly 0 |
| DetectorHybrid.HybridDetector.constructor | scripts/face_detector_hybrid.py:32-47 | backend available iff the health check answered 200; the whitelist as loaded |
| DetectorHybrid.HybridDetector.Reload | scripts/face_detector_hybrid.py:250-252 | the r key reloads the whitelist and changes nothing else |
| DetectorHybrid.HybridDetector.HandleFace | scripts/face_detector_hybrid.py:228-231 | one throttle step; an alert is posted iff the backend is available and the throttle lets it through |
| DetectorHybrid.HybridDetector.HandleFaces | scripts/face_detector_hybrid.py:194-231 | the faces of a frame in order; nothing is posted when the backend is unavailable |
| DetectorHybrid.HybridDetector.ProcessFrame | scripts/face_detector_hybrid.py:184-241 | frame count + 1; alerts as HandleFaces, then the frame posted iff the count is even and the backend is available |
| DetectorSimple.ImagesUnder | scripts/face_detector.py:73 | a missing key gives no images |
| DetectorSimple.PersonFaces | scripts/face_detector.py:72-95 | at most one known face per image, each carrying the person's name |
| DetectorSimple.EncodePerson | scripts/face_detector.py:72-95 | the image loop records, in image order, one face per image that gave an encoding, under the person's name |
| DetectorSimple.PersonRecord | backend/database.py:163-168 | a whitelist row as served has exactly the keys id, name, sample_images, enc_count, created_at |
| DetectorSimple.WhitelistNeverLoaded | scripts/face_detector.py:73 | as written, every whitelist the backend serves loads no face |
| DetectorSimple.CorrectedWhitelistLoads | scripts/face_detector.py:70-95 | reading sample_images loads each person's encodings under their name, in order |
| DetectorSimple.Identify | scripts/face_detector.py:124-138 | friendly iff some distance < 0.6, then the name at the first minimal index (np.argmin's); otherwise Unknown |
| DetectorSimple.Toggled | scripts/face_detector.py:240 | the mode switches between hog and cnn |
| DetectorSimple.ToggleTwice | scripts/face_detector.py:239-240 | toggling twice restores the mode |
| DetectorSimple.DetectionsJson | scripts/face_detector.py:140-149 | one bbox/name/status dict per detection |
| DetectorSimple.PostedDetectionsLost | scripts/face_detector.py:180 | as written, the backend keeps no boxes for this detector's frames |
| DetectorSimple.PostedDetectionsDelivered | scripts/face_detector.py:180 | sent as bounding_boxes, the detections reach /frame_data whole |
| DetectorSimple.SimpleDetector.constructor | scripts/face_detector.py:32-47 | the given mode, no known faces |
| DetectorSimple.SimpleDetector.LoadWhitelist | scripts/face_detector.py:60-105 | a 200 answer replaces the known faces by those of every person's images under the key read; anything else leaves them unchanged |
| DetectorSimple.SimpleDetector.DetectFaces | scripts/face_detector.py:107-151 | locations doubled in order; one detection per (location, encoding) pair with its box and identification |
| DetectorSimple.SimpleDetector.ToggleMode | scripts/face_detector.py:239-240 | the m key toggles the mode and nothing else |
| DetectorGpu.BoxRecordRoundTrip | scripts/face_detector_gpu.py:161-169 | the box record keeps the four sides, adds width = right - left and height = bottom - top, and reads back as the location |
| DetectorGpu.BoxesData | scripts/face_detector_gpu.py:159-169 | one record per box, in order |
| DetectorGpu.FrameBoxesDelivered | scripts/face_detector_gpu.py:171-176 | the boxes reach /frame_data whole, and the face_count field reads back as their number |
| DetectorGpu.ChooseModel | scripts/face_detector_gpu.py:227-237 | cnn iff cnn was requested and a GPU is present; otherwise hog |
| DetectorGpu.Corners | scripts/face_detector_gpu.py:290-293 | one record per location with its four sides |
| DetectorGpu.AlertPayload | scripts/face_detector_gpu.py:280-294 | the nine keys, status unknown when there are faces, face_count their number, every location listed |
| DetectorGpu.AlertPayloadStored | scripts/face_detector_gpu.py:281-295 | the stored row: status unknown, identity NULL, confidence 0.85, angle 0, distance NULL |
| DetectorGpu.Pushed | scripts/face_detector_gpu.py:303-305 | the history ends with the new value and never exceeds 30 entries, dropping the oldest when full |
| DetectorGpu.PushedKeepsNewest | scripts/face_detector_gpu.py:303-305 | the history is always the newest 30 values |
| DetectorGpu.GpuLoop.constructor | scripts/face_detector_gpu.py:250-254 | count 0, last alert time 0.0, empty history |
| DetectorGpu.GpuLoop.MaybeAlert | scripts/face_detector_gpu.py:278-298 | an alert iff there are faces and strictly more than the interval has passed; the time is then recorded whatever the post's result |
| DetectorGpu.GpuLoop.Step | scripts/face_detector_gpu.py:256-306 | count + 1, the frame post, the alert gate, the bounded history; successive alerts stay more than the interval apart |
| DetectorGpu.GpuLoop.FramePosts | scripts/face_detector_gpu.py:273 | a frame is posted iff post_frame_every > 0 and divides the count |
| Reactor.DataPayload | scripts/sim_reactor_stub.py:45-51 | a payload exactly for non-empty lines starting with "data: ", the line minus those six characters |
| Reactor.DataPayloadRoundTrip | scripts/sim_reactor_stub.py:50-51 | the line the backend writes for an event reads back as the event's text |
| Reactor.AlertOutcome | scripts/sim_reactor_stub.py:87-143 | raises iff a print fails; greets a friendly alert's identity (default 'Friend'); for unknown, approaches iff the distance (default 0) is below 3.0 and otherwise rotates by the angle (default 0); alarms for suspicious; leaves last_action for any other status |
| Reactor.NullDistanceRaises | scripts/sim_reactor_stub.py:94-100 | a present null distance raises |
| Reactor.AlertStep | scripts/sim_reactor_stub.py:87-109 | the count grows by exactly 1 whatever follows; last_action changes only on a reaction |
| Reactor.NlpBehavior | scripts/sim_reactor_stub.py:160-173 | raises exactly for an unhashable action; otherwise one of the seven behaviours or Unknown action carrying the action |
| Reactor.FixedActionKnown | scripts/sim_reactor_stub.py:163-171 | each resolver action maps to its own behaviour |
| Reactor.ResolverActionsKnown | scripts/sim_reactor_stub.py:163-173 | no action the command resolver answers falls through to Unknown action |
| Reactor.EventStep | scripts/sim_reactor_stub.py:63-85 | only alert events change the state |
| Reactor.RunCountBounded | scripts/sim_reactor_stub.py:45-61 | the stream adds at most one to the count per line |
| Reactor.RealDetectorAlertHandled | scripts/sim_reactor_stub.py:87-133 | an alert of face_detector_real.py is greeted by name or approached |
| Reactor.DetectorAlertStopsStream | scripts/sim_reactor_stub.py:45-61 | as written, an alert of the yolov8 or hybrid detector is counted and then ends the stream |
| Reactor.GpuAlertStopsStream | scripts/sim_reactor_stub.py:45-61 | as written, an alert of face_detector_gpu.py ends the stream the same way |
| Reactor.RowJson | backend/database.py:105-110 | a row as served; a NULL distance is null |
| Reactor.PollCountsBatch | scripts/sim_reactor_stub.py:199-200 | a batch handled in full adds its size to the count; a batch cut short adds at least one and less than its size |
| Reactor.PolledRowRaises | scripts/sim_reactor_stub.py:184-208 | as written, handling a stored row without a distance ends the polling |
| Reactor.AlertOutcomeFixed | scripts/sim_reactor_stub.py:94-95 | with null read as 0, the reaction equals the original wherever the original does not raise, and raises only where it does |
| Reactor.FixedHandlesDetectorAlerts | scripts/sim_reactor_stub.py:104-133 | with null read as 0, yolov8 and hybrid alerts are greeted or approached |
| Reactor.FixedHandlesRows | scripts/sim_reactor_stub.py:179-200 | with null read as 0, every polled row is handled |
| Reactor.SimReactor.constructor | scripts/sim_reactor_stub.py:21-24 | count 0, no last action |
| Reactor.SimReactor.HandleAlert | scripts/sim_reactor_stub.py:87-143 | one AlertStep on the fields |
| Reactor.SimReactor.HandleEvent | scripts/sim_reactor_stub.py:63-85 | one EventStep on the fields |
| Reactor.SimReactor.ConnectSse | scripts/sim_reactor_stub.py:26-61 | nothing unless the answer is 200; then the stream's lines in order until an event raises |
| Reactor.SimReactor.PollAlerts | scripts/sim_reactor_stub.py:184-206 | one batch: handle_alert on each alert until one raises |

## Left out

- Camera capture, OpenCV drawing and encoding, preview windows and key reading are device I/O. A key press or frame is an input or a method call.
- face_recognition, dlib, YOLO and torch are foreign libraries. Their outputs (locations, encodings, distances, `matches`, confidences) are inputs. `compare_faces` is assumed to flag distances `<= 0.6` (`FaceMatch.LibraryFlags`).
- HTTP transport, FastAPI routing and multipart parsing are foreign. Status codes, bodies and form fields are inputs.
- The SQLite engine and the JSON (de)serialisation of `meta` and `sample_images` are not modelled. A stored value reads back as written; `json.loads`/`json.dumps` are the parameters `decode`/`encode`.
- asyncio scheduling, `frame_lock` and the 30-second `wait_for` are not modelled. `Backend.Server.NextMessage` sends a heartbeat exactly when the queue is empty. A put into an unbounded queue that fails is named by the `failing` set.
- The `video_feed`, `/`, `/health`, `/nlp`, `/alerts`, `/alerts/{id}` and `/whitelist*` endpoints are thin wrappers over modelled store and resolver calls, and are not modelled themselves. backend/tts_engine.py is speech I/O and is not part of this model.
- The whitelist encoding in face_detector_real.py (`_load_whitelist`, averaging with `np.mean`), `update_fps`, FPS averaging and the reactor's radian-to-degree text are floating-point numerics; the known encodings are inputs.
- `time.time()` and `datetime.now()` are parameters. DetectorHybrid.HybridDetector.HandleFace: one clock reading serves both the throttle and the payload timestamp, where the script reads the clock twice.
- Nlp.Lower: folds ASCII letters only, and Nlp.IsSpace knows ASCII whitespace only; Python's `str.lower`/`str.strip` cover all of Unicode.
- Reactor.EventStep: a `connected` timestamp too large for `datetime.fromtimestamp` is not modelled as raising. The UTF-8 decoding of stream lines is not modelled either.
- Backend.Server.CreateAlert: requires each column value of the payload to be null or of its column's own type: a string for status, identity and snapshot_path, a number or bool for timestamp, confidence, angle and distance. The alerts table is not STRICT, so SQLite also accepts a number in a TEXT column and a string in a REAL column (converting it by column affinity) and create_alert then answers 200 and broadcasts; those payloads are excluded, because a row here holds typed columns. A list or dict in a column would make the insert raise and the reply be 500 before any broadcast; that path is not modelled either.
- AlertStore.Database.GetAlerts: returns one ordering among alerts with equal timestamps (table order), where SQLite promises none.
- AlertStore.ConsecutivePages: holds for the model's fixed tie order only. Two separate SQLite queries may order alerts of equal timestamp differently, so when such alerts straddle the page boundary one can appear on both pages and another on neither.
- DetectorYolo.Whitelist.Load: a `sample_images` value that is not a list, and a name that is present but null, are not modelled. Entries carry a string name or none.
- DetectorSimple.SimpleDetector.LoadWhitelist: an `images` value that is not a list is not modelled; a missing key reads as an empty list.
- Reactor.SimReactor: models the reactor as written. The corrected reading of null distances is `Reactor.AlertOutcomeFixed`, with its lemmas.
- scripts/detector_example.py and scripts/face_recognition_integrated.py post random or placeholder alerts. They are not part of this model; nor are the device probing and download scripts.

## Findings

| source | as written | input that shows it | evidently intended | confidence | as-written member | corrected member |
|---|---|---|---|---|---|---|
| scripts/face_detector_real.py:285 | the detections are posted in the form field `detections`, but upload_frame reads only `bounding_boxes` (backend/main.py:116) | any frame with one recognised face: /frame_data then reports bounding_boxes [] and face_count 0 | post the list as `bounding_boxes` | high; not executed | DetectorReal.FrameDetectionsLost | DetectorReal.FrameDetectionsDelivered |
| scripts/face_detector.py:180 | same field name, `detections` | any frame with a face from this detector | post the list as `bounding_boxes` | high; not executed | DetectorSimple.PostedDetectionsLost | DetectorSimple.PostedDetectionsDelivered |
| scripts/face_detector.py:73 | the images are read from `person.get('images', [])`, but GET /whitelist rows carry `sample_images` (backend/database.py:163-168) | a whitelist with one person and one image: known_faces stays empty and every face is Unknown | read `sample_images` | high; not executed | DetectorSimple.WhitelistNeverLoaded | DetectorSimple.CorrectedWhitelistLoads |
| scripts/sim_reactor_stub.py:94 | `alert.get('distance', 0)` returns None for a present null, and the `.2f` format at line 100 raises | an alert from face_detector_yolov8_gpu.py or face_detector_hybrid.py (distance None) over SSE ends connect_sse's loop; in poll mode any stored alert without a distance ends poll_alerts | treat a null distance (and angle) as 0 | high; not executed | Reactor.DetectorAlertStopsStream | Reactor.FixedHandlesDetectorAlerts |
