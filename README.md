# CrousAlertBot decision core, in Dafny

CrousAlertBot is a Discord bot. It watches two housing sources for new listings:
- the CROUS search API, where listings are keyed by id;
- the Studefi residence page, where residences are keyed by `name:link`.

It alerts the guild channels about new listings. It also keeps a queue of users waiting for a Studefi residence. When a listed residence matches a queued user's filter, it drives Studefi's two-step online reservation form for that user. A standalone debug script runs a variant of the same reservation flow against the first available residence.

This project models that decision logic. The HTTP, HTML, Discord and SQLite layers are left out:
- server responses are inputs (`Reply`, `ApiReply`, `Site`);
- HTML pages are records of the elements the bot reads (listing elements, anchors, forms, inputs);
- the SQLite tables are a class with a row sequence and an id set;
- a reservation run is described by its outcome, the requests it sends and its other effects (queue removal, notification, session close), in order.

Files and modules:
- `py_builtins.dfy` (`PyBuiltins`): the Python string operations the bot relies on: `in`, `startswith`, `lstrip`, `lower`.
- `db_manager.dfy` (`DbManager`): the `studefi_queue` and `dm_users` tables as class `Store`.
- `studefi_page.dfy` (`StudefiPage`): page records, the availability filter, `find("form", id="form1")`, `get_hidden_val` and reservation-anchor discovery.
- `reservation_steps.dfy` (`ReservationSteps`): URL resolution, step payloads and the run record shared by both flows.
- `reservation.dfy` (`Reservation`), for reservation.py: the queue matcher and the live reservation flow, with its queue removal.
- `reservation_debug.dfy` (`ReservationDebug`), for test_reservation.py: the debug listing scan, the debug flow and the script's `main`.
- `monitor.dfy` (`Monitor`): the bot's globals as class `Bot`, the two snapshot pollers and `!dm`.

## Model

| member | source | states |
|---|---|---|
| DbManager.Without | db_manager.py:31 | definition of the table after `DELETE … WHERE user_id = ?`: the rows of other users, in table order |
| Reservation.Matches | reservation.py:63 | definition of the filter test: the lower-cased filter is `first available`, or one lower-cased string contains the other |
| Reservation.LooseSuccess | reservation.py:196 | definition of the live flow's success test: any of its five disjuncts, `saveEtape2` absent from the reply included |
| ReservationDebug.ReachedConfirmation | test_reservation.py:331-332 | definition of the debug flow's success test: the reply holds `value="Valider ma demande"` |
| Monitor.NewItems | main.py:208 | definition of the new-items filter: the fetched items whose id is not remembered, in fetched order |
| Monitor.Key | main.py:256 | definition of the Studefi key: name, `:`, link |
| ReservationSteps.Step1Payload | reservation.py:109-136 | definition of the step-1 submission: operation `saveEtape1`, the six step-1 tokens of the first form, the requester's e-mail |
| ReservationSteps.Step2Payload | reservation.py:153-185 | definition of the step-2 submission: operation `saveEtape2`, the seven step-2 tokens of the second form, no e-mail |
| StudefiPage.ReservationHref | reservation.py:80-84 | definition of the reservation link: the href of the first reservation anchor, none when there is no anchor or it has no href |
| PyBuiltins.ContainsAt | reservation.py:63 | Python `needle in hay` holds exactly when `needle` occurs at some position of `hay` |
| PyBuiltins.EmptyIsContained | reservation.py:63 | `"" in s` holds for every string |
| PyBuiltins.LStrip | reservation.py:91 | `lstrip('/')` removes a prefix made only of that character, and the rest does not start with it |
| PyBuiltins.Lower | reservation.py:63 | `lower()` keeps the length and lower-cases each character |
| PyBuiltins.LowerIdempotent | reservation.py:63 | lower-casing twice is lower-casing once |
| DbManager.WithoutMembers | db_manager.py:28-32 | after the delete, a row remains exactly when it was in the table and belongs to another user |
| DbManager.WithoutCounts | db_manager.py:28-32 | the delete removes every copy of the user's rows and keeps every copy of all other rows |
| DbManager.WithoutAppend | db_manager.py:28-32 | the delete keeps the remaining rows in table order |
| DbManager.WithoutDequeues | db_manager.py:28-32 | after the delete, the user is no longer queued and every other user is queued exactly as before |
| DbManager.InsertRow | db_manager.py:39 | inserting a row into an ordered queue keeps it ordered by priority descending, then timestamp ascending, and adds exactly that row |
| DbManager.HeadHasTopPriority | db_manager.py:36-39 | the first row of an ordered queue has the highest priority |
| DbManager.Store.constructor | db_manager.py:6-13 | a fresh database has an empty queue and no DM users |
| DbManager.Store.AddToQueue | db_manager.py:21-26 | appends exactly one row; priority defaults to 1; the same user may be queued more than once |
| DbManager.Store.RemoveFromQueue | db_manager.py:28-33 | the new table is the old one without the user's rows |
| DbManager.Store.GetQueue | db_manager.py:35-42 | returns every stored row exactly once, ordered by priority descending, then timestamp ascending |
| DbManager.Store.IsInQueue | db_manager.py:44-50 | true exactly when some row belongs to the user |
| DbManager.Store.AddDmUser | db_manager.py:52-58 | the DM set gains the user; adding a present user changes nothing |
| DbManager.Store.RemoveDmUser | db_manager.py:60-66 | the user leaves the DM set and no one else does |
| DbManager.Store.GetAllDmUsers | db_manager.py:68-75 | returns exactly the stored DM ids |
| DbManager.Store.IsDmUser | db_manager.py:77-84 | true exactly when the user is in the DM set |
| StudefiPage.AvailableResidences | main.py:248-260 | the scan succeeds exactly when every element shown available has a readable name anchor; it lists at most one residence per element |
| StudefiPage.AvailableResidencesMembers | test_reservation.py:101-109 | a residence is listed exactly when some element shown available names it |
| StudefiPage.AvailableResidencesAppend | test_reservation.py:101-109 | scanning a page in two pieces gives the two lists in page order |
| StudefiPage.FindForm | reservation.py:98 | the first form with id `form1`, or none when no form has that id |
| StudefiPage.HiddenValue | reservation.py:103-105 | the value of the first input with that name; `""` when the input or its value is missing |
| StudefiPage.FirstReservationAnchor | reservation.py:81-84 | the first button anchor whose text holds the marker or whose href holds `srv=Reservation` |
| StudefiPage.DiscoverReservationLink | reservation.py:80-84 | the loop stops at the first reservation anchor and returns its href; none when there is no such anchor |
| ReservationSteps.ResidenceUrl | reservation.py:76 | a link starting with `http` is kept; any other link is the site root followed by the link, with no slash stripped |
| ReservationSteps.AbsoluteLink | reservation.py:90-91 | an href starting with `http` is kept; any other href follows the site root after `lstrip('/')` |
| ReservationSteps.AbsoluteLinkIdempotent | reservation.py:90-91 | resolving a resolved link changes nothing |
| ReservationSteps.AbsoluteLinkIgnoresLeadingSlash | reservation.py:91 | a leading slash on a relative reservation link does not change the URL |
| ReservationSteps.ResidenceUrlKeepsLeadingSlash | reservation.py:76 | a leading slash on a residence link survives after the site root |
| ReservationSteps.ActionUrl | test_reservation.py:235-239 | a missing or empty form action posts to main.php; otherwise the action is resolved like a link |
| ReservationSteps.Tokens | reservation.py:103-116 | each step carries exactly the named hidden fields, each with the value of the form's first input of that name; a field missing from the form, or without a value, is sent as `""` |
| Reservation.FirstMatch | reservation.py:62-65 | the first queue entry whose filter accepts the residence; none when no entry does |
| Reservation.FindTarget | reservation.py:61-65 | the loop stops at the first accepting entry and yields its user and e-mail |
| Reservation.EmptyFilterMatchesAny | reservation.py:63 | an empty filter accepts every residence |
| Reservation.SameNameMatches | reservation.py:63 | a filter equal to the name up to case accepts it |
| Reservation.WildcardAheadWins | reservation.py:62-65 | queue order decides: a wildcard entry ahead of an exact-name entry is chosen |
| Reservation.EmptyStep2ReplyPasses | reservation.py:196 | an empty step-2 reply passes the success test |
| Reservation.ProcessQueueForResidence | reservation.py:58-217 | the run follows the flow; the user's rows are removed exactly on success, and otherwise the queue is unchanged |
| Reservation.NoCandidateDoesNothing | reservation.py:67-68 | with no accepting entry there is no request, no removal and no message |
| Reservation.SessionAlwaysClosed | reservation.py:215-217 | once a session is opened, closing it is the last effect, whatever the outcome |
| Reservation.ConfirmedExactly | reservation.py:196-213 | success happens exactly when every page arrived and the step-2 reply passes the test; then the user is removed, then told; otherwise no one is removed or told |
| Reservation.MissingLinkStopsBeforePosting | reservation.py:80-88 | with no reservation anchor the run stops after the residence page |
| Reservation.TokensThreaded | reservation.py:98-193 | each post follows its form's discovery and carries that form's tokens, to main.php, with the step's attachment |
| ReservationDebug.GetAvailableResidences | test_reservation.py:90-118 | the available residences in page order; `[]` on a raised request, a non-200 status or an unreadable name |
| ReservationDebug.TestReservation | test_reservation.py:122-347 | the run follows the debug flow step by step |
| ReservationDebug.StandaloneRun | test_reservation.py:349-369 | stops when nothing is available; otherwise runs the debug flow on the first residence with the script's e-mail |
| ReservationDebug.NonOkPageStops | test_reservation.py:135-137 | a non-200 residence page stops the run before any form request |
| ReservationDebug.DebugMissingLinkStops | test_reservation.py:144-152 | with no reservation anchor the run stops after the residence page |
| ReservationDebug.DebugConfirmedExactly | test_reservation.py:330-332 | success happens exactly when every page arrived and the step-2 reply holds `value="Valider ma demande"` |
| ReservationDebug.PostsFollowForms | test_reservation.py:234-325 | each post goes to its own form's resolved action and carries that form's tokens; the only effect is closing the session |
| Monitor.NewItemsCounts | main.py:208 | an item is new, as often as it was fetched, exactly when its id was not remembered |
| Monitor.NewItemsAppend | main.py:208 | new items keep the fetched order |
| Monitor.NothingNewWhenAllSeen | main.py:205-208 | nothing is new when every fetched id is remembered |
| Monitor.ReplayReportsNothing | main.py:205-211 | two successful polls with the same items: the second reports nothing |
| Monitor.SeenAfterIsLastSuccess | main.py:205-211 | the remembered ids are those of the last successful fetch, not a union of all fetches |
| Monitor.SeenAfterFailures | main.py:198-229 | failed polls leave the remembered ids unchanged |
| Monitor.VanishedListingIsNewAgain | main.py:205-211 | a listing that disappears for one poll is reported again when it returns |
| Monitor.TwoPollScenario | main.py:205-211 | ids 1,2 then 2,3: first both are new, then only 3 |
| Monitor.KeySetMembers | main.py:256-257 | a key is remembered exactly when some scanned residence has it |
| Monitor.UnseenMembers | main.py:259-260 | a residence is reported exactly when it was scanned and its key was not remembered |
| Monitor.NothingUnseenWhenAllSeen | main.py:259-260 | nothing is reported when every scanned key is remembered |
| Monitor.KeyNotInjective | main.py:256 | two different residences can share a key |
| Monitor.StudefiReplayReportsNothing | main.py:245-262 | two successful scans of the same page: the second reports nothing |
| Monitor.Toggled | main.py:448-458 | the toggled user's membership flips and no other user's changes |
| Monitor.ToggleTwice | main.py:448-458 | toggling twice restores the set |
| Monitor.Bot.constructor | main.py:26-29 | tracking sets start empty, then `on_ready` sets the channels and loads the DM users |
| Monitor.Bot.CheckCrousApi | main.py:188-229 | no channels: no change; on a 200 JSON reply: report the unseen items and replace the remembered ids; on any failure: no change |
| Monitor.Bot.CheckStudefi | main.py:232-272 | no channels: no change; on a full scan: report the unseen residences and replace the remembered keys; on a failed or aborted scan: no change |
| Monitor.Bot.ToggleDm | main.py:443-465 | flips the user's membership in memory and in the database, keeping the two equal when they started equal |

## Left out

- Discord surface: commands other than `!dm`, embeds, `send_to_all_channels`, channel creation in `on_ready`, the error handler, tokens and environment. These are UI and I/O. Notification is recorded as an effect, not delivered.
- HTTP through `curl_cffi`: each response is an input. Multipart bodies are reduced to the names of the file parts.
- BeautifulSoup: pages are records. Class matching is modelled as equality with the class string `button mini-button` as written. `get_text` is the anchor's text as given.
- Scheduling (`tasks.loop`) and the overlap of asynchronous tasks.
- `format_rent`, `get_payload`, `set_location` and the location bounds: floating point and formatting.
- Dummy PDF creation, debug HTML dumps and logging: file I/O. A write failure in the debug flow is not modelled.
- `generate_random_data`: constant applicant and guarantor fields. Payloads keep only the operation, the hidden tokens and the e-mail.
- `init_db` migration and SQLite connections. Timestamps are given to `AddToQueue` as the parameter `now`, since `CURRENT_TIMESTAMP` is a clock.
- `test.py`: a smoke script that repeats the availability filter.
- Reservation.FindTarget: takes queue entries as `Candidate(userId, residence, email)` records. The loop unpacks 4-tuples (reservation.py:62), but `get_queue` returns 5-tuples (db_manager.py:39). The code that passes the queue in is not part of this model.
- DbManager.Store.GetQueue: rows with equal priority and timestamp keep insertion order. SQLite leaves their order unspecified.
- PyBuiltins.Lower: lower-cases ASCII and Latin-1 capitals only. Python's full Unicode case mapping is not modelled.
- Reservation.ProcessQueueForResidence: an exception while notifying, after the queue removal, is not modelled. The removal stands either way, and the session is still closed.
- Reservation.ProcessQueueForResidence: an exception raised by the removal itself is not modelled.
- Monitor.Bot.CheckCrousApi: the JSON body is abstracted to its list of items. A missing `results` or `items` key gives an empty list.

## Notes

- The live reservation flow does not check the status of any reply, and its success test accepts any step-2 reply without `saveEtape2`. The model keeps this as written: an error page with no trace of `saveEtape2` confirms the reservation and dequeues the user, as `Reservation.EmptyStep2ReplyPasses` and `Reservation.ConfirmedExactly` show.
- Both pollers replace their remembered set on each successful poll. A listing is therefore new when its key is not among those of the last successful poll, not when it was never seen before; `Monitor.VanishedListingIsNewAgain` shows the difference.
