# Meshtastic multi-level lottery: a Dafny model

The system runs a live prize draw for users of a Meshtastic mesh network.
A Python backend listens to mesh packets. A text message containing the
keyword "我要抽奖" registers its sender, and node-info packets record
display names. On request, the backend draws winners for three prize tiers
(一等奖 ×1, 二等奖 ×3, 三等奖 ×5) and publishes everything through a status
endpoint whose `lastUpdate` watermark marks changes. A browser page polls
that endpoint, mirrors what it reports, animates the draw, and lists the
winners per prize.

The model has eight modules:

- `Wire` (wire.dfy): the records both sides exchange (participant, prize tier, award) and sequence facts about them.
- `Text` (text.dfy): substring containment, the test behind Python's `in` and JavaScript's `includes`. Its scan is proved equal to "some offset matches".
- `Draw` (draw.dfy): the tier-by-tier allocation of `run_lottery`. The random choice is a `Picker`, any function returning `k` distinct members of the remaining pool, and every property is proved for every such picker.
- `Backend` (backend.dfy): the server state (participants, results, the in-progress flag, node names, the watermark) and its transitions: draw request, reset, the draw itself, packet handling and the status snapshot. It also holds an invariant every transition preserves.
- `Poller` (poller.dfy): the page's state, the pure "apply a status fetch" transition, the draw and reset buttons' optimistic actions, and which panels are shown.
- `Results` (results.dfy): the prize-tier classifier behind icons and header colours, and the per-prize cards. The home panel's prize list (Frontend/app/page.tsx:169-177) uses the same icon test, so one `PrizeIcon` serves both.
- `Json` (json.dfy): the key order of the status body. Flask's `jsonify` sorts dictionary keys, so the prize table and the results reach the page sorted by name, code point by code point.
- `System` (system.dfy): end-to-end lemmas that feed the backend's snapshot into the page's reducer.

Time is abstract. Every backend bump moves the watermark to a fresh value, `lastUpdate + 1`. The backend uses `time.time()` (Backend/background_server.py:47), and both sides only ever compare the watermark for equality. Network exchanges are atomic steps whose outcome is a parameter.

Three behaviours of the code are worth knowing before reading the lemmas:

- **Results during a new draw.** The page renders the animation when `isDrawing` is set (Frontend/app/page.tsx:251) and the results whenever winners are latched (Frontend/app/page.tsx:254), as two independent conditions. Polling only replaces winners on a completed draw and never clears them (Frontend/app/page.tsx:77-79). So winners latched from an earlier draw stay on screen beside the animation of a new one (`Poller.StaleWinnersShownWhileDrawing`).
- **The running draw on other pages.** `trigger_draw` sets `lottery_in_progress` without moving `last_update_time` (Backend/background_server.py:92-94), and the page ignores a body whose watermark it has already applied (Frontend/app/page.tsx:69). So a page in sync does not see the running draw by itself (`System.TriggerUnseenByPage`). It sees it only when something else moves the watermark before the draw finishes: registrations and name updates do so even while a draw runs (Backend/background_server.py:173-176, 182-185), and the page then shows the animation (`System.RunningDrawSeenAfterRegistration`). Otherwise it goes straight from the home panel to the results.
- **Prize order on the page.** `jsonify` sorts the keys of `PRIZE_LEVELS` and of the results (Backend/background_server.py:70-79). "三" (U+4E09) sorts before "二" (U+4E8C), so both the home panel's prize list and the results cards read first, third, second prize (`System.PrizeTableOnPage`, `System.FullDrawOnPage`).

## Model

| member | source | states |
|---|---|---|
| `Text.Contains` | Backend/background_server.py:173 | the keyword test is true exactly when the needle occurs at some offset of the text (the same test as `includes` in the page) |
| `Draw.DisplayName` | Backend/background_server.py:143 | a node is shown under its announced long name when one is known, else under its id |
| `Draw.Allocate` | Backend/background_server.py:125-145 | the prizes drawn are a prefix of the prize table in table order; all winners across all tiers are pairwise distinct members of the participant pool |
| `Draw.AllocateCounts` | Backend/background_server.py:132-141 | a tier is served only if someone is left when it is reached, and then gets exactly min(count, remaining) winners, so a zero-count tier gets an empty list; a tier is missing only if the pool ran dry before it |
| `Draw.AllocateTotal` | Backend/background_server.py:137-145 | the number of winners is at most the smaller of the table's total count and the number of participants |
| `Draw.AllocateNames` | Backend/background_server.py:142-144 | each winner is published under its announced long name, or under its id when none is known |
| `Backend.TriggerDraw` | Backend/background_server.py:86-94 | a running draw is refused first, then an empty participant set, and neither refusal changes the state; an accepted request marks the draw running and drops old results, keeping participants, node names and watermark |
| `Backend.Boot` | Backend/background_server.py:40-47 | at start-up nobody is registered, no draw runs and no results exist, so the state is consistent and a draw request is refused for lack of participants |
| `Backend.Reset` | Backend/background_server.py:104-110 | participants are emptied, results dropped and the running flag cleared, while node names and the watermark are kept |
| `Backend.RunLottery` | Backend/background_server.py:120-153 | with nobody registered only the running flag is cleared and results stay absent; otherwise results are published for a prefix of the prize table in table order, with the counts, distinctness and naming of the draw; participants are cleared, the flag is cleared and the watermark moves |
| `Backend.Receive` | Backend/background_server.py:161-185 | a keyword text from a sender registers exactly that sender; a node-info record with non-empty id and name sets that name; nothing else changes; the watermark moves exactly when participants or names change |
| `Backend.ReceiveIdempotent` | Backend/background_server.py:173-185 | hearing the same packet twice has the effect of hearing it once |
| `Backend.AnnouncementRenames` | Backend/background_server.py:178-185 | after a usable node-info record, the announced node is shown under its new long name and every other node keeps its display name |
| `Backend.Describe` | Backend/background_server.py:63-79 | the snapshot lists every participant once, in the given iteration order, under its map name or its id; the count equals the set size and the list length; the other fields are the state's |
| `Backend.Status` | Backend/background_server.py:63-79 | the endpoint iterates the participant set in some order and returns the snapshot for exactly that order |
| `Backend.ConsistencyPreserved` | Backend/background_server.py:84-185 | every transition keeps two facts: no results while a draw runs, and published results fit the prize table with no node winning twice |
| `Backend.TriggerThenDraw` | Backend/background_server.py:86-145 | an accepted request followed by the draw awards prizes only to participants registered when it was accepted, at most min(table total, participants) of them |
| `Poller.ApplyFetch` | Frontend/app/page.tsx:55-90 | nothing happens before mount; a failed fetch only marks the page disconnected; a body with the applied watermark changes nothing, connection included; a new body is mirrored with the fallbacks [], 0, "I want to join lottery" and {}, marks the page connected, and replaces winners only for a completed draw |
| `Poller.Initial` | Frontend/app/page.tsx:36-45 | the page starts with no participants, a count of 0, the default keyword, no prizes, no winners, no animation and watermark 0; before mount it is connecting with the draw button disabled, and a status fetch changes nothing |
| `Poller.Mount` | Frontend/app/page.tsx:50-52 | mounting changes only the mounted flag; the first mounted screen is the home panel with the draw button disabled |
| `Poller.ApplyFetchIdempotent` | Frontend/app/page.tsx:69-82 | applying the same fetch outcome twice equals applying it once |
| `Poller.WinnersLatch` | Frontend/app/page.tsx:77-79 | polling never clears winners; they change only on a new body that reports results with no draw running, and then become those results |
| `Poller.ShowsAnimation` | Frontend/app/page.tsx:251 | before mount nothing but the loading placeholder (Frontend/app/page.tsx:180-189) shows; after mount the animation shows exactly while the drawing flag is set, whatever winners are latched |
| `Poller.ShowsResults` | Frontend/app/page.tsx:254 | after mount the results panel shows exactly when a winners object is latched, even an empty one, animation or not |
| `Poller.ShowsMainPanel` | Frontend/app/page.tsx:257 | the home panel shows exactly when the page is mounted and shows neither the animation nor the results |
| `Poller.TriggerEnabled` | Frontend/app/page.tsx:303 | the draw button is enabled only on a connected page with participants, and a click on an enabled button always sends the draw request |
| `Poller.StaleWinnersShownWhileDrawing` | Frontend/app/page.tsx:251-254 | latched winners stay on screen beside the animation when a new body reports a draw running |
| `Poller.TriggerLottery` | Frontend/app/page.tsx:114-126 | with a zero count no request goes out and nothing changes; otherwise the animation flag is set before the draw request is sent, and nothing else changes |
| `Poller.TriggerSettled` | Frontend/app/page.tsx:128-137 | a successful draw request leaves the view alone; any failure clears the animation flag and nothing else |
| `Poller.TriggerFailureReverts` | Frontend/app/page.tsx:114-137 | a click whose request fails returns the page exactly to its state before the click, when no animation was showing |
| `Poller.EnabledTriggerSends` | Frontend/app/page.tsx:301-303 | an enabled draw button (participants present, connected) always sends the draw request |
| `Poller.ResetSettled` | Frontend/app/page.tsx:141-161 | a failed reset changes nothing; a successful one clears winners and the animation and only then requests a status fetch |
| `Poller.ResetReturnsHome` | Frontend/app/page.tsx:149-157 | after a successful reset the home panel shows, and the follow-up fetch hides it only with a new body reporting a draw running or finished |
| `Poller.StaysDisconnectedOnUnchangedSnapshot` | Frontend/app/page.tsx:69-82 | a disconnected page whose successful fetch brings the applied watermark stays disconnected, with the draw button disabled |
| `Poller.ApplyFetchReconnecting` | Frontend/app/page.tsx:58-89 | the intended fetch: on a mounted page a successful fetch marks it connected and otherwise agrees field by field with the fetch as written; a failed fetch, or any fetch before mount, is exactly the fetch as written, so a failure still marks the page disconnected |
| `Poller.ReconnectingRestoresConnection` | Frontend/app/page.tsx:84-86 | with the intended fetch, one successful poll after a failure reconnects the page and re-enables the button whenever there are participants |
| `Results.Classify` | Frontend/app/components/lottery-results.tsx:23-31 | a first-tier marker gives the first tier whatever else the name contains; the second tier needs a second marker and no first one; the third tier needs a third marker and neither of the others; all other names get the default |
| `Results.PrizeIcon` | Frontend/app/components/lottery-results.tsx:23-31 | the icon (crown, medal, award, trophy) is the one of the name's tier; the home panel's list at Frontend/app/page.tsx:169-177 uses the same tests |
| `Results.PrizeColor` | Frontend/app/components/lottery-results.tsx:33-38 | the header gradient (yellow, grey, amber, purple) is the one of the name's tier |
| `Results.IconAndColorAgree` | Frontend/app/components/lottery-results.tsx:23-37 | two names get the same icon exactly when they get the same header colour |
| `Results.FirstMarkerWins` | Frontend/app/components/lottery-results.tsx:24-25 | "First Prize 二等奖" is a first-tier name although it also carries a second-tier marker |
| `Results.UnmarkedIsDefault` | Frontend/app/components/lottery-results.tsx:30-37 | a name without any marker gets the trophy and the purple header |
| `Results.RankRows` | Frontend/app/components/lottery-results.tsx:73-85 | winners are listed in the given order, ranked from 1 |
| `Results.Cards` | Frontend/app/components/lottery-results.tsx:57-64 | one card per prize, in the order of the results object |
| `Results.CardsShowResults` | Frontend/app/components/lottery-results.tsx:57-94 | reading a card back gives its prize's entry exactly; its count is the list length; the "No winners" placeholder appears exactly for an empty list; ranks are index + 1 |
| `Json.SortByKey` | Backend/background_server.py:70-79 | a key-sorting serialiser emits exactly the entries it is given, each as often, in Python's string order of their keys |
| `System.Decode` | Backend/background_server.py:70-79 | the page receives the prize table and the results with the same entries, ordered by name code point by code point; every other field arrives as sent |
| `System.PrizeTableOnPage` | Frontend/app/page.tsx:286-294 | the backend's prize table reaches the home panel as 一等奖 ×1, 三等奖 ×5, 二等奖 ×3 |
| `System.FullDrawOnPage` | Frontend/app/components/lottery-results.tsx:57-64 | a draw that served all three tiers reaches the results panel as the first-prize card, then the third, then the second |
| `System.CompletedDrawReachesPage` | Frontend/app/page.tsx:69-82 | a page in sync before a completed draw latches, on its next poll, every published results entry and nothing else, in name order; it stops the animation, shows one card per drawn tier and lists no participants |
| `System.TriggerUnseenByPage` | Backend/background_server.py:92-94 | an accepted draw request keeps the watermark, so a page in sync ignores the body that follows it although that body reports the running draw |
| `System.RunningDrawSeenAfterRegistration` | Backend/background_server.py:173-176 | a registration while the draw runs moves the watermark, so a page in sync that showed no animation then shows it |
| `System.ResetUnseenByPage` | Backend/background_server.py:104-110 | after a reset dropping registered participants, a page in sync goes home but keeps listing them, with the button enabled, while the backend would refuse the draw |
| `System.ResetAnnounced` | Backend/background_server.py:104-110 | the intended reset: the same clearing, with the watermark moved |
| `System.AnnouncedResetReachesPage` | Frontend/app/page.tsx:149-157 | with the intended reset, the follow-up poll shows the home panel with no participants and the button disabled |
| `System.PrizeTableTiers` | Frontend/app/components/lottery-results.tsx:24-29 | the backend's three prize names fall into the first, second and third tiers |

## Left out

- Flask routing, CORS, `app.run` and the `/` index route (Backend/background_server.py:51-58): these are HTTP plumbing. Handlers are modelled as functions over the state record. The status body's constant `"status": "running"` field is not modelled.
- The Meshtastic serial interface, `pub.subscribe` and `on_meshtastic_connection` (Backend/background_server.py:190-204): device I/O and a library outside the model. Packets are a small datatype holding only the fields the handler reads.
- `message_counts` (Backend/background_server.py:171): written, but never read or published.
- The catch-all exception handler in packet handling (Backend/background_server.py:187-188): malformed packets that would raise are not represented. Missing fields read as "" or `None`, which the handler treats the same way as absent ones.
- Threads: the background draw and the listener (Backend/background_server.py:97, 208). The draw is one atomic step taken after the accepted request. Packets, resets and status reads may come between the two, as with the real thread.
- Registrations during the draw: the real draw copies the participant set, sleeps two seconds, and then clears the set (Backend/background_server.py:125-152). A sender registering during the pause would be cleared without being drawn. The atomic draw cannot show this.
- A reset during the draw: `reset` clears `lottery_in_progress` while the draw thread sleeps (Backend/background_server.py:108). The thread still publishes results drawn from the copy it took (Backend/background_server.py:125, 150-153) for participants the reset dropped, and a new `trigger_draw` accepted in that window starts a second, concurrent draw. The atomic draw cannot show either.
- `random.shuffle`, `random.sample`, `time.sleep`, `time.time()`: randomness is the `Picker` parameter. Time is the integer watermark, so two bumps that land on the same clock reading are not modelled.
- The polling interval, its `isPolling` overlap guard and React's stale-closure effects (Frontend/app/page.tsx:93-111): one fetch is one atomic step, so `isPolling` always ends cleared. The manual refresh (Frontend/app/page.tsx:164-167) is that same fetch.
- JSX markup, styling, icon sizes, connection and button labels, `console` logging. `error-boundary.tsx`, `participants-list.tsx`, `lottery-animation.tsx` and `layout.tsx` are pure presentation and are not modelled.
- JavaScript integer-like keys: `Object.entries` lists integer-like keys first, in numeric order. The model orders every key by code point, as `jsonify` emits them; this differs only for a prize named like a number, and the backend uses none.
- Non-numeric or NaN counts and a missing `inProgress`: the page's `||` fallbacks are modelled for missing and null fields only, and `inProgress` is a boolean.
- Draw.Allocate: its own contract states the prefix and distinctness properties only; the per-tier counts, the total bound and the naming are in `Draw.AllocateCounts`, `Draw.AllocateTotal` and `Draw.AllocateNames`.

## Findings

| source | as written | input that shows it | evidently intended | confidence | as-written member | corrected member |
|---|---|---|---|---|---|---|
| Frontend/app/page.tsx:69-82 | `setConnectionStatus("connected")` runs only when the watermark changed | a page that is disconnected with watermark 7 and has participants; the next fetch succeeds with `lastUpdate` 7; the page stays "Disconnected", shows the banner and keeps the draw button disabled until the backend state next changes | any successful fetch marks the page connected; proved in `Poller.ReconnectingRestoresConnection` | medium; not executed | `Poller.StaysDisconnectedOnUnchangedSnapshot` | `Poller.ApplyFetchReconnecting` |
| Backend/background_server.py:104-110 | the reset clears the participants without moving `last_update_time` | participants registered after a draw while the results show; "Back to Home" resets; the follow-up poll brings the old watermark, so the page lists them with the button enabled, while the backend has dropped them and would refuse the draw | the reset moves the watermark so pollers notice; proved in `System.AnnouncedResetReachesPage` | medium; not executed | `System.ResetUnseenByPage` | `System.ResetAnnounced` |
