# Memorial page: verified model of its stateful logic

A Dafny model of the logic behind a memorial web page. The page has a small
REST endpoint over a `prayers` table and several interactive widgets:

- **Prayer endpoint** (`app/api/prayers/route.ts`). `GET` lists the newest 1000
  prayers with relative timestamps. `POST` validates and inserts one prayer.
  `DELETE` removes the prayer an `id` names. `formatTimestamp` renders elapsed
  time as "Just now" or "N minute(s)/hour(s)/day(s) ago".
- **Prayer form** (`components/prayer-form.tsx`). The client widget that loads,
  retries and submits prayers. Its two async handlers are each split at the
  `await` into a Begin and a Finish method. What `fetch` delivered is an input
  to Finish, and the responses are the endpoint model's own `Response` values.
- **Tasbih counter** (`components/tasbih-counter.tsx`). Three counters with
  targets 33, 33 and 34, and a congratulation when the last one completes.
- **Quran player** (`components/quran-player.tsx`). Surah stepping with
  wrap-around, the `m:ss` clock, mute and volume, play/pause, and the
  once-per-surah autoplay guard.
- **Supplication carousel and adhkar rotation** (`components/dua-section.tsx`,
  `components/adhkar-rotation.tsx`). A current index that moves with
  wrap-around, and indicator dots that light exactly the current item.

Files: `common.dfy` (Option, Result), `text.dfy` (JavaScript `trim`, decimal
rendering, zero padding), `relative_time.dfy`, `prayer_api.dfy`,
`prayer_form.dfy`, `tasbih.dfy`, `quran_player.dfy` and `carousel.dfy` (modules
`Carousel`, `DuaSection`, `AdhkarRotation`).

Modelling choices:

- Component state is a class whose fields are the React state variables. Each
  event handler or timer callback is a method.
- Things outside the program become method parameters. The current instant is
  `nowMs`. Whether the database can be reached or the query fails is a
  `StoreOutcome`. Whether `audio.play()` resolves is a boolean. What `fetch`
  settles with is a `Delivery`.
- The table is a sequence of rows in storage order. The database's id
  sequence is a counter. `ORDER BY timestamp DESC` is a stable insertion sort,
  which is one of the orders the database may return.

Further modelling choices, each following the code:

- The listing is capped at 1000 rows (app/api/prayers/route.ts:50).
- The formatter counts whole elapsed minutes, hours or days, with no fixed
  time zone and no "unknown" fallback (app/api/prayers/route.ts:16-35).
- A newly created prayer is answered with the timestamp "Just now"
  (app/api/prayers/route.ts:107).
- `getSqlClient` runs before validation in `POST` (app/api/prayers/route.ts:83-86)
  and `DELETE` (app/api/prayers/route.ts:131-133). A client that cannot be
  created therefore gives 500 even for a request that would fail validation.

## Model

| member | source | states |
|---|---|---|
| Text.Trim | app/api/prayers/route.ts:86 | the result is a slice of the input with only whitespace cut from either end and no whitespace left at its ends |
| Text.BlankIffAllWhitespace | app/api/prayers/route.ts:86 | a text trims to "" exactly when all its characters are whitespace |
| Text.NatToString | app/api/prayers/route.ts:57 | a rendered number is decimal digits with no leading zero, starting with 0 only for zero |
| Text.ParseNatToString | app/api/prayers/route.ts:57 | reading back the decimal rendering of an id gives the id |
| Text.NatToStringParseNat | app/api/prayers/route.ts:57 | every numeral with no leading zero is the rendering of the number it reads as, so each number has exactly one rendering |
| Text.TwoDigitsDetermined | components/quran-player.tsx:329 | two two-digit numerals that read as the same number are the same string, so the padded seconds field is determined by its value |
| Text.NatToStringInjective | app/api/prayers/route.ts:104 | distinct ids render as distinct strings |
| Text.PadTwo | components/quran-player.tsx:329 | padding a number below 100 gives two digits that read back as the number |
| RelativeTime.Classify | app/api/prayers/route.ts:18-34 | "Just now" exactly below 60 s, including negative elapsed time; otherwise N ≥ 1 whole units with N·unit ≤ s < (N+1)·unit; minutes below 3600 s, days from 86400 s |
| RelativeTime.FormatTimestamp | app/api/prayers/route.ts:16-35 | the output is "Just now" exactly when floor(diff/1000) < 60, and reads back as the classification of the elapsed seconds; since only the formatter's own strings read back (RenderParse), this fixes the output string, with no leading zero on the count |
| RelativeTime.RenderParse | app/api/prayers/route.ts:23-34 | every string that reads back is the rendering of what it reads as: a count with a leading zero or any other text is refused |
| RelativeTime.ParseRender | app/api/prayers/route.ts:23-34 | every display string reads back as the count and unit it shows, so no two relative times render alike |
| RelativeTime.SingularExactlyForOne | app/api/prayers/route.ts:27-33 | the unit word is singular exactly when the count is 1 |
| RelativeTime.ExampleJustNow | app/api/prayers/route.ts:23-24 | 30 s ago renders "Just now" |
| RelativeTime.ExampleOneMinute | app/api/prayers/route.ts:25-27 | 60 s renders "1 minute ago" |
| RelativeTime.ExampleFiveMinutes | app/api/prayers/route.ts:25-27 | 300 s renders "5 minutes ago" |
| RelativeTime.ExampleDays | app/api/prayers/route.ts:31-33 | two days renders "2 days ago" |
| PrayerApi.NullIfFalsy | app/api/prayers/route.ts:93 | a missing or empty name becomes NULL, any other name is kept |
| PrayerApi.Present | app/api/prayers/route.ts:56-61 | a listed prayer's id is the decimal rendering of the row id with no leading zero, so it reads back as the row id and is exactly the key DELETE accepts for that row; the row's text; no name exactly when the stored name is falsy and otherwise the stored name itself; and the row's relative timestamp |
| PrayerApi.PresentAll | app/api/prayers/route.ts:56 | the presented list has one entry per row, in order |
| PrayerApi.SortNewestFirst | app/api/prayers/route.ts:49 | the result is a permutation of the rows with timestamps non-increasing |
| PrayerApi.Listing | app/api/prayers/route.ts:46-51 | at most 1000 rows, exactly min(n, 1000), newest first, all drawn from the table |
| PrayerApi.ListingKeepsNewest | app/api/prayers/route.ts:49-50 | every row the cap drops is no newer than every row listed |
| PrayerApi.ListingIsCompleteBelowCap | app/api/prayers/route.ts:46-51 | with at most 1000 rows the listing holds every row |
| PrayerApi.InsertedRowListed | app/api/prayers/route.ts:91-95 | below the cap, a row just inserted is in the next listing |
| PrayerApi.NewestRowListed | app/api/prayers/route.ts:91-95 | a row stamped later than every stored row, as NOW() stamps an insert, is in the next listing at any table size |
| PrayerApi.UnnamedRowNotListed | app/api/prayers/route.ts:140-143 | once no row has an id, no listed prayer carries it |
| PrayerApi.Find | app/api/prayers/route.ts:140-146 | finds a row the id names exactly when one exists, and it is the first such row |
| PrayerApi.UniqueIdsNameOneRow | app/api/prayers/route.ts:140-152 | with distinct ids, removing the named row leaves no row with that id, so at most one row is deleted |
| PrayerApi.SuffixNoNewer | app/api/prayers/route.ts:49-50 | in a newest-first list, everything before a cut is at least as new as anything after it |
| PrayerApi.AppendPreservesWellFormed | app/api/prayers/route.ts:85-95 | inserting a validated row under the next id keeps ids distinct and below the counter, texts non-blank and names never "" |
| PrayerApi.RemovePreservesWellFormed | app/api/prayers/route.ts:140-144 | deleting one row keeps the table well formed |
| PrayerApi.RemoveNamedRow | app/api/prayers/route.ts:140-148 | deleting the row an id names keeps the table well formed and leaves no row with that id |
| PrayerApi.PrayerTable.Get | app/api/prayers/route.ts:37-75 | read-only; 500 with the detail on a store failure; otherwise 200 with the presented listing, at most 1000 entries, elapsed time non-decreasing along the list |
| PrayerApi.PrayerTable.Post | app/api/prayers/route.ts:77-122 | a missing or blank text gives 400 and no change; on success exactly one row is appended with the next id, the text as sent, the name or NULL, and the stamp `nowMs`; the answer is 201 with the id string and "Just now"; a store failure gives 500 and no change; the table stays well formed |
| PrayerApi.PrayerTable.Delete | app/api/prayers/route.ts:125-164 | a missing or empty id gives 400, an unknown id gives 404, both with no change; a known id removes exactly that row and keeps the others in order, answering `{success:true}`; a store failure gives 500 and no change |
| Carousel.NextIndex | components/dua-section.tsx:61-63 | the next index stays in [0, n) and wraps from n-1 to 0 |
| Carousel.PrevIndex | components/dua-section.tsx:65-67 | the previous index stays in [0, n) and wraps from 0 to n-1 |
| Carousel.PrevAfterNext | components/dua-section.tsx:61-67 | back after forward is the identity |
| Carousel.NextAfterPrev | components/dua-section.tsx:61-67 | forward after back is the identity |
| Carousel.AdvanceWithinTurn | components/adhkar-rotation.tsx:24-27 | k ≤ n ticks move the index k places, wrapping once |
| Carousel.FullTurn | components/adhkar-rotation.tsx:26 | after n ticks the index is back where it started |
| Carousel.EveryItemReached | components/adhkar-rotation.tsx:24-27 | from any start, every phrase is shown within fewer than n ticks |
| Carousel.Dots | components/dua-section.tsx:109-115 | one dot per item, the current one lit, exactly one lit |
| Carousel.CountLitOfMarker | components/adhkar-rotation.tsx:61-67 | a row lit only at position c has one lit dot when c is in range and none otherwise |
| DuaSection.DuaCarousel.constructor | components/dua-section.tsx:58 | the index starts at 0 |
| DuaSection.DuaCarousel.NextDua | components/dua-section.tsx:61-63 | the index becomes the next index modulo 7 |
| DuaSection.DuaCarousel.PrevDua | components/dua-section.tsx:65-67 | the index becomes the previous index modulo 7 |
| DuaSection.DuaCarousel.Indicators | components/dua-section.tsx:109-115 | seven dots, only the current one lit |
| AdhkarRotation.Rotation.constructor | components/adhkar-rotation.tsx:21 | the index starts at 0 |
| AdhkarRotation.Rotation.Tick | components/adhkar-rotation.tsx:25-27 | a tick moves the index to the next index modulo 10 |
| AdhkarRotation.Rotation.Indicators | components/adhkar-rotation.tsx:61-67 | ten dots, only the current one lit |
| Tasbih.InitialCounters | components/tasbih-counter.tsx:18-22 | all three counters at count 0, not completed, with targets 33/33/34 |
| Tasbih.Press | components/tasbih-counter.tsx:37-46 | the count becomes min(count+1, total) and completed holds exactly when count+1 ≥ total |
| Tasbih.PressKeepsConsistent | components/tasbih-counter.tsx:37-46 | on a consistent, unfinished counter a press adds exactly one and keeps 0 ≤ count ≤ total and completed ⇔ count = total |
| Tasbih.OthersCompletedMeaning | components/tasbih-counter.tsx:50-55 | the nested conditional asks exactly whether every other counter is completed |
| Tasbih.TotalBounded | components/tasbih-counter.tsx:129-131 | the targets sum to 100, the counts never exceed it, and reach it exactly when all three are completed |
| Tasbih.TasbihCounter.constructor | components/tasbih-counter.tsx:18-25 | the initial counters, congratulation hidden, no button highlighted |
| Tasbih.TasbihCounter.HandleTasbih | components/tasbih-counter.tsx:28-64 | the button is highlighted; a completed counter changes nothing; otherwise only that counter is pressed and grows by one; the congratulation appears exactly when this press completes its counter and the other two were completed |
| Tasbih.TasbihCounter.ReleaseButton | components/tasbih-counter.tsx:31-33 | the highlight clears and nothing else changes |
| Tasbih.TasbihCounter.HideCongrats | components/tasbih-counter.tsx:59-61 | the congratulation hides and nothing else changes |
| Tasbih.TasbihCounter.ResetTasbih | components/tasbih-counter.tsx:66-73 | all counters back to their initial state, congratulation hidden, count sum 0 |
| Tasbih.TasbihCounter.GrandTotal | components/tasbih-counter.tsx:129-131 | the number shown is the sum of the three counts; it is at most 100 and equals 100 exactly when all counters are completed |
| QuranPlayer.FormatTime | components/quran-player.tsx:324-330 | NaN shows "0:00"; otherwise the clock has a colon before two seconds digits and reads back as the time, so minutes·60 + seconds = t with seconds < 60; since only the formatter's own clocks read back (FormatTimeOfParseClock), this fixes the string, with unpadded minutes |
| QuranPlayer.FormatTimeOfParseClock | components/quran-player.tsx:327-329 | every clock that reads back is the one shown for its value: minutes with a leading zero, or seconds of 60 or more, are refused |
| QuranPlayer.FormatTimeInjective | components/quran-player.tsx:324-330 | distinct times show distinct clocks |
| QuranPlayer.ToggleMute | components/quran-player.tsx:275-281 | the mute flag flips, the element follows it, and the volume is kept |
| QuranPlayer.ToggleMuteTwice | components/quran-player.tsx:279-280 | for every state, two toggles restore the flag and the volume and put the element in step with the flag; they restore the whole state exactly when the element was already in step (the slider at 0 sets the flag alone, and from there two toggles leave the element muted) |
| QuranPlayer.VolumeChangeAsWritten | components/quran-player.tsx:283-296 | the volume is set, the flag is set exactly for volume 0, and the element's `muted` is untouched |
| QuranPlayer.VolumeChangeAsWrittenHidesMute | components/quran-player.tsx:291-295 | after Mute, moving the slider to 50 shows sound while the element stays muted |
| QuranPlayer.VolumeChange | components/quran-player.tsx:283-296 | volume 0 sets the flag, a non-zero volume clears it, and the icon never claims sound while the element is muted |
| QuranPlayer.StepSurah | components/quran-player.tsx:310-315 | next moves to i+1 and wraps from 2 to 0, prev moves to i-1 and wraps from 0 to 2, always in [0, 3) |
| QuranPlayer.StepSurahRoundTrip | components/quran-player.tsx:310-315 | next then prev, and prev then next, return the original surah |
| QuranPlayer.Player.constructor | components/quran-player.tsx:18-28 | not playing, duration 0, time 0, volume 70 unmuted, surah 0, no flags set |
| QuranPlayer.Player.AttemptAutoplay | components/quran-player.tsx:124-154 | nothing happens once attempted, before loading, or without an element; otherwise the flag is set, playing follows the outcome and a refusal marks autoplay blocked; at most one attempt per surah |
| QuranPlayer.Player.UserInteraction | components/quran-player.tsx:157-176 | only the first interaction counts; it retries blocked playback when the audio is loaded |
| QuranPlayer.Player.AudioLoaded | components/quran-player.tsx:196-199 | duration recorded and the audio marked loaded |
| QuranPlayer.Player.SetTime | components/quran-player.tsx:298-304 | the shown time becomes the new position |
| QuranPlayer.Player.PlaybackEvent | components/quran-player.tsx:215-216 | play and pause events set the playing flag |
| QuranPlayer.Player.PageHidden | components/quran-player.tsx:235-241 | hiding the page while playing pauses; nothing else changes |
| QuranPlayer.Player.TogglePlay | components/quran-player.tsx:250-273 | playing pauses; otherwise a successful play clears blocked and a refused play sets it |
| QuranPlayer.Player.ToggleMuteButton | components/quran-player.tsx:275-281 | applies the mute toggle when the element is mounted, else nothing |
| QuranPlayer.Player.HandleVolumeChange | components/quran-player.tsx:283-296 | applies the corrected volume change when the element is mounted, else nothing |
| QuranPlayer.Player.ChangeSurah | components/quran-player.tsx:306-322 | without an element nothing; otherwise the index steps with wrap-around, time rewinds to 0, and loaded, autoplay-attempted and blocked are cleared |
| QuranPlayer.Player.AudioEnded | components/quran-player.tsx:205-209 | playback stops and the next surah is selected |
| QuranPlayer.Player.SelectSurah | components/quran-player.tsx:447 | a surah button sets only the index |
| PrayerForm.FetchPrayers | components/prayer-form.tsx:23-51 | succeeds exactly on an OK response and returns its list; a non-OK response becomes an Error with a non-empty message; a rejection passes through |
| PrayerForm.SavePrayer | components/prayer-form.tsx:54-72 | succeeds exactly on an OK response and returns its prayer; a non-OK response becomes an Error carrying details, else error, else "Failed to save prayer" |
| PrayerForm.SubmissionFor | components/prayer-form.tsx:156-159 | the text is sent untrimmed; the name is sent trimmed, or omitted exactly when it trims to nothing |
| PrayerForm.SubmittedNameSurvives | components/prayer-form.tsx:158 | the endpoint keeps a name the form sends as it is |
| PrayerForm.SubmissionAccepted | components/prayer-form.tsx:156-165 | a non-blank submission passes the endpoint's validation and its 201 answer reads back with the typed text and the trimmed name |
| PrayerForm.Form.constructor | components/prayer-form.tsx:75-82 | empty inputs and list, loading, no error |
| PrayerForm.Form.Edit | components/prayer-form.tsx:258-274 | the inputs take the typed values |
| PrayerForm.Form.SubmitDisabled | components/prayer-form.tsx:280 | disabled exactly while submitting or while the text is all whitespace |
| PrayerForm.Form.BeginLoad | components/prayer-form.tsx:104-107 | loading starts and the error is cleared |
| PrayerForm.Form.HandleRetry | components/prayer-form.tsx:195-198 | retrying is marked and loading starts |
| PrayerForm.Form.FinishLoad | components/prayer-form.tsx:109-128 | success replaces the list wholesale; failure keeps it and sets the error (message or fallback); loading and retrying end on both paths |
| PrayerForm.Form.BeginSubmit | components/prayer-form.tsx:146-153 | a blank text does nothing and sends nothing; otherwise submitting starts, the error clears, and the request sent always passes validation |
| PrayerForm.Form.FinishSubmit | components/prayer-form.tsx:154-185 | success prepends the server's prayer, keeps the rest and clears the text but not the name; failure keeps list and text and sets the error; submitting ends on both paths |

## Left out

- The database client (`getSqlClient`, Neon), the SQL text, `NextResponse`, `process.env` and `console` logging. The store is the `rows` sequence and each store failure is a `StoreOutcome`.
- Request bodies that are not strings-or-absent. A body that is not JSON gives 500. A falsy `text` such as `null`, `0` or `false` gives 400 like a missing one, because `!body.text` holds (app/api/prayers/route.ts:86). A truthy non-string `text` (a number, `true`, an array, an object) throws at `.trim()` and gives 500. The model receives the body already parsed, with optional string fields, so only the missing and the empty-string cases of the 400 path are represented.
- PrayerApi.PrayerTable.Delete: matches a row when the query string is exactly the row id in decimal. The database's text-to-integer coercion is not modelled. Under it, "007" also names row 7, and a non-numeric id is a query error (500) rather than 404.
- PrayerApi.SortNewestFirst: rows with equal timestamps keep storage order. The database promises no order among ties.
- Cache-busting headers and query parameter, toasts, `handleLike` (a toast only), and the `fbclid` address-bar rewrite.
- Concurrency. The 5-minute poll and a manual retry may overlap, and the last response wins. `handleSubmit` prepends to the list it captured when it started. The model runs each handler's Begin and Finish without other handlers in between.
- Timers. `setInterval` and `setTimeout` callbacks are the methods `Tick`, `ReleaseButton`, `HideCongrats` and `BeginLoad`/`FinishLoad`. Their timing is not modelled.
- Audio. `audio.volume = volume / 100` (floating point), `AudioContext` unlocking and the oscillator, the pulse-animation CSS class, preloading and the unmount cleanup are not modelled. The unlock step catches its own errors, so only the outcome of `play()` reaches the state.
- The mobile volume-popover flag `showVolumeControl`, which only shows or hides the slider.
- QuranPlayer.FormatTime: takes whole seconds. The audio element reports fractional seconds, which floor to the same clock. Infinite durations are not modelled.
- Floating-point progress (`calculateTotalProgress`, the SVG `strokeDashoffset`), framer-motion animations and all JSX rendering beyond the indicator dots and the shown total.
- PrayerForm.FetchPrayers and PrayerForm.SavePrayer: require that an OK response carries the body its endpoint promises (a list, or one prayer). The endpoint model's `Get` and `Post` ensure this. An OK response of another shape is not modelled.
- JavaScript falsiness of non-string values (`0`, `false`) for `name`. Names are optional strings.
- `particle-background.tsx`, `use-mobile.tsx`, `charity-section.tsx`, `memorial-page.tsx`, `layout.tsx` and `app/api/test/route.ts`. These are drawing, layout or a clock, with no logic to state.
- QuranPlayer.Player.HandleVolumeChange: follows the corrected volume change of the finding below, not the source as written. The as-written rule is QuranPlayer.VolumeChangeAsWritten.

## Findings

| source | as written | input that shows it | evidently intended | confidence | as-written member | corrected member |
|---|---|---|---|---|---|---|
| components/quran-player.tsx:291-295 | a non-zero volume clears `isMuted` but never sets `audio.muted = false` | press Mute (`audio.muted` and `isMuted` become true), then move the volume slider to 50: `isMuted` is false, so the speaker icon shows sound, while the element stays muted and silent | raising the volume unmutes the element as well as the icon | medium, not executed | QuranPlayer.VolumeChangeAsWrittenHidesMute | QuranPlayer.VolumeChange |
