# speak-story core, modelled in Dafny

speak-story reads web novels aloud. A server scrapes a chapter, cuts its text into
chunks, has each chunk synthesised to MP3 by a text-to-speech provider, and streams
the audio back in chunk order. A browser client buffers that stream into a playable
blob, prefetches the next chapter and keeps a few settings. Scraper configurations
live in a small store behind authenticated, role-gated HTTP handlers and are edited
through a form.

This project models the deterministic core of that system as pure Dafny functions
over immutable datatypes, with its properties proved:

- **Chunker** (`chunker.dfy`, with the string primitives in `text.dfy`): `splitText`.
  It splits on runs of `.`, `!` and `?`, drops blank sentences, joins sentences with
  `". "` and falls back to words for a sentence that fits nowhere. It is proved to
  keep every letter of the text, in order, when no word is longer than the limit.
  Counterexamples show where the length limit is not kept.
- **Synthesis** (`synthesis.dfy`): `processChunkWithRetry` against a provider oracle,
  then the batch loop of `getTTSStream`, which reassembles the replies in order. The
  output stream receives exactly the non-null buffers, in chunk order, and is ended
  once.
- **AudioHandler** (`audio_handler.dfy`): the client's buffer controller, as a state
  machine. The player, blob URLs and abort controllers are explicit state. `reset()`
  is split at its 100 ms wait, so the `isCleaningUp` window is observable.
- **PrefetchManager** (`prefetch_manager.dfy`) and **ChapterNavigation**
  (`chapter_navigation.dfy`): the next-chapter prefetch as an event-driven state
  machine. Outstanding reads are explicit, which exposes the chunk lost when the
  reader is handed over.
- **Configurations**:
  - `scraper.dfy` defines the configuration shape;
  - `config_service.dfy` models the store;
  - `config_controller.dfy` models the HTTP status of each handler;
  - `config_manager.dfy` models the browser form, its validator, the request it
    builds and the token refresh.
- **Small pieces**:
  - `url.dfy`: `isValidUrl`, a hand matcher proved equal to a declarative reading of
    its regular expression;
  - `tts_settings.dfy` and `theme_manager.dfy`: the settings and theme controllers;
  - `auth_middleware.dfy`: bearer-token extraction and the role gate;
  - `auth_service.dfy`: role assignment, login error mapping, token refresh and the
    password-reset guard.

Everything outside the program is a parameter. Network replies, the identity
provider, the database, `localStorage`, the media element and timers are inputs:
oracles, outcome values or boolean stand-ins.

Lengths are counted in Dafny characters (Unicode scalar values). JavaScript counts
UTF-16 code units, so the two differ only for characters outside the Basic
Multilingual Plane.

Three behaviours of the code are easy to misread, and the model keeps each as written:

- **Chunk length.** `maxLength` suggests chunks no longer than it, but nothing cuts
  a piece by characters:
  - a chunk can be up to three characters over the limit (`Chunker.SeparatorNotCounted`);
  - an overlong sentence is kept whole (`Chunker.LongSentenceKeptWhole`);
  - an overlong word that meets an empty word buffer is dropped
    (`Chunker.LongWordDropped`), while one that follows a non-empty buffer is kept
    whole as an overlong piece.
- **All chunks failing.** One might expect an all-failed stream to emit `error`. The
  code ends the stream normally with zero bytes written (`Synthesis.AllNullWritesNothing`).
- **Prefetch hand-over.** One might expect hand-over to lose no chunk. With a read
  outstanding at hand-over, one chunk lands where neither the caller nor the
  snapshot sees it (`PrefetchManager.LostChunkAtHandover`).

## Model

| member | source | states |
|---|---|---|
| Text.Trim | src/services/tts.service.ts:48 | `trim()` is empty exactly for a blank string; otherwise the result starts and ends with a non-whitespace character |
| Text.TrimIdempotent | src/services/tts.service.ts:48 | trimming twice is trimming once |
| Text.LettersOfTrim | src/services/tts.service.ts:48 | trimming never removes a letter |
| Text.SplitSentences | src/services/tts.service.ts:43 | `split(/[.!?]+/)` yields at least one piece and no piece contains a terminator |
| Text.LettersOfSentences | src/services/tts.service.ts:43 | the pieces of the sentence split, concatenated, hold every letter of the text in order |
| Text.SentencesOfCons | src/services/tts.service.ts:43 | a sentence ended by a terminator is split off as the first piece, in front of the pieces of the rest |
| Text.Split | src/services/tts.service.ts:58 | `split(" ")` yields at least one piece and no piece holds the separator |
| Text.SplitJoin | src/services/tts.service.ts:58 | joining the pieces of a split with the separator gives back the string |
| Text.LettersOfWords | src/services/tts.service.ts:58 | the words of a sentence hold exactly its letters |
| Chunker.SplitText | src/services/tts.service.ts:37-84 | a text within the limit is the single chunk, untrimmed; a longer text gives only non-blank chunks |
| Chunker.NonBlank | src/services/tts.service.ts:83 | the filter keeps only non-blank strings, each taken from the input, and loses no letter |
| Chunker.SentencesHaveNoTerminator | src/services/tts.service.ts:43 | no sentence the loop visits contains `.`, `!` or `?` |
| Chunker.StepPlaces | src/services/tts.service.ts:47-49 | a sentence that is not blank is placed by its trimmed text |
| Chunker.FirstStep | src/services/tts.service.ts:47-52 | with no chunk open, a sentence whose trimmed text fits opens the chunk with that text, without a separator, whatever chunks are already closed |
| Chunker.JoinStep | src/services/tts.service.ts:47-52 | a sentence whose trimmed text fits beside the open chunk is joined to it with `". "`, whatever chunks are already closed |
| Chunker.CloseStep | src/services/tts.service.ts:47-56 | a sentence whose trimmed text does not fit beside the open chunk closes it with `"."` and opens the next chunk with the trimmed text |
| Chunker.WordLoopShape | src/services/tts.service.ts:61-70 | pieces from the word fallback contain no terminator |
| Chunker.WordStepRuns | src/services/tts.service.ts:61-69 | one word step keeps every closed piece a run of consecutive words joined by single spaces, and the open piece a run ending at the word just read |
| Chunker.WordLoopRuns | src/services/tts.service.ts:61-70 | over the remaining words, the closed pieces stay runs of consecutive words and the open piece a run ending at the last word |
| Chunker.WordFallbackRuns | src/services/tts.service.ts:58-70 | the word loop keeps the chunks closed before it; each piece it pushes is `words[i..j]` joined by single spaces for some `i < j`; what stays open is empty or such a run ending at the last word |
| Chunker.FallbackRuns | src/services/tts.service.ts:53-75 | a sentence too long for an empty chunk is cut at spaces into pieces that are runs of its words joined by single spaces, after the chunks already closed |
| Chunker.ChunksAreShaped | src/services/tts.service.ts:47-81 | every chunk of a long text either ends in `"."` (sentence path) or has no terminator (word fallback) |
| Chunker.WordLoopLetters | src/services/tts.service.ts:61-70 | when every word fits, the word loop carries exactly the letters of the words, in order |
| Chunker.SentenceLoopLetters | src/services/tts.service.ts:47-77 | when every word fits, the sentence loop carries exactly the letters of the sentences, in order |
| Chunker.CloseKeepsLetters | src/services/tts.service.ts:79-81 | closing the open chunk keeps exactly the letters carried |
| Chunker.SplitTextKeepsLetters | src/services/tts.service.ts:37-84 | when no word exceeds the limit, the chunks together hold exactly the text's letters in source order: nothing lost, reordered or placed twice |
| Chunker.SentenceStepBounded | src/services/tts.service.ts:48-56 | a sentence that fits never reaches the word fallback; the open chunk stays within two characters over the limit |
| Chunker.CloseBounded | src/services/tts.service.ts:79-81 | closing a bounded state gives chunks at most three characters over the limit |
| Chunker.ChunkLengthBound | src/services/tts.service.ts:47-81 | when every trimmed sentence fits, every chunk is at most `maxLength + 3` long, not `maxLength` |
| Chunker.TwoSentences | src/services/tts.service.ts:43 | two clean sentences joined by one terminator are read back as exactly those two sentences |
| Chunker.SeparatorNotCounted | src/services/tts.service.ts:51-52 | two sentences whose lengths add up to the limit share one chunk three characters over it |
| Chunker.LongSentenceKeptWhole | src/services/tts.service.ts:53-56 | a sentence too long to join the open chunk becomes the next chunk whole, whatever its length |
| Chunker.LongWordDropped | src/services/tts.service.ts:61-69 | an overlong word that meets an empty word buffer is dropped, so the chunks then miss letters of the text |
| Synthesis.RetryOutcome | src/services/tts.service.ts:93-141 | the retry yields a buffer exactly when one of the two attempts gives a non-empty body; the buffer is non-empty, and a usable first reply wins |
| Synthesis.ProcessChunkWithRetry | src/services/tts.service.ts:86-142 | the loop returns the reference outcome after one or two attempts; the second attempt happens exactly when the first is unusable; it waits only after a thrown first attempt |
| Synthesis.Flush | src/services/tts.service.ts:199-231 | the ordered flush writes the non-null slots from the cursor up to the limit, in index order, and advances the cursor to it |
| Synthesis.RunBatch | src/services/tts.service.ts:189-240 | one batch fills its slots from the settled outcomes; the cursor never passes the slots filled, and the stream holds exactly the non-null slots before the cursor |
| Synthesis.FinalFlush | src/services/tts.service.ts:248-263 | the last flush and `end()` leave the stream ended, holding every non-null slot in index order |
| Synthesis.StreamInOrder | src/services/tts.service.ts:161-275 | the stream ends holding exactly the non-null results in index order; batches of 1 to 3 requests cover every chunk |
| Synthesis.FetchAll | src/services/tts.service.ts:173-186 | every chunk's promise is fulfilled with the retry outcome of the requests made for that chunk index, in chunk order |
| Synthesis.GetTTSStream | src/services/tts.service.ts:144-284 | the text is split at 200 characters; the stream ends holding the non-null retry outcomes in chunk order, each non-empty |
| Synthesis.PresentMembers | src/services/tts.service.ts:205-228 | a buffer is written iff some slot holds it: nothing is written for a null slot |
| Synthesis.PresentLength | src/services/tts.service.ts:199-256 | there is one write per non-null slot |
| Synthesis.AllNullWritesNothing | src/services/tts.service.ts:249-263 | when every slot is null nothing is written, and the stream is still ended without error |
| AudioHandler.New | public/js/audio-handler.js:2-12 | a new handler is empty, not cleaning up, not started, and satisfies the invariant |
| AudioHandler.CreateNewController | public/js/audio-handler.js:101-104 | the new controller replaces the old one without aborting it |
| AudioHandler.ValidCreateNewController | public/js/audio-handler.js:101-104 | the new controller is fresh: never aborted and different from the one it replaces |
| AudioHandler.AbortController | public/js/audio-handler.js:16-19 | aborting adds the live controller, if any, to the aborted ones and drops it; nothing else in the handler changes |
| AudioHandler.ResetBegin | public/js/audio-handler.js:14-35 | the first part of reset aborts and drops the controller and sets the cleaning flag; with a player it empties the chunks, zeroes both counters, clears the started flag, revokes and drops the URL, and pauses and unloads the player; without one it throws at `pause()` and leaves the buffer and URL as they were |
| AudioHandler.ResetBeginReleases | public/js/audio-handler.js:14-35 | after the first part of reset, every blob URL ever created is revoked |
| AudioHandler.ResetFinish | public/js/audio-handler.js:37-40 | the step after the wait only clears the cleaning flag |
| AudioHandler.UpdateSource | public/js/audio-handler.js:43-69 | no-op while cleaning up; with chunks, a fresh URL holding all chunks is attached, keeping position and play state, before the old URL is revoked; with no chunks the old URL is revoked and kept; it throws exactly when there are chunks and no player, after making the new URL current and without revoking the old one |
| AudioHandler.ValidUpdateSource | public/js/audio-handler.js:43-69 | refreshing the source keeps the invariant: only the attached URL is live |
| AudioHandler.AddChunk | public/js/audio-handler.js:71-99 | no-op returning false while cleaning up; otherwise appends the chunk and adds its length; with a player it returns true exactly when this call first reaches the minimum, and a start or near-end refresh sets `lastUpdate` to the total; without a player it throws exactly when it reaches the player (the minimum reached before a start, or any call after a start) |
| AudioHandler.ValidAddChunk | public/js/audio-handler.js:71-99 | adding a chunk keeps the invariant |
| AudioHandler.CleaningWindowIsInert | public/js/audio-handler.js:43-72 | once reset has begun, whether or not it threw, neither adding a chunk nor refreshing the source has any effect |
| AudioHandler.CleanupFinish | public/js/audio-handler.js:106-113 | the end of cleanup clears the cleaning flag and drops the player, keeping the buffer and the record of created, revoked and aborted handles |
| AudioHandler.CleanupBegin | public/js/audio-handler.js:106-111 | the start of cleanup leaves no controller and the live one aborted, and sets the cleaning flag; it throws exactly when there is no player; with a player the buffer is emptied and the URL revoked and dropped, and without one they are kept |
| AudioHandler.CleanupReleasesEverything | public/js/audio-handler.js:106-113 | cleanup aborts the controller, revokes every URL, empties the buffer and drops the player |
| AudioHandler.CleanupBeginIsResetBegin | public/js/audio-handler.js:106-111 | cleanup's own abort makes reset's redundant: both begin in the same state |
| AudioHandler.EmptyUpdateIsNoop | public/js/audio-handler.js:43-69 | from any state the class reaches, refreshing with no chunks changes nothing |
| AudioHandler.EmptyUpdateDangles | public/js/audio-handler.js:46-68 | from a state with a URL but no chunks, refreshing returns normally, revokes the URL and yet keeps it as the current one, with or without a player |
| AudioHandler.AfterCleanup | public/js/audio-handler.js:44-113 | after cleanup the handler still buffers a chunk below the minimum and returns false; an empty refresh and a new controller run; a chunk reaching the minimum throws, and so does `reset()` |
| AudioHandler.Step | public/js/audio-handler.js:71-104 | any call between two resets keeps the invariant; once playback has started it stays started and no call reports a start |
| AudioHandler.StartsAtMostOnce | public/js/audio-handler.js:77-89 | between two resets `addChunk` returns true at most once, never after playback started, and playback then stays started |
| ChapterNavigation.UrlOf | public/js/prefetch-manager.js:15-16 | `nextChapter?.url` is usable exactly when the value is an object whose url is truthy, whatever its type; the object itself is then truthy |
| ChapterNavigation.ServerChapterUrl | src/services/story.service.ts:6-9 | for the url shapes the server sends, a string or null, the url is usable exactly when it is a non-empty string |
| ChapterNavigation.DecodeChapter | public/js/chapter-navigation.js:9-17 | a missing or empty header and anything that fails to decode give null; otherwise the decoded value |
| ChapterNavigation.NewNavigator | public/js/chapter-navigation.js:2-7 | a new navigator has no next chapter and shows nothing |
| ChapterNavigation.Update | public/js/chapter-navigation.js:19-41 | the next chapter is recorded whatever the current one decodes to; the navigation is cleared iff the current chapter is falsy, and is otherwise built from the three decoded values |
| ChapterNavigation.GetNextChapter | public/js/chapter-navigation.js:52-54 | the next chapter recorded by the last update; its contract is stated by `NextChapterOfLastUpdate` |
| ChapterNavigation.NextChapterOfLastUpdate | public/js/chapter-navigation.js:52-54 | `getNextChapter` is null before any update and afterwards the next chapter of the last update |
| ChapterNavigation.UndecodableCurrentClears | public/js/chapter-navigation.js:9-33 | an undecodable current chapter clears the navigation instead of failing |
| PrefetchManager.NewManager | public/js/prefetch-manager.js:2-11 | a new manager is idle and not stopped |
| PrefetchManager.Reset | public/js/prefetch-manager.js:64-74 | reset sets the stop flag, aborts and drops the controller, drops reader and response, empties the chunks and clears the running flag |
| PrefetchManager.ResetIdempotent | public/js/prefetch-manager.js:64-74 | resetting twice is resetting once |
| PrefetchManager.Start | public/js/prefetch-manager.js:13-21 | no-op while running or without a next-chapter url; otherwise running, not stopped, no chunks, and a fresh controller that was never aborted |
| PrefetchManager.Respond | public/js/prefetch-manager.js:30-47 | a response that is not ok resets; an ok one is kept, its reader taken and its read loop started |
| PrefetchManager.FetchFails | public/js/prefetch-manager.js:42-47 | a rejected fetch, including an abort, resets |
| PrefetchManager.FailureResets | public/js/prefetch-manager.js:36-47 | a response that is not ok, or a failed fetch, leaves the manager idle |
| PrefetchManager.Resolve | public/js/prefetch-manager.js:50-62 | a settled read appends its value whatever happened meanwhile; the loop reads again only if not stopped, not done and still on a reader |
| PrefetchManager.ReadFails | public/js/prefetch-manager.js:57-61 | a rejected read ends its loop and appends nothing |
| PrefetchManager.StopEndsLoops | public/js/prefetch-manager.js:52-55 | once stopped, every settled read ends its loop |
| PrefetchManager.RespondInReadOrder | public/js/prefetch-manager.js:40-56 | after an ok response to a fresh prefetch, the chunks held are exactly what has been read from the new reader |
| PrefetchManager.ResolveKeepsReadOrder | public/js/prefetch-manager.js:50-56 | with one loop on the current reader, the chunks are exactly what it has read so far, in order |
| PrefetchManager.GetPrefetchedData | public/js/prefetch-manager.js:76-89 | returns the chunks and the response and hands out the reader; afterwards no reader is held, a stop is requested if one was handed out, and the running flag is unchanged |
| PrefetchManager.ReaderHandedOutOnce | public/js/prefetch-manager.js:76-89 | a second call yields no reader |
| PrefetchManager.StartBlockedUntilReset | public/js/prefetch-manager.js:13-21 | after the hand-over the manager is still running, so `startPrefetch` does nothing until a reset |
| PrefetchManager.LostChunkAtHandover | public/js/prefetch-manager.js:50-89 | a read outstanding at hand-over appends its value after the snapshot, and the reader handed out is already past it: that chunk reaches neither side |
| ConfigService.ValidateConfig | src/services/config.service.ts:75-85 | a configuration is valid exactly when its domain, selectors, content and title selectors are non-empty and both chapter selector objects are present (an object is truthy even when its selectors are empty); the duplicated title test adds nothing |
| ConfigService.ChapterNumberIgnored | src/services/config.service.ts:75-85 | the chapter-number pattern never changes the validation verdict |
| ConfigService.ChapterSelectorsRequired | src/services/config.service.ts:75-85 | a configuration lacking either chapter selector object is invalid |
| ConfigService.GetAllConfigs | src/services/config.service.ts:7-15 | the whole store, or one fixed error when the read fails |
| ConfigService.GetConfig | src/services/config.service.ts:16-24 | the stored configuration iff the key is present, nothing for an absent key, and one fixed error when the read fails |
| ConfigService.AddConfig | src/services/config.service.ts:25-36 | succeeds iff the key is absent and the database works, storing the configuration under it; any failure, an existing key included, leaves the store unchanged with one fixed message |
| ConfigService.UpdateConfig | src/services/config.service.ts:37-48 | succeeds iff the key is present and the database works, merging into that key only; any failure leaves the store unchanged with one fixed message |
| ConfigService.RemoveConfig | src/services/config.service.ts:49-61 | false with no change for an absent key; true iff a present key was removed, and only it; failures change nothing |
| ConfigService.AddThenRemove | src/services/config.service.ts:25-61 | adding and then removing a fresh key restores the store |
| ConfigService.FailuresChangeNothing | src/services/config.service.ts:25-61 | a failed add, update or remove leaves the store as it was |
| ConfigController.GetAllConfigs | src/controllers/config.controller.ts:4-14 | 200 with the store iff the read works, otherwise 500 |
| ConfigController.GetConfig | src/controllers/config.controller.ts:16-27 | 200 with the configuration iff it exists; a missing key and a database failure both give 404 |
| ConfigController.AddConfig | src/controllers/config.controller.ts:29-44 | 400 iff the body is invalid; 201 iff valid, new and stored; 500 otherwise, an existing key included; only 201 changes the store |
| ConfigController.UpdateConfig | src/controllers/config.controller.ts:46-62 | 400 iff the body is invalid; 200 iff valid and the key exists; 500 otherwise; only 200 changes the store |
| ConfigController.RemoveConfig | src/controllers/config.controller.ts:64-78 | 404 iff the key is absent; 200 iff it was removed; 500 iff the database failed |
| ConfigController.InvalidNeverReachesStore | src/controllers/config.controller.ts:34-37 | an invalid body gets the same answer whatever the database would do: the service is not called |
| ConfigManager.ParseIntNaN | public/js/config-manager.js:180-183 | a blank group index, or one that starts with neither a sign nor a digit, reads as NaN |
| ConfigManager.ParseIntOfNumberText | public/js/config-manager.js:180-183 | `parseInt` reads back every group index the form shows for a stored number, NaN included |
| ConfigManager.GetFormData | public/js/config-manager.js:162-205 | the pattern is present iff chapter-number mode is chosen; the chapter selectors are present iff it is not |
| ConfigManager.FormDataTrimmed | public/js/config-manager.js:167-202 | every text value read from the form is trimmed |
| ConfigManager.FillForm | public/js/config-manager.js:136-160 | the inputs show the stored configuration; a missing chapter selector shows as empty; the mode follows the presence of a pattern; the group index shown reads back as the stored number; without a pattern the pattern inputs keep their values |
| ConfigManager.FillThenRead | public/js/config-manager.js:136-205 | opening a trimmed stored configuration for editing and reading the form back gives that configuration |
| ConfigManager.ValidateForm | public/js/config-manager.js:207-293 | the form is valid iff the error list is empty |
| ConfigManager.ValidateFormErrors | public/js/config-manager.js:218-263 | an error is listed iff its check fails: each empty common field; in chapter-number mode an empty regex or a NaN index; otherwise a chapter pair with both selectors empty |
| ConfigManager.CommonSorted | public/js/config-manager.js:219-234 | the key, domain, content and title errors come in that order, each at most once |
| ConfigManager.MethodSorted | public/js/config-manager.js:237-262 | the method-specific errors come in check order, after the common ones |
| ConfigManager.ValidateFormOrder | public/js/config-manager.js:218-263 | the whole error list follows check order, with every common error before any method-specific one |
| ConfigManager.CloseForm | public/js/config-manager.js:128-134 | closing the form resets every input to its default and returns to adding a new configuration |
| ConfigManager.EditConfig | public/js/config-manager.js:340-345 | editing a key makes the form edit that key |
| ConfigManager.HandleSubmit | public/js/config-manager.js:295-338 | no request iff validation fails; otherwise PUT iff editing, to the key's URL, with the domain and selectors, and the pattern only when there is one |
| ConfigManager.EditThenSubmit | public/js/config-manager.js:136-345 | editing a trimmed stored configuration that passes the form's checks and saving it unchanged PUTs it to its own key; in selector mode the body is the stored configuration itself |
| ConfigManager.CloseThenSubmit | public/js/config-manager.js:128-134 | after closing, any save is a POST, and the reset inputs submit what the default inputs submit |
| ConfigManager.ChapterNumberFormRejected | public/js/config-manager.js:176-187 | a chapter-number form that passes the form's checks fails the server's validation, so adding or updating it gives 400 |
| ConfigManager.SelectorFormAccepted | public/js/config-manager.js:186-201 | a selector-mode form that passes the form's checks passes the server's too |
| ConfigManager.Logout | public/js/config-manager.js:409-414 | logout removes exactly the three session keys |
| ConfigManager.HandleTokenRefresh | public/js/config-manager.js:374-407 | succeeds iff a refresh token is stored and the refresh works; on success stores the access token and replaces the refresh token only with a new non-empty one, touching nothing else; any failure logs out |
| Url.SchemeEnd | public/js/utils.js:2 | the rest starts after `https://`, `http://` or `ftp://` in any letter case, if there is one |
| Url.SchemePrefix | public/js/utils.js:2 | any scheme followed by `://` is the prefix the matcher finds |
| Url.MatchesBySchemeEnd | public/js/utils.js:2 | the pattern matches iff a scheme prefix is found and the rest after it is valid |
| Url.IsValidUrl | public/js/utils.js:1-4 | the hand matcher accepts exactly the strings the anchored, case-insensitive pattern matches |
| Url.TrailingLineBreakRejected | public/js/utils.js:2 | a string that ends in a line break is never valid |
| Url.SpaceAfterOneCharacterAccepted | public/js/utils.js:2 | a space as the second character after `://` is accepted, so `http://a ` is valid |
| TTSSettings.SaveSettings | public/js/tts-settings.js:8-14 | the current voice and rate are stored under `ttsSettings`, and no other key changes |
| TTSSettings.LoadSettings | public/js/tts-settings.js:16-29 | the voice changes iff the stored one is non-empty and is an existing option; the rate changes iff the stored one is non-empty |
| TTSSettings.LoadNothing | public/js/tts-settings.js:17 | with nothing stored, neither control changes |
| TTSSettings.SaveThenLoad | public/js/tts-settings.js:8-29 | saving then loading with the same options restores both controls when both were non-empty and the voice was an option |
| TTSSettings.EmptyNotRestored | public/js/tts-settings.js:18-28 | an empty saved voice or rate is not restored |
| TTSSettings.MissingVoiceNotRestored | public/js/tts-settings.js:19-25 | a voice that is no longer an option is not restored |
| ThemeManager.ApplyTheme | public/js/theme-manager.js:11-20 | dark iff the stored theme is `dark`, or nothing is stored and the system prefers dark |
| ThemeManager.SystemThemeChange | public/js/theme-manager.js:22-30 | ignored when a theme is stored; otherwise dark iff the event matches |
| ThemeManager.ToggleClick | public/js/theme-manager.js:32-36 | the class flips and the stored theme is `dark` iff the class is now dark |
| ThemeManager.ToggleIsPersisted | public/js/theme-manager.js:11-36 | after a toggle, applying the stored theme shows what the toggle showed, whatever the system prefers |
| ThemeManager.ToggleTwice | public/js/theme-manager.js:32-36 | two toggles restore the class |
| ThemeManager.ToggledIgnoresSystem | public/js/theme-manager.js:22-36 | once the user has toggled, system changes are ignored |
| ThemeManager.SystemChangeAgreesWithApply | public/js/theme-manager.js:11-30 | with nothing stored, a system change shows what applying the theme under the new preference shows |
| AuthMiddleware.IndexOf | src/middlewares/auth.middleware.ts:20 | finds the first occurrence of the separator at or after a position, or reports that there is none |
| AuthMiddleware.TokenSpan | src/middlewares/auth.middleware.ts:20 | the token runs from just after the first `"Bearer "` to the next one or to the end; there is none iff the header lacks the separator |
| AuthMiddleware.BearerToken | src/middlewares/auth.middleware.ts:20 | no token without a header or a separator; otherwise the text of that span |
| AuthMiddleware.BearerRoundTrip | src/middlewares/auth.middleware.ts:20 | `"Bearer "` followed by a token without the separator yields that token |
| AuthMiddleware.TokenStopsAtSecondBearer | src/middlewares/auth.middleware.ts:20 | a second `"Bearer "` ends the token, whatever follows it |
| AuthMiddleware.Authenticate | src/middlewares/auth.middleware.ts:15-35 | 403 "No token provided" iff the token is missing or empty; 403 "Invalid token" iff verification fails; otherwise next with the decoded user |
| AuthMiddleware.CheckRole | src/middlewares/auth.middleware.ts:37-52 | 403 "Access denied" iff there is no user or no role; next iff the role is allowed; otherwise 403 "Insufficient permissions" |
| AuthMiddleware.ProtectedRoute | src/middlewares/auth.middleware.ts:15-52 | behind both middlewares, a request reaches the handler iff its verified token carries an allowed role |
| AuthService.RegisterRole | src/services/auth.service.ts:16-21 | `admin` iff the supplied key and the configured key are both non-empty and equal; otherwise `user` |
| AuthService.NoConfiguredKeyNoAdmin | src/services/auth.service.ts:16-21 | without a configured key, nobody registers as admin |
| AuthService.AdminGateFollowsRegistration | src/services/auth.service.ts:16-23 | a user passes an admin-only gate iff they registered with the matching key |
| AuthService.CatchMessage | src/services/auth.service.ts:55-73 | an error with a response maps to one of the four provider messages, and one without maps to one of the two local messages |
| AuthService.ProviderCodes | src/services/auth.service.ts:56-67 | only the three known provider codes get their own message; any other gives the unknown-error message |
| AuthService.Login | src/services/auth.service.ts:30-74 | logged in iff sign-in succeeds, the token verifies and the email is verified, with the tokens, uid, email, and role defaulting to `user`; provider errors are mapped; every other failure gives a local message |
| AuthService.UnverifiedEmailIsUnexpected | src/services/auth.service.ts:40-72 | an unverified email surfaces as "An unexpected error occurred", like a network failure |
| AuthService.LoginRoleNonEmpty | src/services/auth.service.ts:52 | a logged-in user always has a non-empty role |
| AuthService.RefreshToken | src/services/auth.service.ts:76-89 | `id_token` becomes `token` and `refresh_token` becomes `refreshToken`; a failed request propagates its error |
| AuthService.RefreshReply | src/controllers/auth.controller.ts:34-43 | the client reads a refresh as successful exactly when the service returned tokens, and then gets those tokens unchanged; any thrown error becomes the 401 reply |
| AuthService.RefreshEndToEnd | src/controllers/auth.controller.ts:34-43 | end to end, a refresh stores the provider's `id_token`; it replaces the refresh token only with a new non-empty one; a failed request logs out |
| AuthService.ForgotPassword | src/services/auth.service.ts:91-98 | a reset link is sent iff the user exists and link generation works; an unknown user gives "User not found" and sends nothing |
| AuthService.ForgotPasswordReply | src/controllers/auth.controller.ts:45-54 | the reply is 200 exactly when the service returned; every error, whatever its message, becomes the same 500 reply |
| AuthService.ForgotPasswordEndToEnd | src/controllers/auth.controller.ts:45-54 | end to end, the client gets 200 exactly when the reset link was sent; every failure, "User not found" included, reaches it as the same 500 reply |

## Left out

- Timers: the 100 ms settle wait in `reset`, the 1000 ms retry wait, the 100 ms pause between batches and the request timeouts. Only the order they impose is kept; the retry wait appears as a count.
- Concurrency: each batch's `Promise.allSettled` is one step whose per-slot outcomes are inputs. The prefetch read loop and the fetch are explicit events. No other interleaving is modelled.
- Floating point and media: the media element's `duration` and `currentTime` are not modelled as numbers. The near-end test is a boolean input and the position an integer. `play()` rejections are only logged by the source, so they are not modelled.
- Blobs and blob URLs are handles with recorded contents. `URL.createObjectURL` and `URL.revokeObjectURL` are bookkeeping on those handles.
- The DOM: the error highlighting and error panel of `validateForm`, the modal of `showForm`/`closeForm`, and the navigation markup are left out. Only the state they reflect is kept.
- The 401 retry in `handleSubmit` and `deleteConfig`, which re-enters after a token refresh, is left out. The refresh itself is modelled.
- `deleteConfig`, `loadConfigs` and rendering in the configuration page are network and DOM glue.
- `register`: creating the user, setting the claims and sending the verification email are provider calls whose failures simply propagate. Only the role decision is modelled.
- `login`: a provider error body without a message is not modelled. The provider's message is an input.
- `forgotPassword`: sending the email is an I/O call whose failure propagates. The model records the recipient and link instead.
- `updateConfig`'s merge is the database's, so it is a parameter.
- JSON: the settings entry is the record that `saveSettings` writes. Arbitrary text stored under the key by other code is not modelled. Chapter headers are decoded by an oracle standing for `decodeURIComponent` and `JSON.parse`.
- The rate input's own sanitising of assigned values is not modelled.
- UTF-16: lengths are counted in Unicode scalar values rather than UTF-16 code units, and the `i` flag folds only ASCII letters. No other letter occurs in the pattern.
- Url.IsValidUrl: because a character outside the Basic Multilingual Plane is one character here and two UTF-16 code units in JavaScript, "http://" followed by one such character (an emoji, say) is rejected by the model, while the source's pattern accepts it, the two halves of the surrogate pair filling `[^\s/$.?#].`. The difference also runs the other way: when the first character after "://" lies outside the Basic Multilingual Plane, the source needs the character after it to be non-whitespace (or absent), while the model needs only a non-line-terminator, so "http://" followed by an emoji and a space is accepted by the model and rejected by the source.
- Scraper.Number: a JavaScript number is modelled as an unbounded integer or NaN. Doubles, their rounding of digit strings longer than about 16 digits, fractions and exponent notation are not modelled.
- ConfigManager.ParseIntOfNumberText: holds for integers only, and in the source only for |n| < 10^21. `String(1e21)` is "1e+21" and `String(1.5)` is "1.5"; `parseInt` reads both back as 1. The server does not check `groupIndex` (`validateConfig` in src/services/config.service.ts does not look at `chapterNumber`), so a stored fractional or huge index is possible.
- ConfigManager.FillForm: the group index shown reads back as the stored one only for integers with |n| < 10^21, for the reason given for ParseIntOfNumberText.
- ConfigManager.FillThenRead: the configuration comes back unchanged only when its group index is NaN or an integer with |n| < 10^21, for the reason given for ParseIntOfNumberText.
- The story service, the TTS controller, `app.js` (which repeats the buffering rule of `AudioHandler`), the UI components, the e-mail service, configuration and routing are not part of this model.
- A thrown `TypeError` is an outcome with the state left behind; what a caller does with the rejected promise is not modelled.
- Chunker.SplitTextKeepsLetters: stated only when no word exceeds the limit, because an overlong word that meets an empty word buffer is dropped (Chunker.LongWordDropped); one that follows a non-empty buffer is kept.
- Chunker.ChunkLengthBound: stated only when every trimmed sentence fits, and with a bound of `maxLength + 3`, because the source keeps neither the limit nor any bound for overlong sentences.
