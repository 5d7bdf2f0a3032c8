# Browser-automation drivers: a Dafny model of their decision logic

This repository drives web applications from Node.js scripts through a
Chromium browser: two chat drivers (Gemini, ChatGPT) that send a list of
prompts and collect the answers, four Veo3 / Flow video generators that
type a prompt, press Create, wait for the clip, extend the scene and
download the result, and a selector self-test for the Flow page.

The model keeps what the scripts *decide* and leaves the browser abstract:

- A page is a map from selector to what the lookup gives (`Absent`,
  `Throws(msg)` or `Found(element)`), and a page that changes over time is a
  trace `nat -> Page` or `nat -> Observation` indexed by poll number.
- Each polling loop runs on its own abstract clock, advanced only by its own
  sleeps. So "poll k happens while 10 s·k is under the timeout" is exact for
  the loop, while the time page calls take is not modelled.
- Network, file-system and process outcomes (a download that fails, a
  directory that cannot be read, ffmpeg's exit) are parameters.
- Errors are their messages (`Result<T>` with `Err(msg)`).

Modules follow the scripts:

- `ChatInput`: argument and prompt handling, identical in `gemini-auto.js` and `gpt-auto.js`.
- `ChatSession`: the two chat drivers' session logic.
- `Page`: the shared `findElement` / `waitForElement`.
- `Veo3Project` and `Veo3Generation`: `veo3-common.js`.
- `Veo3Character`: `veo3-character-video.js`.
- `Veo3Shorts`: `veo3-shorts-simple.js`.
- `FlowShorts`: `flow-video-shorts.js`.
- `FlowAuto`: `flow-video-auto.js`.
- `FlowSelectorTest`: `flow-test-selectors.js`.
- `Wrappers`, `Text`, `Json`: small helpers. They hold `Option`/`Result`, the string operations of JavaScript the scripts use, and an abstract JSON value.

Where two files carry the same code, it is modelled once. The row cites one
file, and the third column names the other copy.

Loops are methods proved against a specification function, or against
direct `ensures` clauses. The lemmas beside each function state what it means.

## Model

| member | source | states |
|---|---|---|
| ChatInput.ParseArgs | scripts/gemini-auto.js:47-66 | The one pass over argv yields exactly the flag set, the key/value map and the positional list of their specifications (same code: gpt-auto.js:45-64). |
| ChatInput.OptionPairRoundTrip | scripts/gemini-auto.js:47-66 | `--key=value` parses back to (key, value) for every non-empty key without `=`. |
| ChatInput.OptionPairShape | scripts/gemini-auto.js:47-66 | Every pair found comes from an argument spelled `--key=value`, with a non-empty key free of `=`. |
| ChatInput.PairsDomain | scripts/gemini-auto.js:47-66 | A key is in the map if and only if some argument carries it. |
| ChatInput.PairsByDomain | scripts/gemini-auto.js:47-66 | For any reading of key/value pairs off the arguments, the left-to-right fold holds a key exactly when some argument yields it. |
| ChatInput.PairsLastWins | scripts/gemini-auto.js:47-66 | A key's value comes from the last argument carrying that key. |
| ChatInput.PositionalsAreNonOptions | scripts/gemini-auto.js:47-66 | The positionals are exactly the arguments not starting with `--`. |
| ChatInput.LeadingDigits | scripts/gemini-auto.js:68-71 | The longest prefix of decimal digits, which is the part parseInt reads. |
| ChatInput.ToIntReadsRenderedInt | scripts/gemini-auto.js:68-71 | toInt reads back any integer rendered as decimal, whatever non-digit text follows it (same code: gpt-auto.js:66-69). |
| ChatInput.ParseIntNegative | scripts/gemini-auto.js:68-71 | A minus sign followed by digits and then a non-digit parses as the negated value of the digits. |
| ChatInput.ParseIntUnsigned | scripts/gemini-auto.js:68-71 | Digits followed by a non-digit parse as the value of the digits. |
| ChatInput.ToIntWithoutDigits | scripts/gemini-auto.js:68-71 | A missing value, or one without digits, gives the default. |
| ChatInput.DeepFindWithin | scripts/gemini-auto.js:74-104 | Any array the recursive prompt search returns occurs inside the input (same code: gpt-auto.js:72-102). |
| ChatInput.FindInElemsWithin | scripts/gemini-auto.js:81-84 | A result of the array-element search comes from one of the elements. |
| ChatInput.FindInFieldsWithin | scripts/gemini-auto.js:97-100 | A result of the property search comes from one of the property values. |
| ChatInput.DeepFindWrappers | scripts/gemini-auto.js:88-92 | The recognised wrappers, in priority order: `prompts`, `json.prompts`, `data.prompts`, `item.json.prompts`. |
| ChatInput.DeepFindGivesUp | scripts/gemini-auto.js:74-103 | Past nesting depth 12, and on scalars, nothing is found. |
| ChatInput.Normalize | scripts/gemini-auto.js:106-116 | One normalised prompt per input element. |
| ChatInput.NormalizeGpt | scripts/gpt-auto.js:104-109 | The ChatGPT normalisation: one prompt per element, without a mode. |
| ChatInput.NormalizePromptJson | scripts/gemini-auto.js:106-116 | Normalising a normalised prompt's JSON form gives it back; only an empty mode is dropped. |
| ChatInput.NormalizeStable | scripts/gemini-auto.js:106-116 | Normalising twice keeps every index, text and non-empty mode. |
| ChatInput.NormalizeFields | scripts/gemini-auto.js:106-116 | An explicit non-null index and text survive. A missing index becomes position+1, a missing text becomes "". The mode is kept iff it is truthy, and the ChatGPT form is the same without the mode. |
| ChatInput.ReadInputOutcomes | scripts/gemini-auto.js:118-153 | Each outcome of readInputFromArgs happens exactly under its own condition, checked in order: 'No input provided'; 'Input file not found' with the path; 'Invalid JSON' with the message of the failed file read or parse; 'Prompts not found in input' when the search finds no array; otherwise the found array, normalised, is loaded (same code: gpt-auto.js:111-146). |
| ChatInput.SettingsDefaultsWithoutOptions | scripts/gemini-auto.js:197-203 | With no option, every setting takes the driver's default (ChatGPT's: gpt-auto.js:190-196). |
| ChatInput.SettingsOfNoOptions | scripts/gemini-auto.js:197-203 | Arguments with no flag and no key/value pair give the defaults. |
| ChatInput.SettingsTimeoutOption | scripts/gemini-auto.js:197-203 | The last `--timeout=<n>` sets the global timeout to n. |
| ChatInput.TimeoutFromPair | scripts/gemini-auto.js:197-203 | A `timeout` key holding a rendered integer n gives timeout n. |
| ChatSession.TargetClosedThreePatterns | scripts/gemini-auto.js:155-164 | The five target-closed patterns reduce to three substrings, in both directions (same code: gpt-auto.js:148-157). |
| ChatSession.WaitForCondition | scripts/gemini-auto.js:166-176 | It returns the first truthy call made before the deadline, or the timeout message when no call within the timeout was truthy (same code: gpt-auto.js:159-169). |
| ChatSession.Track | scripts/gemini-auto.js:482-522 | The poll of the last change is never in the future. |
| ChatSession.TrackMeaning | scripts/gemini-auto.js:482-522 | The tracked text is the last one seen. It was first seen at the recorded poll and is unchanged since; it is None iff no poll saw an answer block. |
| ChatSession.WaitForAnswerStable | scripts/gemini-auto.js:482-522 | It returns the text of the first settled poll before the deadline, or the stabilise timeout when no poll settled (same code: gpt-auto.js:331-371). |
| ChatSession.SettledMeansUnchanged | scripts/gemini-auto.js:482-522 | A settled answer has been unchanged for the whole stability window. |
| ChatSession.GotoWithRetry | scripts/gemini-auto.js:259-314 | The loop is proved equal to GotoFrom over the outcomes the attempts meet. A non-target-closed error is rethrown at once, and every attempt before the result closed. In CDP mode a target-closed attempt reconnects and the next one tries again, up to the limit. In launch mode the page stays null, so it arrives only on attempt 1, and a closed first attempt with a limit of two or more ends in the rethrown null-page TypeError (same code: gpt-auto.js:231-279). |
| ChatSession.NullGotoNotClosed | scripts/gemini-auto.js:155-164 | The TypeError `page.goto` throws on a null page matches none of the target-closed patterns. |
| ChatSession.LaunchRetryRethrows | scripts/gemini-auto.js:284-303 | As written, launch mode: after a target-closed first attempt, attempt 2 meets the null page and its TypeError is rethrown. |
| ChatSession.LaunchArrivesFirstOnly | scripts/gemini-auto.js:259-314 | As written, launch mode: the navigation arrives only on attempt 1, and the attempts run out only when the limit is at most one. |
| ChatSession.RecreatingRetryArrives | scripts/gemini-auto.js:284-314 | Corrected, with a fresh page before each retry: attempt k arrives whenever every attempt before it closed and k is within the limit. |
| ChatSession.SampleLaunchRetry | scripts/gemini-auto.js:284-314 | One target-closed attempt and then a page that loads: the script rethrows the TypeError on attempt 2, while the corrected loop arrives on attempt 2. |
| ChatSession.GptLoggedIn | scripts/gpt-auto.js:281-292 | Logged in iff the URL has no auth0/login/auth/ and the prompt textarea exists; a throwing lookup propagates. |
| ChatSession.OpenAndValidate | scripts/gemini-auto.js:324-337 | Success iff navigation arrived and the login check said yes; every other case reports its own error (same code: gpt-auto.js:294-307). |
| ChatSession.GeminiOpenOutcomes | scripts/gemini-auto.js:316-337 | Opening Gemini succeeds exactly when the navigation arrived on a URL with neither accounts.google.com nor signin; after arriving, 'Not logged in' is thrown exactly on such a sign-in URL. |
| ChatSession.SendPrompt | scripts/gemini-auto.js:524-639 | A blank prompt is skipped. A page error propagates. A non-empty answer is returned as is, and an empty one is recorded as "(No response)"; no recorded value is ever empty (same code: gpt-auto.js:373-413). |
| ChatSession.PromptRunRetriesOnce | scripts/gemini-auto.js:776-814 | One or two attempts; the second happens iff a target-closed error occurred in CDP mode and the reopen succeeded. Any other error is recorded as `(Error: msg)` (same code: gpt-auto.js:484-516). |
| ChatSession.PutKeys | scripts/gemini-auto.js:781 | Assigning a key into the results object adds exactly that key. |
| ChatSession.Run | scripts/gemini-auto.js:765-817 | One attempt count per prompt. |
| ChatSession.RunPrompt | scripts/gemini-auto.js:776-814 | The retry loop for one prompt computes its specification's value and attempt count. |
| ChatSession.RunPrompts | scripts/gemini-auto.js:765-817 | The per-prompt loop runs the mode switch before each prompt that asks for one; the first switch that throws leaves the loop with its message, and the results object and attempt counts are those of the specification for the prompts before it (all of them when none throws). |
| ChatSession.RunAttempts | scripts/gemini-auto.js:765-817 | Prompt i's attempt count is the one its own run decided. |
| ChatSession.PutFacts | scripts/gemini-auto.js:781 | Assignment keeps the keys distinct. The key now holds the new value, and every other key keeps its own. |
| ChatSession.PutDistinct | scripts/gemini-auto.js:781 | Assignment never creates a second entry for a key. |
| ChatSession.PutValues | scripts/gemini-auto.js:781 | After assignment the key holds the new value and every other key its old one, whether or not the keys were distinct. |
| ChatSession.RunStep | scripts/gemini-auto.js:765-817 | One more prompt assigns its outcome under its key into the results so far and appends its attempt count. |
| ChatSession.RunKeys | scripts/gemini-auto.js:765-817 | The results object the loop builds over all prompts has distinct keys: exactly the prompts' `result_p<index>` keys. |
| ChatSession.RunLastWins | scripts/gemini-auto.js:765-817 | Each key holds the outcome of the last prompt carrying it. |
| ChatSession.RunPromptsOutput | scripts/gemini-auto.js:765-817 | The results object built over all prompts has the prompts' keys, each once, and every prompt took one or two attempts (same code: gpt-auto.js:480-520). |
| ChatSession.RunSession | scripts/gemini-auto.js:757-834 | A failed open, a throwing initial `--mode` switch or the first throwing per-prompt switch ends run() with only that message printed; otherwise the results object of all prompts is printed (gpt-auto.js:476-545 is the case without a mode switch). |
| ChatSession.RunSessionOutput | scripts/gemini-auto.js:757-834 | Results are printed exactly when opening succeeded and no mode switch that ran threw; they then have the prompts' keys, each once. Otherwise the message printed is that of the first failure, and every result is dropped. |
| Page.AsList | scripts/veo3-common.js:181 | One selector becomes a one-element list; a list stays itself. |
| Page.FindElement | scripts/veo3-common.js:180-189 | findElement returns the first visible match, or null (same code: veo3-shorts-simple.js:118-127). |
| Page.FirstVisibleFromIsFirst | scripts/veo3-common.js:180-189 | The search from position k finds a match iff some later selector is visible, and that match is the earliest. |
| Page.FirstVisibleIsFirst | scripts/flow-video-shorts.js:168-186 | The element returned belongs to the earliest visible selector, and null means none is visible. |
| Page.FirstVisibleIgnoresFailures | scripts/flow-video-auto.js:91-114 | Absent, hidden or throwing selectors never change the result. |
| Page.WaitForElement | scripts/flow-video-shorts.js:188-201 | The poll loop computes waitForElement's specification (same code: flow-video-auto.js:116-132). |
| Page.WaitHitFromSound | scripts/flow-video-shorts.js:188-201 | A hit comes from a poll before the deadline that shows it, and every earlier poll showed nothing. With no hit, no poll before the deadline showed one. |
| Page.WaitNeverPollsWithoutTime | scripts/flow-video-auto.js:116-132 | A timeout of zero or less finds nothing. |
| Text.TrimEmptyIffBlank | scripts/gemini-auto.js:526-529 | A prompt trims to empty exactly when every character is whitespace. |
| Text.LowerAscii | scripts/flow-video-auto.js:414 | The lowercasing keeps the length and maps A-Z to a-z. |
| Text.RoundSeconds | scripts/flow-video-shorts.js:337 | `Math.round(ms/1000)`, characterised by 1000·r <= ms+500 < 1000·(r+1). |
| Veo3Project.ScenesMatchFrom | scripts/veo3-common.js:198 | The leftmost position at which `/\/scenes\/.*$/` matches, or none. |
| Veo3Project.StripScenesOfUrl | scripts/veo3-common.js:197-198 | A one-line URL is cut at its first `/scenes/`, and what remains contains none. |
| Veo3Project.MatchRestIsOneLine | scripts/veo3-common.js:198 | Where the pattern matches, the rest of the string has no line terminator. |
| Veo3Project.StripScenesIdempotent | scripts/veo3-common.js:198 | Truncating twice is truncating once. |
| Veo3Project.ScenesGuardRedundant | scripts/veo3-common.js:197-203 | The `includes('/scenes/')` guard changes nothing. |
| Veo3Project.StartNewProject | scripts/veo3-common.js:194-237 | Landing on a sign-in page is 'Not logged in'. A SceneBuilder landing is left for the project page, and the New Project button is sought iff no project is configured. |
| Veo3Project.StartNewProjectAvoidsScenes | scripts/veo3-common.js:195-220 | No page it navigates to is a SceneBuilder page. |
| Veo3Project.SelectImagesMode | scripts/veo3-common.js:242-281 | SceneBuilder URLs are refused. Otherwise its first found button is clicked iff its state is not 'on', and the not-found error comes after 5 empty lookups. |
| Veo3Project.CurrentCount | scripts/veo3-common.js:328 | The count shown is 1 iff the text has a '1' and no '2', otherwise 2. |
| Veo3Project.ImageSettingsPlan | scripts/veo3-common.js:296-348 | The aspect menu is clicked iff an aspect is requested, the button exists and it shows the other orientation. The count menu is clicked iff a count is requested, the button exists and it shows another count. |
| Veo3Project.AspectChangeIffMismatch | scripts/veo3-common.js:300-302 | For landscape and portrait, a change is needed iff the button shows the other orientation. |
| Veo3Project.SettingsStable | scripts/veo3-common.js:296-348 | Buttons already showing the requested settings are left alone. |
| Veo3Project.ExtendScene | scripts/veo3-common.js:758-810 | It retries only retryable errors and stops at the attempt limit. It rethrows the last error without its RETRY: tag, and reloads the scene-stripped URL before each further attempt. |
| Veo3Project.RethrowDropsTag | scripts/veo3-common.js:804 | The rethrown message loses exactly its `RETRY:` tag. |
| Veo3Project.TaggedMessagesRetryable | scripts/veo3-common.js:795-797 | Every `RETRY:`-tagged message passes the retry test; whether it is retried also depends on the attempt limit. |
| Veo3Generation.WaitCreateButton | scripts/veo3-common.js:378-388 | The wait loop computes its specification (same code: veo3-character-video.js:92-102). |
| Veo3Generation.CreateWaitFromSound | scripts/veo3-common.js:381-386 | A click before the tenth check is on a ready button, and every earlier button was still waiting. |
| Veo3Generation.StrictWaitClicksEnabled | scripts/veo3-common.js:381-386 | With the intended `disabled === null` test, a click before the tenth check is on a button without a `disabled` attribute. |
| Veo3Generation.DisabledEmptyCountsAsEnabled | scripts/veo3-common.js:381-386 | As written, a button rendered `disabled=""` is clicked at once; the intended test waits for it (copy: veo3-character-video.js:95-100). |
| Veo3Generation.PollStep | scripts/veo3-common.js:399-449 | The poll throws only with the failure phrase in the message. |
| Veo3Generation.WaitForImage | scripts/veo3-common.js:396-458 | It returns the first finished poll among 120. Otherwise it throws the first failure, or the timeout when no poll was final, and it counts the pauses the navigation-error counter caused (same code: veo3-character-video.js:111-180). |
| Veo3Generation.PollImage | scripts/veo3-common.js:396-458 | For any decision of one poll, the loop ends at the first final poll within 120, or times out with none, and its pause count follows the navigation-error counter. |
| Veo3Generation.StreakBounds | scripts/veo3-common.js:393-417 | The counter stays below three, and each pause took three navigation errors. |
| Veo3Generation.ImageFailureRetryable | scripts/veo3-common.js:403-405 | Every image failure is one extendScene retries. |
| Veo3Generation.BaseImageDoneImpliesImageDone | scripts/veo3-character-video.js:140-163 | Without the Add To Prompt button, the base-image check implies generateImage's (veo3-common.js:425-442). |
| Veo3Generation.FindPromptInput | scripts/veo3-common.js:478-506 | The first (attempt, selector) pair showing an input, or the RETRY: error when none of the 25 does. |
| Veo3Generation.FindCreateButton | scripts/veo3-common.js:514-530 | findElement's button, or otherwise the fallback search's. |
| Veo3Generation.FallbackChoice | scripts/veo3-common.js:524-527 | The fallback keeps a visible button when there is one, and otherwise the last selector's element. |
| Veo3Generation.WaitEnabled | scripts/veo3-common.js:532-536 | At most 20 checks; it stops at the first without `disabled`, and every earlier check had one. |
| Veo3Generation.WaitForVideoGeneration | scripts/veo3-common.js:545-574 | Success is the first poll before the deadline showing Add to Scene. Otherwise the RETRY: failure of the first poll showing the failure phrase, or the timeout when no poll showed either. |
| Veo3Generation.SelectExtendOption | scripts/veo3-common.js:641-680 | It succeeds iff one of the 3 attempts shows the option, at the first such attempt, after the backoff for the failures. |
| Veo3Generation.MenuBackoffClosedForm | scripts/veo3-common.js:671-673 | n failed attempts sleep 1000·n·(n+1) ms. |
| Veo3Generation.WaitButtonGone | scripts/veo3-common.js:693-700 | At most 30 polls, stopping at the first where the button is gone. |
| Veo3Generation.WaitExtension | scripts/veo3-common.js:702-747 | Success is the first poll before the deadline where a clip was added and the button is back. Otherwise the RETRY: failure or timeout, each under its exact condition. |
| Veo3Generation.ClipAddedSkipsErrorCheck | scripts/veo3-common.js:726-730 | Once a clip is added, the error dialog is no longer checked. |
| Veo3Generation.ExtendSceneInternal | scripts/veo3-common.js:617-753 | The menu failure and the create error are reported as such; any later error is retryable, and success means the clip was added. |
| Veo3Character.TempPathShape | scripts/veo3-character-video.js:242 | The temp path replaces the first `.mp4` and is 5 characters longer; a path without `.mp4` is its own temp path. |
| Veo3Character.AudioOption | scripts/veo3-character-video.js:507 | `-c:a copy` when keeping audio, `-an` otherwise. |
| Veo3Character.FfmpegCommandShape | scripts/veo3-character-video.js:507-509 | The command reads the temp file, writes the output, and has the audio option. |
| Veo3Character.DataUrlRoundTrip | scripts/veo3-character-video.js:362-363 | A data URL built from an acceptable type and payload matches back to them. |
| Veo3Character.DataUrlMatchSound | scripts/veo3-character-video.js:362 | What matches is exactly such a data URL. |
| Veo3Character.CaptureRequests | scripts/veo3-character-video.js:333-341 | The request listener keeps the last capturable URL. |
| Veo3Character.LastCapturedIsLast | scripts/veo3-character-video.js:334-341 | A URL is captured iff some request qualifies, and it is the last one that does. |
| Veo3Character.NewestCandidate | scripts/veo3-character-video.js:465-481 | The first element of the list filtered by the name test, sorted newest first by a stable sort; there is none iff no entry passes the test. |
| Veo3Character.NewestUnique | scripts/veo3-character-video.js:478-481 | At most one entry is the newest candidate. |
| Veo3Character.DirPickMeaning | scripts/veo3-character-video.js:462-489 | A directory yields a file iff it was readable and its newest candidate is recent and large enough. |
| Veo3Character.ScanDownloads | scripts/veo3-character-video.js:451-498 | The scan loop computes its specification. |
| Veo3Character.ScanFromFirst | scripts/veo3-character-video.js:459-492 | The scan reports the first read in loop order that yields a file; when it reports nothing, no read yielded one. |
| Veo3Character.TryHref | scripts/veo3-character-video.js:344-397 | Method 1 sets the file exactly as its specification says, resetting it when the transfer fails. |
| Veo3Character.TryClick | scripts/veo3-character-video.js:400-436 | Method 2 as written (no reset on failure), or corrected. |
| Veo3Character.TryCapture | scripts/veo3-character-video.js:439-448 | Method 3 downloads the captured URL and resets on failure. |
| Veo3Character.DownloadFinalVideo | scripts/veo3-character-video.js:239-502 | The file comes from the first method that sets it; otherwise the script's error. |
| Veo3Character.StageRank | scripts/veo3-character-video.js:343-498 | Each method yields only sources of its own kind. |
| Veo3Character.ChainOrder | scripts/veo3-character-video.js:343-498 | The file comes from the first method that yields one, and every earlier method yielded nothing; there is no file iff every method failed. |
| Veo3Character.FailedHttpContinues | scripts/veo3-character-video.js:352-357 | A failed HTTP download in method 1 or 3 leaves the chain as if that method did not exist. |
| Veo3Character.DataUrlNeedsMatch | scripts/veo3-character-video.js:360-392 | A data URL, from the href or from the blob, yields a file only when it matches the pattern. |
| Veo3Character.ClickFailureEndsChain | scripts/veo3-character-video.js:424-434 | As written, a failed click transfer ends the chain with the incomplete file. |
| Veo3Character.ClickFailureFallsThrough | scripts/veo3-character-video.js:424-448 | Corrected, a failed click transfer goes on to the captured URL and the scan. |
| Veo3Character.CorrectedChainComplete | scripts/veo3-character-video.js:424-448 | Corrected, only completed files are handed on, and it agrees with the script whenever the script's file was complete. |
| Veo3Character.SampleClickFailure | scripts/veo3-character-video.js:424-448 | A concrete run on which the script goes on with the failed transfer's file, while the corrected chain downloads the captured URL. |
| Veo3Character.NonBlank | scripts/veo3-character-video.js:551 | The filter either keeps prompts or throws. |
| Veo3Character.NonBlankCrash | scripts/veo3-character-video.js:551 | The filter throws iff some element is a truthy non-string. |
| Veo3Character.NonBlankSound | scripts/veo3-character-video.js:551 | Every kept prompt is a non-blank string element of the input. |
| Veo3Character.NonBlankComplete | scripts/veo3-character-video.js:551 | Every non-blank string element is kept. |
| Veo3Character.CrashStep | scripts/veo3-character-video.js:551 | The filter throws on a list exactly when it throws on the head's `trim` or on the rest. |
| Veo3Character.NonBlankStep | scripts/veo3-character-video.js:551 | Where it does not throw, the filter keeps the head exactly when the head is a non-blank string, in front of what it keeps of the rest. |
| Veo3Character.NonBlankIsFilter | scripts/veo3-character-video.js:551 | Where it does not throw, the filter keeps, in order, exactly the string elements that are non-blank. |
| Veo3Character.KeptFromSound | scripts/veo3-character-video.js:551 | An order-keeping filter keeps no more strings than the list has, and each one is an element that passed the test. |
| Veo3Character.KeptFromComplete | scripts/veo3-character-video.js:551 | An order-keeping filter keeps every string element that passes the test. |
| Veo3Character.ValidateRejections | scripts/veo3-character-video.js:540-548 | 'imagePrompt required' and 'videoPrompts required (array of prompts)', each exactly under its condition, in order. |
| Veo3Character.ValidateAllBlank | scripts/veo3-character-video.js:551-555 | 'At least one non-empty video prompt required' exactly when every prompt is blank or falsy. |
| Veo3Character.ValidatePasses | scripts/veo3-character-video.js:551-558 | A configuration that passes has a non-empty string image prompt (any other truthy one makes the `substring` of the log line throw) and carries only non-blank prompts, and every non-blank string prompt is kept. |
| Veo3Character.NoArgumentRejected | scripts/veo3-character-video.js:520-543 | Without an argument the defaults apply and are rejected for their empty image prompt. |
| Veo3Character.FirstFailure | scripts/veo3-character-video.js:584-594 | The first failing step; the steps before it all succeed. |
| Veo3Character.SceneDelayMs | scripts/veo3-character-video.js:598 | `sceneDelay \|\| 3000`: never zero, and a non-zero delay is kept. |
| Veo3Character.Range | scripts/veo3-character-video.js:597-601 | The ascending indices lo..hi-1. |
| Veo3Character.DelaysStep | scripts/veo3-character-video.js:596-601 | Step k adds a sleep after itself exactly when it is an extension other than the last. |
| Veo3Character.TotalOfSteps | scripts/veo3-character-video.js:566-594 | The recorded entries of k successful steps add up to the times of the video and extension steps; the image's time is not added. |
| Veo3Character.RunScenes | scripts/veo3-character-video.js:565-602 | The entries of the steps before the first failure, their total time, the sleeps between extensions, and the first failure's error. |
| Veo3Character.CompleteRunLayout | scripts/veo3-character-video.js:581-594 | A complete run sleeps only between extensions: never after the first video or the last extension. |
| Veo3Character.FirstFailureIs | scripts/veo3-character-video.js:584-594 | The first failure is the step that fails after every earlier step succeeded, or none when all succeed. |
| Veo3Shorts.BuilderWaitFrom | scripts/veo3-shorts-simple.js:270-284 | 2 s per poll up to the first ready poll, or 60 s when none is ready. |
| Veo3Shorts.GenerateVideo | scripts/veo3-shorts-simple.js:216-291 | An exception before the Create lookup, a missing Create button, an exception of the enable wait or click, of a poll or of the Add to Scene step each ends it with that error. Otherwise the rounded seconds of the first poll showing Add to Scene plus the builder wait, or of the full poll time, after only quiet polls, when none showed it. |
| Veo3Shorts.ExtendScene | scripts/veo3-shorts-simple.js:297-395 | A choreography error propagates. Otherwise the rounded seconds up to the first poll showing the add-clip button again, or the timeout naming the scene. |
| Veo3Shorts.ExtendTimeoutNamesScene | scripts/veo3-shorts-simple.js:390 | The message starts with 'Scene <index>' and ends with ' extension timeout'. |
| Veo3Shorts.CheckShortsOutcomes | scripts/veo3-shorts-simple.js:404-421 | 'Invalid JSON' iff the argument does not parse; 'Prompt required' iff the merged prompt is falsy; a truthy non-string prompt makes the `substring` of the log line throw; only a non-empty string prompt goes on, with the parsed overrides. |
| Veo3Shorts.VideoTotal | scripts/veo3-shorts-simple.js:436-445 | One first video plus one extension for each index from 2 to videoCount. |
| Veo3Shorts.FirstError | scripts/veo3-shorts-simple.js:436-445 | The first failing video; all before it succeed. |
| Veo3Shorts.RunVideos | scripts/veo3-shorts-simple.js:436-445 | The times of the videos before the first error, their sum, and that error. |
| Veo3Shorts.Snapshot | scripts/veo3-shorts-simple.js:463-470 | The snapshot loop computes its specification over the five folders. |
| Veo3Shorts.PathsOfMembers | scripts/veo3-shorts-simple.js:468 | A path is in a folder's set iff one of the folder's names joins to it. |
| Veo3Shorts.ExistingMembers | scripts/veo3-shorts-simple.js:463-470 | The snapshot holds exactly the paths some readable folder listed. |
| Veo3Shorts.WaitExportLink | scripts/veo3-shorts-simple.js:484-531 | The first of 60 polls showing the link, or the 120-second error when none did. |
| Veo3Shorts.SearchDir | scripts/veo3-shorts-simple.js:539-558 | One folder is read as its specification says. |
| Veo3Shorts.WaitForFile | scripts/veo3-shorts-simple.js:536-572 | The first hit in poll order and then folder order, or the 90-second error. |
| Veo3Shorts.DirFindSound | scripts/veo3-shorts-simple.js:542-555 | A hit is a new `.mp4`, neither a temporary nor an own output, larger than 100000 bytes. |
| Veo3Shorts.FileWaitSound | scripts/veo3-shorts-simple.js:536-564 | The file wait never picks a path from the snapshot. |
| Veo3Shorts.DownloadShorts | scripts/veo3-shorts-simple.js:473-572 | A missing button and a missing link are reported, each exactly under its condition. A file found is never one from the snapshot. |
| Veo3Shorts.ShortsFfmpegCommand | scripts/veo3-shorts-simple.js:575 | The remux always drops the audio. |
| FlowShorts.GenerateSingleVideo | scripts/flow-video-shorts.js:206-339 | An exception before the prompt lookup (notifications, image mode, upload) propagates, and a missing prompt input or Create button is reported. On success: the video of the first poll with a video, its local copy iff it is not a blob URL, and the rounded elapsed time. Otherwise: the generation error, the download error or the timeout. |
| FlowShorts.ErrorNeedsKatakana | scripts/flow-video-shorts.js:296-327 | Only エラー stops the poll: when no poll's error text contains it (an English 'Error', say), a video that fails after both lookups failed by the timeout or by its download, never by a 'Generation error: '. |
| FlowShorts.ConcatListTwoLines | scripts/flow-video-shorts.js:77-78 | For paths without newlines, the list file holds exactly two `file '<path>'` lines. |
| FlowShorts.ConcatenateVideos | scripts/flow-video-shorts.js:73-98 | The copy concat is tried first and the re-encode only after it fails; the result is the output path, or the re-encode's error. |
| FlowShorts.CheckFlowInputOutcomes | scripts/flow-video-shorts.js:355-368 | 'Invalid JSON input' iff the argument does not parse; 'Prompt is required' for a missing or falsy prompt. Otherwise the parsed configuration is used (same code: flow-video-auto.js:145-158). |
| FlowShorts.GenerateAll | scripts/flow-video-shorts.js:422-447 | The videos before the first failure, in order, and that failure's message; all videoCount when none fails. |
| FlowShorts.ChooseFinalCases | scripts/flow-video-shorts.js:452-468 | Two local videos are concatenated, with the audio when it exists. Otherwise a single local video is used, and more videos never change the choice. |
| FlowShorts.Summaries | scripts/flow-video-shorts.js:474-479 | One summary per video, 1-based, with its URL, path and time. |
| FlowShorts.TotalTimeAppend | scripts/flow-video-shorts.js:481 | The total time adds up over concatenation. |
| FlowShorts.TotalTimeBounds | scripts/flow-video-shorts.js:481 | Each video's time is at most the total, and the total is zero iff every time is. |
| FlowShorts.RunReportMeaning | scripts/flow-video-shorts.js:452-502 | Sign-in pages fail with 'Not logged in to Google'. A generation error fails with the partial results. The concat and audio failures matter only on the concatenated path, and success reports every video. |
| FlowAuto.NewProjectOnlyWithoutProject | scripts/flow-video-auto.js:212-234 | New Project is sought iff no project URL is given, and then the start page is opened. |
| FlowAuto.SignInCheckWider | scripts/flow-video-auto.js:194-203 | This script's sign-in test covers the shorts script's and any URL with 'signin'. |
| FlowAuto.ErrorCheckWider | scripts/flow-video-auto.js:410-414 | Every error the shorts script stops on stops this one; 'Error' stops only this one. |
| FlowAuto.WaitForVideo | scripts/flow-video-auto.js:389-432 | The first poll before the deadline with a video, or the first with an error when none had a video before, or the timeout when no poll had either. |
| FlowAuto.Run | scripts/flow-video-auto.js:176-459 | Each stop reason under its condition ('Not logged in to Google', the prompt input, the Create button, 'Generation error: '). A finished run succeeds iff a video was seen, with its rounded time. An unsuccessful finish saw neither video nor error, and polls with neither end without success and exit 0. |
| FlowAuto.TimeoutExitsNormally | scripts/flow-video-auto.js:389-459 | A timeout is a normal end: a run past the sign-in and lookup checks whose polls showed neither a video nor an error finishes with `success: false`, no video, and exit code 0. |
| FlowSelectorTest.Clip | scripts/flow-test-selectors.js:52 | `substring(0, 50)`: a prefix of at most 50 characters, all of a shorter text. |
| FlowSelectorTest.ProbeOf | scripts/flow-test-selectors.js:43-59 | An entry is found iff the lookup matched, with its visibility and clipped text; it records the error iff the lookup threw. |
| FlowSelectorTest.Probes | scripts/flow-test-selectors.js:38-63 | One entry per selector, in order. |
| FlowSelectorTest.TestSelector | scripts/flow-test-selectors.js:38-63 | The loop builds exactly the entries of its specification. |
| FlowSelectorTest.PassedIffFindable | scripts/flow-test-selectors.js:168 | A group passes iff findElement would find an element for it. |
| FlowSelectorTest.PassedCountBounds | scripts/flow-test-selectors.js:168-175 | The pass count is at most the number of groups, and equals it iff every group passed. |
| FlowSelectorTest.Run | scripts/flow-test-selectors.js:89-175 | A sign-in page stops the run. Otherwise one result per test, each passing iff its group is findable, with the count and all-passed flag derived from them. |

## Left out

- JSON.parse, base64 decoding, reading files, HTTP downloads, ffmpeg and `fs` calls: their outcomes are parameters (a parser `string -> Result<Json>`, a map from each existing file to its contents or to the message its read throws, success flags and error strings).
- The browser itself: element handles, clicks, typing, `evaluate` scripts, `dismissNotifications`, the mode and model menu choreography (for example the clicks inside gemini-auto.js's ensureMode, flow-video-auto.js:249-277), screenshots, `keepTabOpen` and page closing. Where a script lets their exceptions propagate, the model takes the exception as an input where it has been named (ensureMode in ChatSession.RunSession, the preludes of Veo3Shorts.GenerateVideo, Veo3Shorts.ExtendScene and FlowShorts.GenerateSingleVideo); exceptions of the other page calls are not modelled.
- ChatSession.RunSession: the extra `{error: 'Not logged in', url}` line that the open functions write before throwing, the screenshot and chat deletion after the loop, and the `run().catch` handler are not modelled; the printed result is the final line.
- The selector strings in the SELECTORS tables and the seven-entry `tests` table of flow-test-selectors.js: configuration data, given as parameters.
- `Date.now()` and `waitForTimeout`: each loop runs on its own abstract clock advanced by its sleeps. Time spent inside page calls, and the exact millisecond each Flow file stamp takes, are not modelled; stamps are parameters.
- Floating-point arithmetic: the only rounding (`Math.round(ms/1000)`) is modelled exactly on non-negative integers, and download progress percentages are left out.
- `parseInt` beyond JavaScript's safe-integer range, and the property order of parsed JSON objects (the model keeps the order it is given).
- JSON numbers that are not integers: `JNum` holds an integer, so a fractional or exponent-notation number is not represented. The model therefore does not capture a prompt `index` of 1.5 giving the key `result_p1.5`, `String(1e21)` being "1e+21", or a value such as 0.5 (for example a `sceneDelay`) being truthy.
- FlowSelectorTest.Clip: `substring(0, 50)` counts UTF-16 code units, while a Dafny string counts Unicode scalar values. For text with characters outside the Basic Multilingual Plane (emoji), the script keeps fewer characters than the model and can split a surrogate pair, which the model cannot express.
- Veo3Shorts.ExtendScene: an exception thrown by a page call during its two waits (the disappear wait and the completion poll) is not an input; only the prelude's errors and the timeout are modelled.
- Veo3Shorts.GenerateVideo: `sceneError` stands for the first exception reached after Add to Scene showed; a builder poll that throws is not tied to its position in the builder wait.
- ChatSession.WaitForCondition: requires a positive interval. In the scripts the interval is always a positive constant, and with interval 0 the JavaScript loop spins until the clock runs out, which an abstract clock cannot express.
- Concurrency: the CDP connection, the request listener running beside the download chain (represented by the requests it saw), and process exit codes other than 0/1.
- The retry delay of veo3-common.js's extendScene (a sleep), and the export-dialog waits of veo3-character-video.js. Their outcomes are inputs to the download chain.
- The enable waits before the Create click in flow-video-shorts.js and flow-video-auto.js: they click either way. Also the `download: false` output variant and the stdout JSON formatting.
- `path.join` normalisation: paths are joined with one `/` between a folder without a trailing slash and a plain name.
- `unlinkSync` of temporary files: removal does not affect any reported result.
- FlowSelectorTest.ProbeOf: `isVisible()` throwing after a successful match is folded into the lookup's `Throws` outcome, which the catch records as not found with the error. An `innerText()` failure is caught by `.catch(() => '')`, so it is represented by a found element whose text is empty; the abstract page has no separate failure for it.
- FlowAuto.HasError: `toLowerCase` is modelled as ASCII lowercasing. For the test `includes('error')` this is exact, since no non-ASCII character lowercases to e, r or o.
- veo3-shorts-simple.js's extendScene has no branch for a missing extend option. `waitForSelector` throws rather than returning null, so `if (!extendOption)` is dead code, and its error is one of the choreography errors.
- flow-video-shorts.js concatenates only the first two generated videos, and the model keeps that.

## Findings

| source | as written | input that shows it | evidently intended | confidence | as-written member | corrected member |
|---|---|---|---|---|---|---|
| scripts/veo3-common.js:381-386 | The wait for the Create button stops at `if (!disabled) break`. An attribute rendered as `disabled=""` is falsy, so a disabled button is clicked without waiting (same code: veo3-character-video.js:95-100). | A Create button whose `getAttribute('disabled')` returns `""` at the first check. | Wait while the attribute is present (`disabled === null`, as inputPromptAndCreate at veo3-common.js:532-536 tests it). | not executed | Veo3Generation.DisabledEmptyCountsAsEnabled | Veo3Generation.StrictWaitClicksEnabled |
| scripts/veo3-character-video.js:424-434 | Method 2 sets `downloadedFile` before its transfer and does not reset it when the transfer fails. So methods 3 and 4 are skipped, and the incomplete file goes on to ffmpeg. | No href, a click download event with an http URL whose transfer fails, and a request listener that captured the video URL (Veo3Character.SampleBrowser). | Reset `downloadedFile` on failure, as methods 1 and 3 do, so the chain falls through to the captured URL and the folder scan. | not executed | Veo3Character.ClickFailureEndsChain | Veo3Character.CorrectedChainComplete |
| scripts/gemini-auto.js:284-303 | After a target-closed error, gotoWithRetry sets `page = null` and retries. Only CDP mode makes a new page (ensureLiveCDPPage returns at once at line 259), so in launch mode the retry calls `goto` on null. The TypeError is not a target-closed error and is rethrown: the retry can never succeed (same code: gpt-auto.js:231-279). | Launch mode, limit 3, a first attempt that throws 'Target closed' and a page that would then load (ChatSession.SampleLaunchRetry). | Recreate the page before a retry in launch mode too, so a later attempt can arrive. | not executed | ChatSession.LaunchRetryRethrows | ChatSession.RecreatingRetryArrives |
