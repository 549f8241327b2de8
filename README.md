# Voice-command dispatcher and notification payload, modelled in Dafny

This project models two programs from one repository:

- **The desktop voice assistant.** Its `allCommands` dispatcher (`bot/engine/command.py`) takes one utterance. The utterance is either captured by `takecommand` or passed in. The dispatcher hands it to exactly one action, in a fixed order of priority:
  - the capture-failure sentinel `" Unable to Listen! "` gets an apology;
  - a query containing "on youtube" is played;
  - a query containing "open" goes to `openCommand`;
  - anything else is "not understood".
- **The actions behind the dispatcher** (`bot/engine/features.py`).
  - `openCommand` extracts an application name: lower-case and strip, remove the assistant's name, remove "open", strip. It then looks the name up in `sys_command`, then in `web_command`. A hit launches the path split on whitespace, or opens the URL. Otherwise it says why nothing happened, unless the name is empty: then it is silent and looks nothing up.
  - `PlayYoutube` announces the search term and then plays it.
  - The `frontend_ready` flag holds back wake-word detection until the front end has called `notifyFrontendReady`.
- **The notification server's `/send-notification` handler** (`index.js`). It builds a push message from the request body: `||` defaults, `String(requestId)` and fixed Android delivery settings. It answers 200 or 500 depending on whether sending succeeded. When `String(requestId)` throws, the handler sends no answer at all.

Each effect is an event in a trace (`Effects.Event`): display, speak, launch, open URL, play, or show the idle screen. A call that lets an exception escape returns `raised = true` along with the events issued up to and including the call that raised (`Effects.Run`).

Some parts of the outside world cannot be inspected: the search-term extractor, and which launches, browser calls and player calls raise. These are the functions of a `Features.World` value. The assistant's name is a parameter. A command table is its rows in table order, or `Failing` when its query raises.

Strings are ASCII. Python's `lower` maps A–Z only. `isspace` is characters 9–13, 28–31 and the space. `in` is substring search. `replace` replaces every occurrence, scanning left to right without overlap. `split()` gives the maximal runs of non-whitespace.

Files:

- `Text.dfy`: the string operations.
- `Effects.dfy`: the event trace.
- `Features.dfy`: `features.py`.
- `Command.dfy`: `command.py`.
- `Notifier.dfy`: `index.js`.
- `Scenarios.dfy`: worked examples on concrete utterances and tables.

Behaviour of the code worth knowing, all modelled as written:

- **Listen timeout.** `r.listen` (bot/engine/command.py:32) is outside the `try`. A listen that times out therefore escapes `allCommands`: no apology is spoken and the idle screen is not shown. Any exception inside the `try` (bot/engine/command.py:35-40) yields the sentinel; the model keeps only a failing `recognize_google`.
- **Sentinel branch.** It `return`s before `eel.ShowHood()`, so the idle screen is not shown after it. An exception from `playonyt` also escapes before `ShowHood`.
- **Name removal.** The assistant's name and "open" are removed at every occurrence, not once each. "open jarvis open calculator" still names "calculator" (`Scenarios.CalculatorExample`). "opopenen" names "open" (`Text.RemovalCanCreateOccurrence`).
- **Browser failure.** A `webbrowser.open` that raises is caught by the outer handler. "Something went wrong!" is then spoken after "Opening …".
- **Request id conversion.** `String(requestId)` (index.js:35) runs before the `try`. A request id that is an object with its own `toString` key, or an array holding one, makes it throw a TypeError. The handler's promise then rejects and it sends no response itself.

## Model

| member | source | states |
|---|---|---|
| Text.IsSpaceListed | bot/engine/features.py:57 | the whitespace test accepts exactly tab, line feed, vertical tab, form feed, carriage return, the four separators 28–31 and the space |
| Text.LowerChar | bot/engine/features.py:57 | lower-casing a character leaves no capital, keeps whether it is whitespace, and leaves every non-capital unchanged |
| Text.Lower | bot/engine/features.py:57 | `lower()` keeps the length, lower-cases each ASCII capital, leaves every other character, and leaves no capital |
| Text.LowerOfLower | bot/engine/features.py:57 | lower-casing a string with no capital changes nothing |
| Text.StripLeft | bot/engine/features.py:57 | the left strip is a suffix of the input that starts with a non-space; everything dropped is whitespace |
| Text.StripRight | bot/engine/features.py:57 | the right strip is a prefix of the input that ends with a non-space; everything dropped is whitespace |
| Text.Strip | bot/engine/features.py:57 | the result has no whitespace at either end |
| Text.StripIsSlice | bot/engine/features.py:62-63 | `strip()` is a slice `s[i..j]` of its input, with only whitespace before `i` and after `j` |
| Text.StripOfStripped | bot/engine/features.py:63 | a string with no whitespace at either end is its own strip |
| Text.StripIdempotent | bot/engine/features.py:62-63 | stripping twice gives the same as stripping once, so line 63 changes nothing |
| Text.StripKeepsLower | bot/engine/features.py:57 | stripping a lower-case string keeps it lower case |
| Text.StripEmptyIff | bot/engine/features.py:66 | the strip is empty exactly when every character is whitespace |
| Text.Contains | bot/engine/command.py:62 | the empty string is in every string, and a string only contains what is no longer than itself |
| Text.ContainsIff | bot/engine/command.py:62 | the scan for `sub in s` succeeds exactly when `sub` occurs at some index of `s` |
| Text.AbsentCharNotContained | bot/engine/command.py:62 | a string lacking one of `sub`'s characters does not contain `sub` |
| Text.ContainedInMiddle | bot/engine/command.py:62 | a string contains any part it is built around |
| Text.Interleave | bot/engine/features.py:60 | `s.replace("", r)` inserts `r` at each of the `len(s) + 1` positions, so its length is `len(s) + (len(s) + 1) * len(r)` |
| Text.Replace | bot/engine/features.py:60-62 | replacing a non-empty pattern by something no longer never lengthens the string, and by something of equal length keeps its length |
| Text.ReplaceAbsent | bot/engine/features.py:60 | replacing a pattern that does not occur leaves the string as it is |
| Text.ReplaceEmptyByEmpty | bot/engine/features.py:59-60 | `s.replace("", "")` is `s`, so an empty assistant name removes nothing |
| Text.ReplaceAtFront | bot/engine/features.py:62 | a match at the front is replaced, and the scan resumes after it (no overlap) |
| Text.ReplaceCopiesPrefix | bot/engine/features.py:62 | a prefix without the pattern's first character is copied unchanged |
| Text.ReplaceKeepsLower | bot/engine/features.py:60 | removing from a lower-case string keeps it lower case |
| Text.RemovalCanCreateOccurrence | bot/engine/features.py:62 | `"opopenen".replace("open", "")` is "open": removal can create a new "open" |
| Text.Word | bot/engine/features.py:77 | the first word is the longest whitespace-free prefix: a prefix without whitespace, followed by whitespace or the end |
| Text.Split | bot/engine/features.py:77 | every word of `split()` is non-empty and free of whitespace |
| Text.SplitAround | bot/engine/features.py:77 | any non-empty run of whitespace separates words and vanishes: the words of `a + w + b` are the words of `a` followed by those of `b` |
| Text.SplitEmptyIff | bot/engine/features.py:77 | `split()` gives no words exactly when the string is all whitespace |
| Text.SplitSingleWord | bot/engine/features.py:77 | a path without whitespace splits into itself alone |
| Text.SplitLeadingSpace | bot/engine/features.py:77 | any all-whitespace prefix, of any length and kind, does not change the split |
| Text.SplitJoin | bot/engine/features.py:77 | splitting words joined by single spaces gives back exactly those words |
| Features.NameQuery | bot/engine/features.py:57-62 | the query after the removals is lower case with no whitespace at either end |
| Features.AppName | bot/engine/features.py:62-63 | `app_name` equals the stripped query, so the name spoken in "Opening …" (line 75) is the name looked up |
| Features.NameGuardRedundant | bot/engine/features.py:59-60 | the `in` guard changes nothing: the name equals the one from removing the assistant's name unconditionally |
| Features.AppNameIgnoresCase | bot/engine/features.py:57-59 | the case of the query and of the assistant's name does not affect the extracted name |
| Features.SelectPaths | bot/engine/features.py:68-69 | `fetchall` is empty exactly when no row has that name |
| Features.FirstMatch | bot/engine/features.py:73 | the index of the first row with that name, or the table's length when there is none |
| Features.SelectHead | bot/engine/features.py:72-73 | `results[0][0]` is the path of the first row with that name |
| Features.LookupIn | bot/engine/features.py:68-73 | a table query raises exactly when the table fails, misses exactly when no row matches, and a hit yields the first matching row's path |
| Features.OnlyOpenEffects | bot/engine/features.py:66-96 | a trace with only speak, launch and open-URL events has no display, play or idle-screen event |
| Features.SystemHitEffects | bot/engine/features.py:75-80 | a system hit gives two or three speak/launch events |
| Features.WebHitEffects | bot/engine/features.py:90-91 | a web hit gives two or three speak/open-URL events |
| Features.OpenApp | bot/engine/features.py:66-96 | the lookup part only speaks, launches and opens URLs, issues at most three events, and is silent exactly when the name is empty |
| Features.OpenCommand | bot/engine/features.py:53-97 | openCommand only speaks, launches and opens URLs, and is silent exactly when the extracted name is empty |
| Features.OpenCommandIsOpenApp | bot/engine/features.py:57-66 | openCommand is the lookup part applied to the extracted name |
| Features.AppSystemHit | bot/engine/features.py:72-80 | a system hit produces the system-hit effects for the first matching row |
| Features.AppWebHit | bot/engine/features.py:82-91 | after a system miss, a web hit produces the web-hit effects for the first matching row |
| Features.AppMiss | bot/engine/features.py:92-93 | a miss in both tables speaks only the not-found message |
| Features.AppLookupFails | bot/engine/features.py:95-96 | a failing query speaks only "Something went wrong!" |
| Features.OpenSystemHit | bot/engine/features.py:68-80 | on a system hit: "Opening <name>", then a launch of the first matching path split on whitespace, then an apology only if the launch raised |
| Features.SystemHitIgnoresWeb | bot/engine/features.py:72-82 | after a system hit, the web table has no effect on what happens |
| Features.OpenWebHit | bot/engine/features.py:82-91 | on a system miss and a web hit: "Opening <name>", then open that row's URL, then "Something went wrong!" only if the browser raised |
| Features.OpenMiss | bot/engine/features.py:92-93 | a name in neither table speaks only "App not found in system or web commands." and dispatches nothing |
| Features.OpenLookupFails | bot/engine/features.py:95-96 | a failing query, of the system table or of the web table after a system miss, speaks only "Something went wrong!" |
| Features.BlankPathFails | bot/engine/features.py:76-80 | a blank system path launches the empty argument vector, which always fails; the failure is reported, not raised |
| Features.AppBlankPath | bot/engine/features.py:76-80 | the same blank-path outcome, for the lookup part |
| Features.PlayYoutube | bot/engine/features.py:99-102 | speaks "Playing <term> on YouTube" and then plays that same extracted term; it raises exactly when the player does |
| Features.FrontendGate.constructor | bot/engine/features.py:1 | the flag starts down, and detection has not been started |
| Features.FrontendGate.NotifyFrontendReady | bot/engine/features.py:23-27 | raises the flag and changes nothing else; a second call changes nothing at all |
| Features.FrontendGate.StartHotwordAfterFrontend | bot/engine/features.py:29-39 | waits once per poll while the flag is down, then starts detection exactly once, with the flag up |
| Command.TakeCommand | bot/engine/command.py:24-47 | shows " Listening... " first and displays only; raises exactly on a listen timeout; returns the lower-cased transcript, or the sentinel exactly when recognition failed |
| Command.RecognizedIsNotSentinel | bot/engine/command.py:45-47 | a lower-cased transcript never equals the sentinel, because the sentinel has a capital 'U' |
| Command.SentinelHasNoKeyword | bot/engine/command.py:57-66 | the sentinel contains neither "on youtube" nor "open" |
| Command.RouteOf | bot/engine/command.py:57-72 | the sentinel branch is taken exactly for the sentinel; the play branch only with "on youtube" and the open branch only with "open" in the query |
| Command.RoutePriority | bot/engine/command.py:57-72 | the branch in query terms: sentinel iff the sentinel; "on youtube" wins wherever "open" also occurs; "open" without "on youtube"; otherwise the fallback |
| Command.Dispatch | bot/engine/command.py:57-74 | the idle screen ends the trace, shown exactly once, iff the query is not the sentinel and nothing raised; a raising run never shows it |
| Command.AllCommands | bot/engine/command.py:50-55 | the default message starts by listening; any other message is dispatched verbatim |
| Command.SentinelShortCircuit | bot/engine/command.py:57-59 | the sentinel only apologises: no action is dispatched and there is no idle screen |
| Command.YoutubeFirst | bot/engine/command.py:61-64 | a query with "on youtube" is played (with the idle screen after it unless it raised), never launched or opened |
| Command.PlayedOnly | bot/engine/command.py:61-64 | the YouTube branch launches nothing and opens no URL |
| Command.OpenRoute | bot/engine/command.py:66-68 | "open" without "on youtube" runs openCommand on the unchanged query, then the idle screen; nothing is played |
| Command.OpenedOnly | bot/engine/command.py:66-68 | the open branch plays nothing |
| Command.Fallback | bot/engine/command.py:70-72 | any other query speaks only "Sorry, I couldn't understand the command." and shows the idle screen |
| Command.OnlyPlayerRaises | bot/engine/command.py:61-74 | dispatch raises exactly when the query contains "on youtube" and the player raises |
| Command.DefaultMessageListens | bot/engine/command.py:28-53 | with the default message: a timeout escapes after " Listening... "; a recognition failure apologises after the two captions; a transcript is dispatched lower-cased after the three captions |
| Command.RecognizedEndsIdle | bot/engine/command.py:47-74 | a recognised utterance whose run did not raise ends with exactly one idle screen |
| Notifier.Truthy | index.js:36-41 | the falsy values are exactly `undefined`, `null`, `false`, `0` and the empty string |
| Notifier.Or | index.js:36-41 | the logical-or default is truthy iff either operand is, is one of its operands, and is the left one when that is truthy |
| Notifier.NatDecimal | index.js:35 | the digits of a natural number are all decimal digits, with no leading zero |
| Notifier.IntDecimal | index.js:35 | a printed integer is a run of decimal digits, with a leading minus sign exactly when the integer is negative |
| Notifier.NatDecimalRoundTrip | index.js:35 | reading back the printed digits gives the number |
| Notifier.IntDecimalRoundTrip | index.js:35 | a printed integer reads back as that integer |
| Notifier.IntDecimalInjective | index.js:35 | two integers print the same exactly when they are equal |
| Notifier.JoinPrinted | index.js:35 | an array's `join` throws exactly when converting one of its elements throws |
| Notifier.JsString | index.js:35 | `String` throws exactly on an object with its own `toString` key, or on an array holding such an object directly or inside nested arrays; it keeps a string |
| Notifier.JsStringOfScalars | index.js:35 | `String` keeps a string, prints an integer so that it reads back, and prints `undefined` as "undefined" |
| Notifier.BuildMessage | index.js:29-52 | building throws exactly when `String(requestId)` does; a built message has a truthy `data.actionType`, and no optional data field is ever `undefined`, `null`, `false` or `0` |
| Notifier.OptionalDefault | index.js:37-41 | defaulting to the empty string keeps a truthy value and turns any other into '' |
| Notifier.ActionTypeDefault | index.js:36 | `actionType` is the request's own when truthy, otherwise "new_request" |
| Notifier.OptionalFieldsDefault | index.js:37-41 | serviceType, issue, block, flat and time are passed through when truthy, otherwise '' |
| Notifier.EmptyBodyDefaults | index.js:16-41 | an empty body yields requestId "undefined", actionType "new_request" and five empty strings |
| Notifier.PassThroughAndConstants | index.js:29-51 | title, body and topic are copied; the Android section is always request_channel / ringtone / high, with high priority |
| Notifier.DataAllStrings | index.js:34-42 | every data value is a string when each truthy optional field given is a string |
| Notifier.RequestIdKept | index.js:35 | an integer request id always builds, and two give equal `requestId` strings exactly when the ids are equal |
| Notifier.StringRequestIdKept | index.js:35 | a string request id always builds and is carried unchanged |
| Notifier.ToStringKeyThrows | index.js:35 | a request id that is an object with its own `toString` key, bare or inside an array, makes building throw |
| Notifier.Respond | index.js:54-61 | the status is 200 with "Notification sent!" exactly when the send succeeded, else 500 with "Error sending notification" |
| Notifier.Handle | index.js:15-61 | the handler sends nothing exactly when `String(requestId)` throws; otherwise it answers 200 or 500 as the send went |
| Scenarios.OpenTargetNameQuery | bot/engine/features.py:57-63 | "open <target>" names the target, for a non-empty, stripped, lower-case target without "p" and a lower-cased assistant name that does not occur in "open <target>" |
| Scenarios.NameAbsentQuery | bot/engine/features.py:59-63 | when the lower-cased assistant name does not occur in the stripped, lower-cased query, only "open" is removed |
| Scenarios.NameAndOpenRemoved | bot/engine/features.py:57-63 | "open <name> open <target>" names the target (the name and both "open"s are removed), for an assistant name whose lower-casing is a non-empty `<name>` whose first letter is not in "open " and which does not occur in " open <target>", and a non-empty, stripped, lower-case target without "p" |
| Scenarios.CalculatorExample | bot/engine/features.py:57-63 | "open jarvis open calculator" with the name "Jarvis" names "calculator" |
| Scenarios.OpenNotesExample | bot/engine/features.py:66-77 | for a lower-cased assistant name that does not occur in "open notes" and a launch of ["/usr/bin/notes-app"] that does not fail, "open notes" with ("notes", "/usr/bin/notes-app") says "Opening notes" and launches exactly ["/usr/bin/notes-app"] |
| Scenarios.OpenWeatherExample | bot/engine/features.py:83-93 | for a lower-cased assistant name that does not occur in "open weather" and tables with no "weather" row, "open weather" says only the not-found message |
| Scenarios.LofiBeatsExample | bot/engine/command.py:61-64 | for an extractor that yields "lofi beats" on this query, "play lofi beats on youtube" says "Playing lofi beats on YouTube", plays "lofi beats", and launches or opens nothing |
| Scenarios.OpenAloneIsSilent | bot/engine/features.py:62-66 | for a lower-cased assistant name that does not occur in "open", the bare "open" makes openCommand silent, so the dispatcher only shows the idle screen |

## Left out

- The wake-word loop `hotword` (bot/engine/features.py:121-151): audio-device frame I/O with resource cleanup, not meaningful without the device.
- `speak`'s text-to-speech engine and its voice settings (bot/engine/command.py:6-13): modelled as one `Speak` event, which never raises.
- Microphone capture, noise calibration and Google recognition (bot/engine/command.py:25-40): replaced by the `Recognition` value `Recognized(text) | NotRecognized | ListenTimedOut`.
- `time.sleep(2)` after recognition, and the one-second sleep in the readiness loop: time is not modelled.
- `print` logging everywhere: not observable behaviour.
- `subprocess.Popen`, `webbrowser.open` and `pywhatkit.playonyt`: foreign calls, modelled as events whose failure the `World` decides. An empty argument vector always raises.
- `extract_yt_term` and `ASSISTANT_NAME` are not part of this model. They are a function of the `World` and a parameter.
- The SQLite connection: a table is its rows in order, or a failing query. A NULL path would make `split` raise inside the inner `try`, reported as "Unable to open the app."; it is not modelled.
- Features.PlayYoutube: the extractor always returns a string; an extractor that raises or returns `None` is not modelled.
- `playAssistantSound`, `triggerMic` and other pygame/eel glue in features.py: presentation effects outside the dispatcher.
- bot/engine/dp.py (schema and seed data), bot/www/main.js, bot/main.py and the Android build file.
- `allCommands` called with a message that is neither the default `1` nor a string: only `DefaultMessage` and `Verbatim(query)` are modelled.
- Non-ASCII text: `lower`, `strip` and `split` are modelled on ASCII only.
- Command.TakeCommand: exceptions from `eel.DisplayMessage` are not modelled.
- Features.FrontendGate.StartHotwordAfterFrontend: the front end's concurrent `notifyFrontendReady` is modelled as landing after `readyAfter` polls. An interleaving that never sets the flag (the loop then runs forever) is not modelled. The loop models the polling only; starting detection is the `HotwordStarted` log entry.
- Firebase `admin.messaging().send`, Express routing, body parsing and credential loading in index.js: whether the send succeeds is a parameter of `Respond`. The stray text at index.js:67 is not valid JavaScript and is ignored.
- Notifier.JsString: JSON numbers are modelled as integers of magnitude at most 2^53, each of which a double holds exactly and `String` prints digit for digit. Fractions, and larger numbers (which JavaScript rounds to a double and prints rounded, e.g. 2^64 as "18446744073709552000"), are not modelled.
- Notifier.Handle: after the handler's promise rejects, what Express then does with the request (nothing, or its error handler's answer, depending on the version) is not part of this model.
- Notifier.BuildMessage: numbers above 2^53 in magnitude are outside the model's `Json` type (see Notifier.JsString). A request body that is not a JSON object is not modelled. On an array body, destructuring `flat` reads the inherited `Array.prototype.flat`, a function and so truthy, so `data.flat` would be that function rather than ''.
