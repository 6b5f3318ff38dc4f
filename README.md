# Notepad joke injector — control core in Dafny

`main.py` watches the desktop for a Notepad window. About every ten seconds, when the
window can be brought to the foreground and the mouse pointer is inside it, it asks a
chat-completion service for a short joke. It then types a timestamp line and the joke
into Notepad through the clipboard and presses Enter twice.

This project models the control core of that loop. The window manager, the pointer,
the service and the clock are replaced by oracle answers: each of their calls becomes a
value handed to the model. The clipboard and the keyboard are a `Desktop` object whose
methods state their effects. Every call that raises becomes an explicit fault tag.

- `wrappers.dfy` (`Wrappers`): the `Option` type.
- `text.dfy` (`Text`): Python's `str.strip()` over the characters `str.isspace()`
  accepts, and Python's substring test `sub in s`.
- `timestamp.dfy` (`Timestamp`): the `%Y-%m-%d %H:%M:%S` layout and the
  `"[" + stamp + "]\n"` line. A parser serves as its inverse, with round-trip lemmas in
  both directions.
- `windows.dfy` (`Windows`): `is_notepad_open`, and `get_notepad_window`'s priority
  among its three enumerations. The library's title-match rule is an abstract
  predicate. Also `is_cursor_in_window`'s strict containment test.
- `activation.dfy` (`Activation`): `activate_notepad_window`. This is a `while` loop
  method over `retry_count`, proved equal to a recursive specification. Lemmas state the
  attempt bound, when it succeeds, that it stops at the first success, where the
  backoffs fall, and which handles are used.
- `clipboard.dfy` (`Clipboard`): the system clipboard and keyboard as a `Desktop` object.
  `paste_text` is a method that saves, overwrites, pastes and restores, stopping at the
  first call that raises.
- `joke.dfy` (`Joke`): the decision part of `get_joke` over an abstract response record.
- `main_loop.dfy` (`MainLoop`): one iteration of `while True`. It is a `Step` method on a
  `PollState` class holding `last_joke_time` and `is_processing`, proved equal to the
  value-level `Iteration` function. Lemmas cover one iteration (gate, commit rule,
  delivery order, silent aborts) and runs of iterations (rate limit, monotone commit
  time, aborted runs).

Time is an integer tick. `JOKE_INTERVAL` is 10 and `max_retries` is 3.

## Behaviour of main.py worth knowing

- `paste_text` catches every exception itself, so a failed paste never aborts the cycle.
  The cycle still commits `last_joke_time` even if nothing was pasted
  (`MainLoop.PasteFaultsStillCommit`). Only a failing Enter press aborts delivery.
- The clipboard restore is not in a `finally`. A fault at the Ctrl+V or at the restore
  leaves the text being pasted on the clipboard (`Clipboard.FaultAfterCopySkipsRestore`).
  When this happens to the timestamp line, the joke paste then saves that line and
  restores it, so the timestamp line stays on the clipboard.
- After a successful delivery `is_processing` is never reset and stays true. This is
  harmless: the gate's inner `remaining > 0` test is the same as the elapsed-time test
  (`MainLoop.GateIgnoresProcessing`, `MainLoop.ProcessingFlagAfterDeliveryIsHarmless`).
- The HTTP status is never checked. Any decoded body with a usable first choice yields a
  joke.
- `is_notepad_open` asks only for `'Notepad'`: with no `'Notepad'` window the iteration
  ends (`MainLoop.OnlyNotepadHintOpensCycle`). On a desktop that does not change between
  line 117 and line 127, the window then found is the first `'Notepad'` match, so the
  `'记事本'` and fallback branches are never used (`Windows.SnapshotLocate`). The two
  `getWindowsWithTitle('Notepad')` calls are separate, though. If the `'Notepad'` window
  closes between them while a `'记事本'` window is open, lines 128-130 pick that window
  and the cycle types into it. The model allows this too, since `Env.openCheck` and
  `Env.lookup` are independent answers.
- An exception caught by the outer handler (lines 273-275) skips the one-second sleep.
  The calls there that can raise unguarded are at lines 225-228: `pyautogui.position()`
  and the reads of the window's `left`, `top`, `right` and `bottom`, which query the OS
  and raise once the window has closed. `MainLoop.Env.positionFault` stands for any
  fault at those lines.

## Model

| member | source | states |
|---|---|---|
| `Text.IsSpace` | main.py:98 | the characters Python's `str.isspace()` accepts, which `strip()` removes |
| `Text.TrimStart` | main.py:98 | the result is a suffix of the input, everything cut off is whitespace, and it does not start with whitespace |
| `Text.TrimEnd` | main.py:98 | the result is a prefix of the input, everything cut off is whitespace, and it does not end with whitespace |
| `Text.Strip` | main.py:98 | `joke.strip()` is an infix of the content with whitespace on both sides cut off, and it neither starts nor ends with whitespace |
| `Text.StripEmptyIff` | main.py:98 | the stripped text is empty exactly when every character is whitespace |
| `Text.StripIdempotent` | main.py:98 | stripping twice is the same as stripping once |
| `Text.Contains` | main.py:134 | Python's `sub in s`, tried at every index from the left |
| `Text.ContainsIff` | main.py:134 | the recursive substring test agrees with "occurs at some index" |
| `Timestamp.Pad` | main.py:243 | a zero-padded field has exactly its width and only decimal digits |
| `Timestamp.FormatTimestamp` | main.py:243 | the `%Y-%m-%d %H:%M:%S` stamp is 19 characters long |
| `Timestamp.TimestampLine` | main.py:244 | the bracketed stamp line with its newline is 22 characters long |
| `Timestamp.PadValue` | main.py:243 | reading a padded field gives the number back when it fits the width |
| `Timestamp.ValuePad` | main.py:243 | padding a digit string's value to its length gives the string back |
| `Timestamp.ParseFormat` | main.py:243 | the stamp is read back as exactly the date and time it was built from |
| `Timestamp.FormatParse` | main.py:243 | every string the parser accepts is exactly the stamp of what it returns |
| `Timestamp.FormatInjective` | main.py:243 | different clock readings give different stamps |
| `Timestamp.ParseTimestampLineInverse` | main.py:244 | the pasted line is read back as the date and time it was built from |
| `Timestamp.NoonFields` | main.py:243 | the zero-padded fields of 2024-01-01 12:00:00 |
| `Timestamp.NoonStamp` | main.py:243 | 2024-01-01 12:00:00 gives the stamp `2024-01-01 12:00:00` |
| `Timestamp.NoonExample` | main.py:244 | 2024-01-01 12:00:00 gives the line `[2024-01-01 12:00:00]` plus a newline |
| `Windows.Filter` | main.py:134 | the list comprehension keeps exactly the windows that satisfy its test |
| `Windows.FilterHead` | main.py:134-137 | the first element kept is the first element of the input that satisfies the test |
| `Windows.IsNotepadOpen` | main.py:114-121 | Notepad counts as open exactly when the `'Notepad'` enumeration returns a non-empty list; a raising enumeration counts as closed |
| `Windows.MentionsNotepad` | main.py:134 | a title mentions Notepad when it contains `Notepad` or `记事本` |
| `Windows.GetNotepadWindow` | main.py:123-141 | the first `'Notepad'` window, else the first `'记事本'` window, else the first window of the full enumeration whose title mentions either; `None` when nothing matches or a call raises |
| `Windows.GetNotepadWindowPriority` | main.py:123-141 | a non-empty `'Notepad'` list decides whatever the others hold; otherwise a non-empty `'记事本'` list decides; otherwise the fallback scan finds a window exactly when some title mentions either; with no call raising, `None` exactly when all three lists are empty; a found window always comes from one of the lists |
| `Windows.FallbackPicksFirstMention` | main.py:131-137 | the fallback returns the first window, in enumeration order, whose title contains `Notepad` or `记事本` |
| `Windows.WithTitle` | main.py:127-130 | `getWindowsWithTitle(hint)` under any match rule holds exactly the desktop's windows that match the hint |
| `Windows.SnapshotLocate` | main.py:114-141 | against one desktop, whatever the match rule: the window found is on the desktop; nothing is found exactly when no window matches either hint or mentions Notepad; `is_notepad_open` holds exactly when some window matches `'Notepad'`, and then the window found is the first `'Notepad'` match |
| `Windows.IsCursorInWindow` | main.py:188-199 | the pointer is inside exactly when it lies strictly within all four edges; a pointer read that raises counts as outside |
| `Windows.EdgeIsOutside` | main.py:192-193 | a pointer on any of the four edges is outside |
| `Windows.InteriorNonEmptyIff` | main.py:192-193 | some pointer position is inside exactly when the window is at least two units wide and high |
| `Activation.RunAttempt` | main.py:155-172 | one attempt: the calls issued in order up to the first that raises, and whether the window ended in the foreground |
| `Activation.AttemptFacts` | main.py:155-172 | an attempt succeeds exactly when the handle is non-zero, no reached call raises and the foreground handle equals it; it issues one `FindWindow`, first; a zero handle issues nothing else; a restore is issued exactly for a live minimised window whose iconic query did not raise; every handle call uses the live handle |
| `Activation.TryActivate` | main.py:155-172 | one pass of the loop body issues its calls in order and stops at the first that raises, exactly as the attempt specification `RunAttempt` says |
| `Activation.ResumeStep` | main.py:152-177 | a failed attempt moves the loop on to the next attempt, with a backoff only if one remains; a successful one ends it |
| `Activation.ActivateFrom` | main.py:152-183 | the loop from a retry count on: the attempts made, with a backoff between two of them, until one succeeds or the three are used |
| `Activation.Activate` | main.py:143-186 | `activate_notepad_window`: `False` with no calls for no window, otherwise the retry loop from zero |
| `Activation.ActivateNotepadWindow` | main.py:143-186 | the retry loop returns and issues exactly what the recursive specification `Activate` gives |
| `Activation.ActivateNoWindow` | main.py:145-147 | an invalid window gives `False` with no call to the window manager |
| `Activation.ActivateFromOk` | main.py:152-183 | from any retry count, the loop succeeds exactly when a remaining attempt succeeds |
| `Activation.AttemptsFrom` | main.py:149-183 | the number of attempts never exceeds the three allowed |
| `Activation.ActivateFromCounts` | main.py:152-183 | the trace holds one `FindWindow` per attempt made and one backoff fewer, and starts with `FindWindow` |
| `Activation.AttemptsFromFacts` | main.py:152-183 | the attempts made end at the first success, every earlier attempt failed, and all attempts are used when none succeeds |
| `Activation.ActivateFromBackoffs` | main.py:174-183 | every backoff is immediately followed by the next attempt's `FindWindow` |
| `Activation.ActivateResult` | main.py:143-186 | `True` exactly when one of the three attempts succeeds; one to three attempts; stops at the first success; otherwise exactly three; backoff count is attempts minus one, never after the last attempt |
| `Activation.HandleCallsAreLive` | main.py:155-163 | restores, iconic queries and foreground requests are only issued on a non-zero handle |
| `Clipboard.PasteEffect` | main.py:33-57 | what `paste_text` leaves on the clipboard and what it sends, for each call that can raise |
| `Clipboard.PasteEmptyText` | main.py:35-37 | empty text leaves the clipboard as it was and issues no write and no paste |
| `Clipboard.PasteWithoutFault` | main.py:40-55 | without a fault exactly one Ctrl+V is issued, while the clipboard holds the text, and the clipboard ends equal to its content before the call |
| `Clipboard.PasteShape` | main.py:33-57 | at most one Ctrl+V, pasting only the text; it happens exactly when the text is non-empty and nothing raises before it; no Enter; the clipboard ends holding its old content or the text |
| `Clipboard.FaultAfterCopySkipsRestore` | main.py:45-57 | a fault after the overwrite leaves the text on the clipboard, so the old content is lost |
| `Clipboard.Desktop.ReadClipboard` | main.py:42 | `pyperclip.paste()` returns the clipboard content |
| `Clipboard.Desktop.WriteClipboard` | main.py:45 | `pyperclip.copy` replaces the clipboard and records the write |
| `Clipboard.Desktop.PressPaste` | main.py:49 | Ctrl+V pastes the current clipboard and leaves it unchanged |
| `Clipboard.Desktop.PressEnter` | main.py:252 | an Enter press is recorded and leaves the clipboard unchanged |
| `Clipboard.PasteText` | main.py:33-57 | `paste_text` changes the clipboard and the input log exactly as the transfer specification `PasteEffect` says |
| `Joke.GetJoke` | main.py:59-112 | `None` without a key, for a failed request, for a body that is not JSON, or without a first choice with string content; otherwise that content stripped |
| `Joke.IsJoke` | main.py:237 | `if joke:` holds exactly for a non-empty string |
| `Joke.GetJokeResult` | main.py:59-112 | a joke is returned exactly when a key is set and the first choice has string content; it is that content stripped, no longer than it, with no surrounding whitespace |
| `Joke.IsJokeIff` | main.py:95-98 | the loop gets a usable joke exactly when a key is set and the first content has a non-whitespace character |
| `Joke.NoKeyNoJoke` | main.py:61-63 | a missing or empty key gives `None` whatever the response |
| `MainLoop.Iteration` | main.py:207-219 | one pass of the loop: skipped when the gate is closed, otherwise `is_processing` is reset and the cycle runs |
| `MainLoop.Cycle` | main.py:221-275 | the checks past the gate in the order of the source, each failing one ending the iteration without input, then the delivery |
| `MainLoop.Deliver` | main.py:241-260 | the two pastes, then the two Enter presses; a raising Enter press resets `is_processing` and keeps the old commit time, and success commits the iteration's start time |
| `MainLoop.GateIgnoresProcessing` | main.py:207-216 | the iteration is skipped exactly when less than `JOKE_INTERVAL` has passed; flipping `is_processing` changes no outcome, input, clipboard or commit time |
| `MainLoop.WaitingChangesNothing` | main.py:211-216 | a skipped iteration changes nothing and issues no input |
| `MainLoop.ProcessingFlagAfterCycle` | main.py:219-275 | past the gate, `is_processing` ends true exactly on a completed delivery |
| `MainLoop.CommitRule` | main.py:221-256 | delivery happens exactly when the gate is open, a window is found, activated and holds the pointer, a non-empty joke is fetched and both Enter presses succeed; `last_joke_time` then becomes the iteration's start time and otherwise stays unchanged |
| `MainLoop.AbortBeforeDeliveryIsSilent` | main.py:221-237 | every abort before delivery leaves the clipboard and keyboard untouched; input only happens once every check has passed |
| `MainLoop.OnlyNotepadHintOpensCycle` | main.py:221 | an empty `'Notepad'` enumeration ends the iteration before any other lookup |
| `MainLoop.DeliverInputs` | main.py:241-256 | a delivery pastes the stamp line and then the joke, less any paste that faulted before Ctrl+V, and ends with exactly two Enter presses |
| `MainLoop.DeliveryOrder` | main.py:243-254 | on a committed iteration the pasted strings are the timestamp line and then the joke, less any paste that faulted before Ctrl+V, followed by exactly two Enter presses |
| `MainLoop.SuccessPath` | main.py:241-257 | the fault-free delivery writes, pastes and restores the stamp line, then the joke, presses Enter twice, restores the clipboard and commits the iteration's time |
| `MainLoop.NoonScenario` | main.py:243-256 | at 2024-01-01 12:00:00 with joke `Why did...` the pasted strings are `[2024-01-01 12:00:00]` plus a newline, then the joke; the clipboard is restored; the time is committed |
| `MainLoop.PasteFaultsStillCommit` | main.py:244-256 | when both pastes fail before writing anything, the cycle still commits and only the two Enter presses reach Notepad |
| `MainLoop.ProcessingFlagAfterDeliveryIsHarmless` | main.py:234-256 | after a delivery `is_processing` stays true, yet the next iteration has the same outcome, inputs, commit time and clipboard as if it were false |
| `MainLoop.IterationLastJokeTime` | main.py:207-256 | an iteration never moves `last_joke_time` back; a commit moves it forward by at least `JOKE_INTERVAL`, even if the clock goes backwards |
| `MainLoop.DeliveryCommits` | main.py:207-256 | a delivery at some tick of a run comes at least `JOKE_INTERVAL` after the commit time it finds, and records its own start time |
| `MainLoop.LastJokeTimeMonotone` | main.py:205-275 | over any run of iterations `last_joke_time` never decreases |
| `MainLoop.RateLimit` | main.py:207-256 | any two deliveries of a run are at least `JOKE_INTERVAL` ticks apart |
| `MainLoop.AbortedRunKeepsLastJokeTime` | main.py:205-275 | a run without a delivery never changes `last_joke_time`, and after any iteration that passed the gate `is_processing` is false |
| `MainLoop.PollState.constructor` | main.py:28-31 | the program starts with `last_joke_time = 0` and `is_processing = False` |
| `MainLoop.PollState.DeliverJoke` | main.py:241-260 | the two pastes, the two Enter presses and the commit change the globals, the clipboard and the input log exactly as `Deliver` specifies |
| `MainLoop.PollState.Step` | main.py:205-275 | one pass of the loop updates both globals, the clipboard and the input log exactly as `Iteration` specifies |

## Left out

- Real OS calls (pygetwindow, win32gui, pyautogui): their answers and faults are oracle
  values in `MainLoop.Env`, and the model does not say what the platform does. pyperclip
  and the key presses are the `Clipboard.Desktop` class instead: its methods state what
  `pyperclip.paste`, `pyperclip.copy`, Ctrl+V and Enter do. Only pyperclip's faults are
  in `Env`.
- Clipboard.Desktop: the clipboard is its text content. pyperclip reads and writes only
  text, so if the clipboard holds an image or files, `pyperclip.paste()` returns `""`.
  Restoring that empties the clipboard even when no call raises. The model does not
  capture this, so `Clipboard.PasteWithoutFault`'s restore holds only for a clipboard
  holding text.
- The HTTP request, request body, JSON decoding, `load_dotenv` and the environment read:
  the response is the abstract `Joke.Response`, and the API key is a constructor
  argument of `PollState`.
- `time.sleep` durations and the float `time.time()`: time is an integer tick, and the
  one-second backoff in activation appears only as a `Backoff` entry in the call trace.
- The `remaining` countdown display and every `print`.
- Local-time conversion inside `strftime`: the date and time components are inputs.
- `pyautogui.FAILSAFE`/`PAUSE` and the infinite loop itself: one iteration is a step,
  and runs are finite sequences of ticks.
- Timestamp.FormatTimestamp: only four-digit years (1000-9999) are modelled, because
  `%Y` padding for other years depends on the platform.
- A fault inside a `time.sleep` or a `print` is not modelled. A fault in
  `pyperclip.copy` is taken to leave the clipboard unchanged.
- Clipboard.PasteText: a fault is offered at the clipboard read, the first copy, the
  Ctrl+V and the restore. Partial key presses by a raising `hotkey` are not modelled.
- A pygetwindow window is a live object whose fields are read from the OS each time
  they are used. `Windows.Window` is one reading. It is taken to be both the title
  `FindWindow` sees on every attempt (line 155) and the rectangle `is_cursor_in_window`
  sees (lines 192-193), which the source reads after the `SW_RESTORE` of line 159. A
  window that moves, is renamed or is restored to a different rectangle during the
  iteration is not modelled.
- The activation trace does not include the settle sleeps after the restore and the
  foreground request.
