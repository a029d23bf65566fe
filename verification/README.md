# Email Meeting Assistant — a Dafny model of its deterministic core

The Email Meeting Assistant is a single Streamlit page. The user pastes an
email, and a language model decides whether the email proposes a meeting
outside the user's weekly availability. If it does, the model drafts a
reschedule request. That draft is shown in an editable box and posted to a
mail-sending webhook in the same step that first shows it. So what is posted
is normally the model's own text: typing into the box starts a new run of the
script in which the button is no longer pressed.

The meeting judgement, the timezone conversion and the wording of the draft
happen inside the model: the script only hands it instructions. So this
project does not model them. It models what the script itself computes:

- **Reply extraction** (`Extraction`, with the Python string operations in
  `PyText`). The model's reply is stripped, then cut from the first `{`
  through the last `}`. A reply missing either brace goes to the JSON parser
  stripped but otherwise unchanged. Python slicing turns a reversed range into
  the empty string.
- **Action branch** (`Pipeline`). The draft is sent only when the parsed
  reply is a JSON object whose `action` is exactly the string `"Action"`.
  A parse failure, a non-object reply and every other `action` value each
  end without sending anything.
- **Webhook payload and status** (`Webhook`). `sender`, `subject` and `body`
  are renamed to `email`, `subject` and `message`. Each has a default that
  applies only when its key is absent. Before sending, only `body` is replaced,
  with the draft box's value at that moment. Only HTTP status 200 counts as sent.
- **Availability settings** (`Calendar`, with "HH:MM" handling in `Clock`).
  The default calendar has all seven days, 09:00–17:00, with Monday to Friday
  on. On every rerun each stored end is read with `strptime("%H:%M")` and
  written back with `strftime("%H:%M")`.

Inputs stand in for the outside world. The model's answer is an `Analysis`
(a reply, or a failed call). `json.loads` is a function `parse` from text to
an optional JSON `Value`. The webhook's answer is a `Response` (a status and
body, or the exception `requests.post` raised). The draft box's value and the
time-picker edits are also inputs.

The prompt (app.py:43-54) asks the model for either `{"action": "No Action"}`
or an action object with `sender`, `subject` and `body`, and nothing else.
The script does not rely on the model doing so, and the model describes what
the script does with every other reply:

- A reply that does not parse ends in an error display (`Unparseable`), not
  in "no action".
- A reply whose JSON is not an object ends in the generic error handler
  (`ProcessingFailed`).
- A reply asking for action but missing sender, subject or body is still sent,
  using the defaults.
- Extraction takes the last `}`, not the `}` that matches the first `{`.

## Model

| member | source | states |
|---|---|---|
| PyText.LeadingSpaces | app.py:175 | the counted prefix is all whitespace and the next character, if any, is not |
| PyText.TrailingSpaces | app.py:175 | the counted suffix is all whitespace and the character before it, if any, is not |
| PyText.Strip | app.py:175 | `strip()` never lengthens the text, and its result neither starts nor ends with whitespace |
| PyText.StripIsStripOf | app.py:175 | `strip()` removes only a whitespace prefix and a whitespace suffix, keeping one contiguous middle |
| PyText.StripUnique | app.py:175 | any string that is a whitespace-trimmed middle of `s` with no whitespace at its ends is `s.strip()` |
| PyText.StripKeepsCore | app.py:175 | `strip()` keeps every character between two non-whitespace characters |
| PyText.StripAt | app.py:175 | when `s[i:j]` is non-empty, has no whitespace at its ends, and only whitespace lies outside it, `strip()` cuts exactly at `i` and `j` |
| PyText.StripAllSpace | app.py:175 | an all-whitespace string strips to the empty string |
| PyText.StripKeepsTrimmed | app.py:175 | text with no whitespace at either end is unchanged by `strip()` (so `strip()` is idempotent) |
| PyText.Find | app.py:177 | `find` gives -1 exactly when the character is absent, and otherwise an index holding it with no earlier occurrence |
| PyText.RFind | app.py:178 | `rfind` gives -1 exactly when the character is absent, and otherwise an index holding it with no later occurrence |
| PyText.Slice | app.py:179 | `s[a:b]` clamps both bounds to the length, is empty for a reversed range, and its k-th character is `s[a+k]` |
| Extraction.ExtractJson | app.py:174-181 | without both braces in the stripped reply, the parser gets the stripped reply unchanged; the result is never longer than the stripped reply |
| Extraction.BraceSlice | app.py:176-181 | a stripped reply missing either brace is passed on unchanged; the cut is never longer than the stripped reply |
| Extraction.BraceSliceAt | app.py:176-179 | with both braces, the cut runs from the first `{` through the last `}`, or is empty when that `}` comes first |
| Extraction.BraceSliceIsSubstring | app.py:176-181 | the cut is always one contiguous piece of the stripped reply |
| Extraction.BraceSliceEmptyIff | app.py:176-181 | the cut is empty exactly when the stripped reply is empty or its last `}` precedes its first `{` |
| Extraction.BraceSliceDelimited | app.py:176-179 | when the first `{` precedes the last `}`, the cut is at least two characters long, opens with `{` and closes with `}` |
| Extraction.BraceSliceSplits | app.py:176-179 | when the first `{` precedes the last `}`, the stripped reply is a prefix without `{`, the cut, and a suffix without `}`, joined |
| Extraction.BraceSliceWhole | app.py:176-179 | a text that opens with `{` and closes with `}` is cut to itself |
| Extraction.FirstUnique | app.py:177 | a string has one first position of a character |
| Extraction.LastUnique | app.py:178 | a string has one last position of a character |
| Extraction.ExtractWholeObject | app.py:175-181 | a reply that is just `{…}` reaches the parser unchanged |
| Extraction.ExtractIdempotent | app.py:175-181 | extracting from an extracted text changes nothing |
| Extraction.ExtractFromProse | app.py:174-181 | an object preceded by text without `{` and followed by text without `}` is extracted alone, whatever whitespace surrounds it |
| Json.Lookup | app.py:187 | `d.get(k)` is present exactly when the key is, and then holds the key's value |
| Json.LookupOr | app.py:72-74 | `d.get(k, default)` gives the stored value for a present key, even an empty one, and the default only for an absent key |
| Webhook.BuildPayload | app.py:71-75 | the payload has exactly the keys `email`, `subject`, `message`, taken from `sender`, `subject`, `body`, with defaults `""`, `"Meeting Time Confirmation"`, `""` only for absent keys |
| Webhook.PayloadRoundTrip | app.py:71-75 | a record with all three fields is posted with exactly those values under the renamed keys |
| Webhook.PayloadIgnoresOtherKeys | app.py:71-75 | keys other than `sender`, `subject`, `body` have no effect on the payload |
| Webhook.EditChangesOnlyMessage | app.py:198-204 | replacing `body` with the edited text changes `message` to that text and leaves `email` and `subject` as they were |
| Webhook.Deliver | app.py:78-87 | the attempt counts as sent exactly when a response with status 200 came back; any other status is reported with its status and body, and a raised exception with its message |
| Clock.DigitChar | app.py:148-149 | the character written for a digit reads back as that digit |
| Clock.Format | app.py:148-149 | `strftime("%H:%M")` writes five characters, two digits, a colon and two digits, whose decimal values are the hour and the minute |
| Clock.ScanHour | app.py:137 | the `%H` field accepts one digit or two, never beyond 23, and fails exactly when no digit comes first |
| Clock.ScanMinute | app.py:137 | the `%M` field accepts one digit or two, never beyond 59, and fails exactly when no digit comes first |
| Clock.Parse | app.py:137-142 | `strptime("%H:%M")` yields only valid times, from 3 to 5 characters containing a colon |
| Clock.ParseIff | app.py:137-142 | `strptime` accepts exactly an hour field (one digit, or two below 24), a colon and a minute field (one digit, or two below 60), with the value they spell |
| Clock.ParseFormat | app.py:137-149 | what `strftime` writes, `strptime` reads back as the same time |
| Clock.FormatParse | app.py:137-149 | a five-character string `strptime` accepts is rewritten unchanged by `strftime` |
| Clock.FormatIff | app.py:137-149 | the formatted text of a time is the one five-character string that parses to it |
| Clock.ParseShortForms | app.py:137 | "9:5" and "9:05" read as 09:05; "24:00" and "09:60" are refused |
| Calendar.DefaultHours | app.py:116-122 | the default calendar holds every weekday, is switched on exactly for the non-weekend days, and every window parses as 09:00 to 17:00 |
| Calendar.DefaultTimes | app.py:121-122 | the default ends "09:00" and "17:00" are the canonical text of 09:00 and 17:00 |
| Calendar.DefaultWeekdays | app.py:116-122 | the enabled days of the default calendar are exactly Monday to Friday, and every stored window is "09:00"–"17:00" |
| Calendar.LoadDay | app.py:133-143 | seeding the pickers succeeds exactly when both stored ends parse, and yields those times and the stored switch |
| Calendar.StoreDay | app.py:146-150 | what is stored from the pickers loads back as the same switch and times, as five-character text |
| Calendar.StoreLoad | app.py:133-150 | loading a five-character entry and storing it again gives the same entry |
| Calendar.Refresh | app.py:126-152 | a rerun succeeds exactly when every day is present and parses; it then stores every day, edited days as edited and the others as loaded, all in five-character form |
| Calendar.SettledIsFixed | app.py:126-152 | a rerun without edits leaves a settled calendar unchanged |
| Calendar.RefreshSettles | app.py:126-152 | after one rerun, a further rerun without edits changes nothing |
| Calendar.SettledRefreshes | app.py:126-152 | a settled calendar passes every rerun, with any edits, and is settled again afterwards |
| Calendar.DefaultSettled | app.py:116-122 | the default calendar is settled, so a rerun starting from it never fails |
| Calendar.NamesDistinct | app.py:116 | distinct days have distinct key names, so keying by day loses nothing |
| Calendar.DefaultSurvivesRefresh | app.py:116-152 | the default calendar passes through a rerun without edits unchanged |
| Pipeline.ReplyText | app.py:57-64 | the model's reply is used as is, and a failed call yields `{"action": "No Action"}` |
| Pipeline.HandleReply | app.py:173-212 | the draft is sent exactly when the parsed reply is an object whose `action` is the string "Action"; a parse failure, a non-object and any other object each end without sending, and a sent payload is built from the reply with `body` replaced by the edit |
| Pipeline.Analyze | app.py:158-170 | an empty email ends the press first; a non-empty email without a configured API key ends it next; only a non-empty email with a key reaches the reply handling |
| Pipeline.UneditedDraftSendsReply | app.py:197-204 | a draft posted as first shown sends exactly the payload built from the reply, its `body` text under `message` |
| Pipeline.NoDispatchWithoutAction | app.py:187-206 | a missing `action` key or any value other than the string "Action" sends nothing |
| Pipeline.DispatchCarriesReply | app.py:187-204 | an action reply is posted with its own sender and subject and the edited body |
| Pipeline.DeliveryDoesNotChangeDecision | app.py:78-84 | the webhook's answer changes neither whether nor what is sent, and the attempt counts as sent exactly on status 200 |
| Pipeline.FailedCallSendsNothing | app.py:62-64 | the fallback text of a failed model call reaches the parser intact and, parsed, sends nothing |
| Pipeline.ProseIsIgnored | app.py:174-187 | prose around the JSON object, without braces of its own, changes neither whether nor what is sent |

## Left out

- The Gemini call and its prompt (app.py:15-64) are not modelled. Whether an email holds a meeting, the timezone conversion and the availability check all happen inside the model. Its answer is an input.
- API-key lookup and prompting inside `configure_genai` (app.py:15-25) are not modelled. This is credential plumbing with no logic on the reply. Only its result is modelled, as the `configured` input of `Pipeline.Analyze`.
- `json.loads` (app.py:184) is an input function. JSON numbers are kept abstract, as their literal text. The payload carries whatever value was parsed, and `requests.post` re-serialises it; that re-serialisation is not modelled.
- `requests.post`, its transport and the debugging `print` (app.py:76-78) are left out. The post's result is an input. The post sets no timeout, so a webhook that never answers blocks the run; that hang is not modelled.
- Streamlit rendering is left out: the sidebar, tabs, expanders, columns, spinner, messages, and the "Not found" placeholders shown for sender and subject (app.py:90-115, 153-156, 188-199, 206-212). The time pickers' keyed widget state is also left out; their values come in as the `edits` of `Calendar.Refresh`.
- The timezone lists (app.py:98-110) and the unused `dateutil` import are left out. No timezone arithmetic happens in the script.
- Python strings may hold lone surrogates; Dafny characters are Unicode scalar values, so such strings are not modelled.
- Clock.Parse, Clock.ScanHour, Clock.ScanMinute: `strptime`'s `\d` also matches non-ASCII decimal digits (for example Arabic-Indic digits). The model accepts ASCII digits only.
- Pipeline.HandleReply: `edited` stands for the draft box's value when the post runs, which is normally the reply's own `body`. The model leaves it free and does not model the box's widget state.
- Calendar.Refresh: when a stored end fails to parse, the source has already written back the days before it in the loop. The model gives None and drops that partial write. `Calendar.SettledRefreshes` and `Calendar.DefaultSettled` show that this branch is never reached from the default calendar.
- Day keys: the source keys the settings by the strings "Monday" to "Sunday" (app.py:116). The model keys them by an enumeration, whose `Name` gives those strings. `Calendar.NamesDistinct` shows that distinct days have distinct names.
