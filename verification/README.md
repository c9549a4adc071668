# oi-devmode filter, modelled in Dafny

The repository is one pipeline filter, `Filter` in `main.py`. It is a
development-mode logger. The host chat pipeline calls three hooks on it:
`inlet` before the model runs, `stream` for every generated chunk, and
`outlet` afterwards. Each hook may print a diagnostic block and then hands
its payload back untouched. Underneath the printing is a small deterministic
state machine:

- the **valves** (`enabled`, `log_inlet`, `log_stream`, `log_outlet`,
  `log_user_info`, `truncate_message`);
- the **stored session context** (`last_user_info`, `last_model_id`), which
  only `inlet` writes;
- the **gates** that decide whether a hook prints at all;
- **message selection**: the last message for INLET, and for OUTLET the last
  message whose role is `"assistant"`;
- **content truncation**, with its exact omission marker;
- the **three-way classification of stream events** into dict, bytes and
  anything else.

The model is functional. Python values are a closed datatype
`Values.Value`. Each hook is a pure function returning a
`Step(returned, filter, log)`: the value handed back to the pipeline, the
filter's next state, and the log records it prints (`DevLogger.Entry`).
When an expression inside a hook's `try` raises, the model writes a
`HookError` entry, because the hook prints one error line and carries on.
`Sessions.Run` strings calls together the way the host pipeline makes them.
Between calls an operator may change the valves.

Modules:
- `outcomes.dfy` has `Option` and `Try`.
- `values.dfy` has Python values, truthiness, `len()`, `dict.get` and `type()` display.
- `text.dfy` has decimal rendering, `str.strip()` and prefix slicing.
- `utf8.dfy` has strict UTF-8 decoding and encoding, as `bytes.decode("utf-8")` accepts it.
- `settings.dfy` has the valves.
- `log_format.dfy` models `_print_log`.
- `dev_logger.dfy` models the filter's state and its hooks.
- `sessions.dfy` models call sequences.

Behaviour worth noting:
- The stored context is overwritten only for a truthy `__user__`. A user of
  `{}` does not overwrite it. The log gates, however, test only
  `__user__ is None`.
- `outlet` resolves the model id with `__model__ is not None` inside the
  `try`. A model dict without `"id"`, including `{}`, makes the OUTLET block
  fail with an error line. It is not logged as `"N/A"`.
- `outlet` called with no user (`None`) prints nothing. A logged OUTLET block
  always shows the stored identity, whoever is passed. `stream` prints no
  identity at all.
- `inlet` can raise. This is recorded under Findings.

## Model

| member | source | states |
|---|---|---|
| `Text.ParseNatToString` | main.py:86 | the decimal count printed in the omission marker reads back as the same number |
| `Text.Strip` | main.py:169 | the decoded text of a bytes chunk loses whitespace (Python's `isspace` set) at both ends and nothing else, and the rest is kept contiguous |
| `Text.StripIsUnique` | main.py:169 | that description of `strip()` determines the stripped text uniquely |
| `Text.Take` | main.py:178 | `[:100]` keeps a prefix of at most 100 characters, and all of a string that is no longer |
| `Utf8.DecodeEncode` | main.py:167 | every text's UTF-8 encoding decodes back to that text |
| `Utf8.EncodeDecode` | main.py:167 | every byte string that decodes is the encoding of what it decodes to |
| `Utf8.DecodeIffEncode` | main.py:166-173 | bytes decode to `t` exactly when they are the UTF-8 encoding of `t`; any other bytes take the `UnicodeDecodeError` branch |
| `LogFormat.ParseOmissionMarkerInverts` | main.py:86 | the omission marker states its count recoverably |
| `LogFormat.Truncate` | main.py:82-87 | content is unchanged when the limit is at most 0, when it is empty, or when it is no longer than the limit; otherwise its first `limit` characters are kept exactly |
| `LogFormat.TruncationAccountsForOmitted` | main.py:83-87 | a truncated text is the original's first `limit` characters followed by a marker whose count is exactly the number of characters dropped |
| `LogFormat.TruncateTenOfTwentyFive` | main.py:82-87 | 25 characters truncated at 10 become the first 10 followed by `... [truncated, 15 chars omitted]` |
| `LogFormat.TruncateContent` | main.py:80-87 | formatting raises exactly when truncation is on, the content is a truthy non-string, and it either has no length or is longer than the limit; otherwise non-string content is logged as-is and string content is truncated |
| `LogFormat.PrintLog` | main.py:73-105 | a block is built exactly when the message is a dict and its content can be truncated; it shows the identity's email and role and the message's role (each "N/A" when missing), content "" when the message has none, the given model id, and the identity dump exactly for INLET with `log_user_info` set |
| `DevLogger.Remember` | main.py:117-119 | a truthy user is stored with the model's id, or "N/A" for a falsy model or one without "id" (as corrected under Findings); a None or empty user leaves the filter as it was; the valves never change |
| `DevLogger.LastMessage` | main.py:125-127 | the last element of a non-empty `messages` list; `{}` when the key is absent or the sequence is empty; raises when `messages` has no length; a non-empty non-list either raises or yields a non-dict, so the hook prints its error line |
| `DevLogger.Inlet` | main.py:108-138 | inlet returns its body; a truthy user overwrites the stored identity and model id whatever the valves say (the model's id; "N/A" for a falsy model and, as corrected under Findings, for a model without "id"); a falsy user leaves the state alone; exactly one entry is printed iff enabled, `log_inlet` and a user that is not None |
| `DevLogger.InletAsWritten` | main.py:117-122 | as written, inlet raises exactly for a truthy user with a non-empty model dict lacking "id", after saving the user and before updating the model id |
| `DevLogger.InletAsWrittenRaisesOnModelWithoutId` | main.py:119 | a concrete user and model for which the KeyError escapes and the body is not handed back |
| `DevLogger.InletAsWrittenAgreesOtherwise` | main.py:117-138 | on every other input the code as written behaves exactly like `DevLogger.Inlet` |
| `DevLogger.InletCapturesContextWhileDisabled` | main.py:116-122 | with the master switch or `log_inlet` off, inlet prints nothing but still captures the context |
| `DevLogger.InletLogsLastMessage` | main.py:124-134 | an open INLET gate prints one block with the last message's role and truncated content, the just-stored identity and model id, and the identity dump exactly when `log_user_info` is set |
| `DevLogger.InletWithoutMessagesLogsEmptyRecord` | main.py:125-127 | with no `messages` key or an empty list, INLET prints an empty record: empty content and role "N/A" |
| `DevLogger.InletEmptyUserLogsStoredContext` | main.py:117-133 | an empty user dict leaves the state alone yet still prints, showing the previously stored identity (email and role), its detail dump when `log_user_info` is set, and the stored model id |
| `DevLogger.ScanAssistant` | main.py:202-207 | the backward scan stops at the last assistant message, or at the last non-dict (which raises) when that comes later, and otherwise finds nothing; everything after its stop is a non-assistant dict |
| `DevLogger.LastAssistantMessage` | main.py:202-207 | `{}` without messages; raises for a non-empty non-list; for a list, the last assistant message after which every message is a non-assistant dict is found whatever precedes it (the loop stops there); a list of dicts never raises; `{}` means no message is from the assistant |
| `DevLogger.OutletModelId` | main.py:200 | the passed model's id, "N/A" when no model is passed, and a raise exactly when a model dict (even `{}`) has no "id" |
| `DevLogger.Outlet` | main.py:188-218 | outlet returns its body, never changes the state, and prints exactly one entry iff enabled, `log_outlet` and a user that is not None |
| `DevLogger.OutletLogsLastAssistant` | main.py:200-214 | an open OUTLET gate prints the last assistant message under the stored identity, with the model id of the passed descriptor or "N/A", and no identity dump |
| `DevLogger.OutletLogsFourthOfFour` | main.py:202-207 | of messages user, assistant, user, assistant the fourth is the one printed |
| `DevLogger.OutletModelWithoutIdIsReported` | main.py:199-216 | a model descriptor without "id" turns the OUTLET block into the hook's error line |
| `DevLogger.OutletShowsStoredIdentity` | main.py:209-213 | an OUTLET block's identity line is always the stored identity's email and role (or "N/A") |
| `DevLogger.OutletIgnoresPassedUser` | main.py:209-213 | which user is passed to outlet makes no difference, as long as it is not None |
| `DevLogger.OutletIgnoresStoredModelId` | main.py:200-213 | the stored model id never reaches an OUTLET block |
| `DevLogger.DictChunk` | main.py:156-159 | "" when choices are absent or falsy; the first choice's delta content (None when missing) when choices are a list whose first entry and delta are dicts; raises exactly when choices are truthy and not a list, or the first entry is not a dict, or its delta is not a dict; content or an error only ever comes from truthy choices |
| `DevLogger.StreamEntries` | main.py:152-179 | one event prints at most one entry |
| `DevLogger.Stream` | main.py:141-185 | stream returns its event unchanged and never changes the state; with the master switch or `log_stream` off it prints nothing |
| `DevLogger.StreamLogsDeltaContent` | main.py:154-162 | a dict event whose first choice has a delta prints that delta's content exactly when it is truthy |
| `DevLogger.StreamDictWithoutChoicesIsSilent` | main.py:156-161 | a dict event with no or falsy `choices` prints nothing and raises nothing |
| `DevLogger.StreamLogsHi` | main.py:154-162 | `{"choices": [{"delta": {"content": "hi"}}]}` prints "hi" as a dict chunk |
| `DevLogger.StreamClassifiesBytes` | main.py:164-173 | bytes that encode a text print that text stripped; bytes that encode no text, and only those, print raw |
| `DevLogger.StreamUnknownIsBounded` | main.py:175-179 | any other event prints its type and the first min(100, length) characters of its string form: all of it when at most 100 long, exactly 100 otherwise |
| `Sessions.RunPassesEverythingThrough` | main.py:108-218 | in every call sequence, every hook hands back exactly its own payload |
| `Sessions.RunSilentWhileDisabled` | main.py:121-197 | while `enabled` stays false nothing is printed, whatever the other valves say or are changed to, and the master switch stays off |
| `Sessions.InitialFilterIsSilent` | main.py:34-70 | a freshly constructed filter prints nothing until an operator switches `enabled` on, whatever other valve changes happen |
| `Sessions.RunKeepsContext` | main.py:116-122 | only an inlet call with a truthy user changes the stored context |
| `Sessions.OutletAfterInletShowsCapturedIdentity` | main.py:117-213 | after inlet captures identity `u`, a later OUTLET block shows `u` whatever calls came between, so long as no other truthy user arrived; valve changes in between are allowed |

## Findings

| source | as written | input that shows it | evidently intended | confidence | as-written member | corrected member |
|---|---|---|---|---|---|---|
| main.py:119 | `__model__["id"]` is looked up outside the hook's `try`, so its `KeyError` escapes `inlet` | user `{"email": "a@example.com"}` and model `{"name": "some-model"}`: inlet raises instead of returning the body, with the user saved and the model id stale | every other lookup in the hooks is inside a `try`, so that logging never breaks the pipeline; a model without an id is recorded as "N/A", and the body is always returned | medium; not executed | `DevLogger.InletAsWrittenRaisesOnModelWithoutId` | `DevLogger.Inlet` |

`DevLogger.InletAsWritten` models the code as written. `DevLogger.InletAsWrittenAgreesOtherwise`
proves it agrees with `DevLogger.Inlet` on every input outside the failing
class. The call sequences in `Sessions` use the corrected `DevLogger.Inlet`.

## Left out

- Console formatting is not modelled: `print`, header and footer strings,
  f-string rendering and the footer width. Each printed block or line is an
  abstract `Entry` record holding the values it shows.
- The `json.dumps` identity dump and its exception branch are not modelled.
  Only the gate is: an INLET block carries the identity as `userDetail` when
  `log_user_info` is set.
- The text of exception messages is not modelled. A caught exception is a
  `HookError(hook)` entry.
- Python's `str()` of an unknown stream event is the parameter `strOf`,
  because `repr` of arbitrary objects is not reimplemented. The event's
  `type()` display is modelled.
- `PyObject` stands for objects without `__len__`, `__getitem__`, `get`, a
  custom `__bool__`, a custom `__eq__` or a custom `__str__`. So `str()` of an
  unknown stream event never raises in the model. An event whose `str()`
  raises (main.py:178) would print the STREAM error line instead, and that
  path is not modelled. Dictionary keys are strings.
  Duck-typed objects beyond these are not modelled.
- The `priority` valve and the pydantic `Valves` machinery are not modelled.
  `priority` only orders filters inside the host and has no effect here.
- The unused `file_handler` and `time` import are left out.
- The unused `__event_emitter__` parameters and stream's unused `__user__`
  and `__model__` parameters are left out.
- `inlet` stores the caller's `__user__` dict by reference (main.py:118), so a
  later mutation of that dict by the host would show in OUTLET blocks. The
  model stores an immutable snapshot, because value semantics has no aliasing.
- A Python `str` can hold lone surrogate code points, which Dafny's `char`
  cannot represent. Strings with lone surrogates are not modelled. This
  matters nowhere in the UTF-8 path, because strict decoding never yields
  them.
- Async execution is not modelled, and neither are overlapping requests
  racing on the shared session slot. Calls are modelled as a sequence.
