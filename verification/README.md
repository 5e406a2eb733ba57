# Neurality voice agent: completion handling, address validation and summary e-mail

This project models, in Dafny, the logic at the core of a LiveKit-based medical-intake voice
agent. The surrounding code does little more than wire up speech, language-model and telephony
services; the logic sits in three small Python functions:

- **Conversation-completion handling** (`handle_conversation_item` in
  `neurality_voice_agent.py`). When the assistant says "Here is the summary of your request",
  the handler cuts a JSON payload out of the message with `re.search(r"\{.*\}", text, re.DOTALL)`.
  It parses the payload and overwrites `output.json` with it. A missing payload or a parse
  failure is caught and only printed.
- **Address validation** (`validate_address`, which appears twice with the same behaviour, in
  `AI_VoiceAgent_Creation.py` and in `neurality_voice_agent.py`). It builds the Smarty US Street
  API query and maps the response to a `(bool, message)` pair, keyed on the DPV match code.
- **Summary e-mail** (`send_summary_email` and the `/agent/on-room-ended` webhook in
  `AI_VoiceAgent_Creation.py`). These compose the appointment notification, join the fixed
  distribution list into the `To` header, split it back for the SMTP envelope, and supply
  defaults for missing request fields.

Modules:

| file | module | models |
|---|---|---|
| `wrappers.dfy` | `Wrappers` | `Option` and `Result` |
| `text.dfy` | `Text` | Python's `in`, `str.join` and `str.split`, with a reference meaning for `in` and the split/join round trips |
| `brace_span.dfy` | `BraceSpan` | the regex search for the payload, as a first-`{`/last-`}` scan proved equal to regex semantics |
| `completion.dfy` | `Completion` | the conversation-item handler and the state of `output.json` over a session |
| `address_validation.dfy` | `AddressValidation` | query parameters, response classification, the exceptions that escape |
| `summary_email.dfy` | `SummaryEmail` | message composition, recipient join/split, webhook defaults |

The model is purely functional. The HTTP GET is a function parameter `service` that maps the
query parameters to a `Response`, or to `None` where `requests.get` raises. `json.loads` is a function parameter `parse` that returns
`None` where it would raise. The file `output.json` is a value of type `Option<J>`.

Behaviour worth noting:

- There is no once-per-session dispatch guard. The module-level `session_data` in
  `AI_VoiceAgent_Creation.py` is never used. A second summary message saves again and overwrites
  the file (`Completion.SecondSummaryOverwritesFirst`).
- The address verdict is a boolean plus a message, not a three-valued result.
- `response.json()` runs before the status check. A non-JSON body therefore raises, even with a
  status such as 500, instead of producing an "invalid" verdict
  (`AddressValidation.UndecodableBodyRaises`).
- `validate_address` catches nothing: a failed connection (no timeout is set) and an `analysis`
  entry that is not an object also raise (`AddressValidation.ValidateAddress`,
  `AddressValidation.Classify`).
- The handler waits for "Here is the summary of your request", but the agent's prompt
  (`neurality_voice_agent.py:111-117`) asks for the JSON summary followed by "Your appointment
  has been scheduled." and never for that phrase. The file is written only when the model
  happens to say it.
- `validate_address` is defined in both files but is never registered as a tool with the agent.
  The model treats it as a callable operation.

## Model

| member | source | states |
|---|---|---|
| Completion.HandleConversationItem | neurality_voice_agent.py:70-89 | an item is ignored exactly when it is not an assistant message containing the sentinel (case-sensitive substring); it fails with "no JSON" exactly when it is a summary item whose text has no regex match at all; a save holds the parse of the regex search result |
| Completion.NonAssistantNeverTriggers | neurality_voice_agent.py:71-74 | a user (or any non-assistant) item never triggers extraction, whatever its text |
| Completion.SavedIff | neurality_voice_agent.py:76-87 | the file is written iff the item is a summary item, a span was extracted and it parses; the written value is that parse; failures write nothing |
| Completion.FileAfter | neurality_voice_agent.py:84-85 | over a run of outcomes, `output.json` holds the payload of the last save, or is unchanged when nothing saved |
| Completion.SecondSummaryOverwritesFirst | neurality_voice_agent.py:84-91 | no at-most-once guard: when two summary items both save, the file holds the second item's payload, whatever it held before |
| BraceSpan.FindSpan | neurality_voice_agent.py:77-79 | the first-`{`/last-`}` scan returns the leftmost, longest match of `\{.*\}` under DOTALL, and nothing exactly when no match exists |
| BraceSpan.Extract | neurality_voice_agent.py:77-81 | an extracted payload is at least two characters, starts with `{` and ends with `}` |
| BraceSpan.SpanExistsIff | neurality_voice_agent.py:77-79 | a span exists iff some `{` precedes some `}` in the text |
| BraceSpan.ExtractIsFirstOpenToLastClose | neurality_voice_agent.py:77-81 | the payload is the contiguous slice from the first `{` of the text to its last `}` |
| BraceSpan.OverCapture | neurality_voice_agent.py:77 | with two brace-delimited regions, the payload covers both regions and all the text between them |
| BraceSpan.ExtractIdempotent | neurality_voice_agent.py:77-81 | extracting from an extracted payload returns it unchanged |
| Text.ContainsMeansOccurs | neurality_voice_agent.py:73 | the substring scan used for the sentinel test agrees, in both directions, with "occurs at some index" |
| Text.Split | AI_VoiceAgent_Creation.py:86 | `str.split` yields at least one piece and no piece contains the separator |
| Text.JoinSplit | AI_VoiceAgent_Creation.py:86 | joining the pieces of a split with the same separator gives the original text |
| Text.SplitJoin | AI_VoiceAgent_Creation.py:80-86 | splitting a `", "`-join of a non-empty list of pieces free of `", "` recovers the list |
| AddressValidation.QueryParams | AI_VoiceAgent_Creation.py:46-58 | auth-id, auth-token and street are always present with their values; city, state, zipcode are present iff truthy, with their values; no other key |
| AddressValidation.MatchCode | AI_VoiceAgent_Creation.py:67 | the DPV code defaults to "" when `analysis` or `dpv_match_code` is absent; the lookup raises exactly when `analysis` is present but not an object |
| AddressValidation.ValidateAddress | neurality_voice_agent.py:32-55 | a connection error is raised exactly when the GET fails; a JSON decode error exactly when the body is not JSON; otherwise the result is the classification of the response to the query built from the arguments |
| AddressValidation.Classify | neurality_voice_agent.py:46-55 | a non-200 status or empty array yields (False, "Address not found or incomplete.") regardless of content; otherwise it raises exactly when the first `analysis` is not an object, and is valid iff the first DPV code is exactly "Y" |
| AddressValidation.FirstCandidateDecides | AI_VoiceAgent_Creation.py:66-73 | with status 200 and data: "Y" gives valid, "D" gives the missing-unit message, any other code (a missing `analysis` gives "") gives the invalid message embedding the code |
| AddressValidation.UndecodableBodyRaises | AI_VoiceAgent_Creation.py:60-64 | a non-JSON body raises even when the status is not 200 |
| AddressValidation.DiagnosticCodeRoundTrip | AI_VoiceAgent_Creation.py:72-73 | the DPV code embedded in the invalid-address message can be read back out of it |
| AddressValidation.MessageIdentifiesBranch | neurality_voice_agent.py:46-55 | the message alone tells the branch: validity iff the valid message; a code is embedded iff the code-specific branch was taken, and it is the first candidate's code |
| SummaryEmail.Body | AI_VoiceAgent_Creation.py:77 | the body is name, " has scheduled an appointment with ", doctor, " on ", time and a final "." in that order |
| SummaryEmail.BodyRoundTrip | AI_VoiceAgent_Creation.py:77 | given the name and doctor lengths, the three fields are read back from the body unchanged |
| SummaryEmail.Compose | AI_VoiceAgent_Creation.py:76-80 | fixed subject and sender, `To` header is the `", "`-join of the distribution list, body as above |
| SummaryEmail.EnvelopeIsDistributionList | AI_VoiceAgent_Creation.py:80-86 | the envelope recipients split from the `To` header are exactly the three configured addresses, in order |
| SummaryEmail.RequestFields | AI_VoiceAgent_Creation.py:141-144 | present request fields pass through unchanged; absent ones become "Unknown Patient", "Unspecified Doctor", "Unknown Time" |
| SummaryEmail.OnRoomEnded | AI_VoiceAgent_Creation.py:139-146 | the webhook composes the e-mail from the defaulted fields, addresses the three recipients, and always answers "Summary email sent." |

## Left out

- SMTP connection, STARTTLS, login and sending (`AI_VoiceAgent_Creation.py:82-89`): network I/O. Every failure there is caught and printed, so the webhook's answer does not depend on it.
- The HTTP GET to Smarty, and JSON decoding of its body: foreign calls. The response is an input.
- Response bodies that decode as JSON but are not an array of objects (a dict, a string, `null`, non-object elements, a non-string `dpv_match_code`). Only an array of candidates, or an undecodable body, is modelled; kinds of connection failure are not told apart.
- `json.loads` of the payload: an opaque `parse` parameter. The content of `output.json` is modelled, but the file write, the `indent`/`ensure_ascii` formatting and write errors are not.
- The `print` calls in the handler and the e-mail function: logging only.
- LiveKit session and agent construction, plugin configuration, `session.on` event registration, `generate_reply`/`say`, the FastAPI app and `on_room_started`: these belong to the external runtime and its concurrency.
- Prompt instruction strings: data, not behaviour.
- Loading `.env` at import time and the required-key check: environment plumbing. The Smarty credentials are a parameter.
- `SIP_Outbound_Trunk.py`: a single API call with hard-coded configuration.
- SummaryEmail.RequestFields: request values are modelled as strings. A non-string JSON value would pass through `str()` in the f-string.
- AddressValidation.QueryParams: the street and credentials are strings. `requests` would silently drop a `None` value, which the model does not represent.
