# Mindfulness tracker: the content generator's decision layer

The mindfulness tracker asks a text-generation service for a short guided
practice and a journal prompt that suit the user's mood. The service sends
back text. The app parses that text as JSON, and `_validate_response`
decides whether the result has the expected shape:

```
{"practice": {"title": ..., "description": ..., "type": ...}, "journal_prompt": ...}
```

If the call fails or the reply is rejected, the app uses the canned content
that `get_fallback_content` keeps for each mood. This project models that
layer of `app/ai_service.py` in Dafny:

- `PyText` holds the Python string behaviour the validator relies on:
  - the `str.isspace()` character set;
  - `str.strip()`, built from `TrimLeft` and `TrimRight`;
  - the truthiness of a stripped string (`NonBlank`);
  - the substring test behind `needle in text`.
- `JsonValue` holds the values `json.loads` produces, and the two Python
  operations the validator applies to them:
  - `key in value`, which is key membership for a dict, element equality for
    a list, a substring test for a str, and a `TypeError` for anything else;
  - `value[key]`, which raises `KeyError` or `TypeError`.
  Raised exceptions are values of `Eval`, so that the validator's
  `try`/`except` can be modelled.
- `AiService` holds the validator, the typed reading of a valid reply, the
  fallback table, the user message, and the validate-then-return step.
  - `CheckResponse` follows the body of `_validate_response` check by check,
    in the order the source runs them, including how Python short-circuits
    and raises.
  - `ValidateResponse` is the `try`/`except` around it: an exception becomes
    False.
  - `Decode` is an independent typed reader into `Content`. It is proved to
    accept exactly what the validator accepts, and to invert `ToJson` on
    well-formed content.
  - `GeneratePracticeAndPrompt` takes the service call as a function
    parameter from the user message to an `ApiReply`. The reply is a
    `json.JSONDecodeError` raised by the call itself, any other failed call,
    text that is not JSON, or a parsed value. Whether building the client
    returns normally is a boolean parameter. The result is an `Outcome`: a
    returned value or None, or an exception that escapes the function.

The validator strips whitespace before its emptiness test, so a
whitespace-only title, description, type or prompt is rejected.

## Model

| member | source | states |
|---|---|---|
| `PyText.TrimLeft` | app/ai_service.py:112 | the leading-whitespace removal of `strip()`: the result is a suffix of the input, everything dropped is whitespace, and the result is empty or starts with a non-space |
| `PyText.TrimRight` | app/ai_service.py:112 | the trailing-whitespace removal of `strip()`: the result is a prefix, everything dropped is whitespace, and the result is empty or ends with a non-space |
| `PyText.Strip` | app/ai_service.py:112 | `strip()` returns a contiguous piece of its input that neither starts nor ends with whitespace, and everything it drops before and after that piece is whitespace |
| `PyText.StripEmptyIffAllSpace` | app/ai_service.py:112 | `s.strip()` is empty exactly when every character of `s` is whitespace |
| `PyText.StripTruthiness` | app/ai_service.py:116 | the truth value of `s.strip()` that the validator tests is "s holds a non-whitespace character" |
| `PyText.StripIdempotent` | app/ai_service.py:112 | stripping an already stripped string changes nothing |
| `JsonValue.InAgreesWithSubscript` | app/ai_service.py:102-106 | on a dict, `key in result` holds exactly when `result[key]` succeeds and fails exactly when it would raise KeyError; wherever `in` raises, the subscript raises TypeError |
| `AiService.ParseType` | app/ai_service.py:120-122 | a category is recognised exactly when the string equals one of the four names, with no trimming or case folding |
| `AiService.Decode` | app/ai_service.py:100-124 | an accepted reply yields a content whose texts are non-blank and whose fields are exactly the reply's `title`, `description`, `type` and `journal_prompt` |
| `AiService.DecodeToJson` | app/ai_service.py:100-124 | encoding a well-formed content as the reply dict and reading it back gives the same content |
| `AiService.AllIn` | app/ai_service.py:108 | `all(key in practice ...)` raises only if `in` raises on the value, is True exactly when every key passes, and on a dict is True exactly when every key is present |
| `AiService.AllNonBlankStrings` | app/ai_service.py:112 | `all(isinstance(...) and ....strip() ...)` raises only if a subscript raises, and on a dict holding every key is True exactly when every entry is a non-blank str |
| `AiService.CheckResponse` | app/ai_service.py:100-124 | the body of the `try` block, check by check in the source's order with Python's short-circuiting and raising; it raises only when the reply, or its `practice`, is not a dict (see also `ExceptOnlyOnNonDict`) |
| `AiService.CheckIffDecodes` | app/ai_service.py:100-124 | the checks return True without raising exactly when the reply reads as a content |
| `AiService.ValidateResponse` | app/ai_service.py:90-127 | `_validate_response`, with every exception turned into False, returns True exactly when the reply reads as a content through `Decode` |
| `AiService.ValidateIffDecodes` | app/ai_service.py:100-127 | the validator returns True exactly when every check passes together, that is when the reply reads as a content |
| `AiService.NonObjectRejected` | app/ai_service.py:126-127 | a top-level value that is not a dict is rejected, through the caught exception where needed |
| `AiService.MissingTopLevelKeyRejected` | app/ai_service.py:102-103 | a reply without `practice` or without `journal_prompt` is rejected |
| `AiService.PracticeShapeRejected` | app/ai_service.py:106-109 | a `practice` that is not a dict, or lacks `title`, `description` or `type`, is rejected |
| `AiService.BlankPracticeFieldRejected` | app/ai_service.py:111-113 | a practice field that is not a str, or is whitespace only, is rejected |
| `AiService.BadPromptRejected` | app/ai_service.py:115-117 | a `journal_prompt` that is not a str, or is whitespace only, is rejected |
| `AiService.UnknownTypeRejected` | app/ai_service.py:119-122 | a `type` that is not exactly one of the four names is rejected |
| `AiService.TypeMatchIsExact` | app/ai_service.py:120-122 | with everything else valid, `"breathing"` passes while `" breathing"` and `"Breathing"` fail |
| `AiService.ExceptOnlyOnNonDict` | app/ai_service.py:126-127 | an exception escapes the checks only when the reply or its `practice` is not a dict, and it then turns into False |
| `AiService.ListWithKeyNamesRejected` | app/ai_service.py:102-106 | a list holding the strings `"practice"` and `"journal_prompt"` passes both `in` tests, raises TypeError at `result['practice']`, and is rejected |
| `AiService.FallbackEntriesWellFormed` | app/ai_service.py:141-174 | every canned entry has a non-blank title, description and prompt |
| `AiService.GetFallbackContent` | app/ai_service.py:130-177 | the answer always passes the validator, and it reads back as the mood's own entry, or as the Calm entry for a mood that is not a key |
| `AiService.FallbackForKnownMoods` | app/ai_service.py:141-173 | Happy, Calm, Anxious and Sad each get their own entry (breathing, meditation, breathing, meditation), and the other three differ from Calm's |
| `AiService.FallbackDefaultsToCalm` | app/ai_service.py:176-177 | every string other than the four exact mood names gets the Calm entry |
| `AiService.FallbackIsCaseSensitive` | app/ai_service.py:177 | `"happy"` gets the Calm entry, not the Happy one |
| `AiService.UserMessage` | app/ai_service.py:27-29 | the message starts with `"User's mood: " + mood`, and it continues, with `"\nBody feeling: "` and the body feeling, exactly when the body feeling is a non-empty string |
| `AiService.UserMessageRoundTrip` | app/ai_service.py:27-29 | for a one-line mood, the mood and the body feeling can be read back from the message; a None or empty body feeling reads back as absent |
| `AiService.AcceptResponse` | app/ai_service.py:73-78 | the parsed reply is returned exactly when it validates, and what is returned reads as a content |
| `AiService.GeneratePracticeAndPrompt` | app/ai_service.py:19-87 | with a key set, a client error at line 24 escapes, and a `json.JSONDecodeError` from the call escapes as the handler's `UnboundLocalError` at line 82; a value is returned exactly when the key is set and non-empty, the call returns parseable JSON for the user message, and that value validates; the value is that reply |
| `AiService.FailedCallOutcomes` | app/ai_service.py:54-87 | a call that raises `json.JSONDecodeError` makes the function raise, while any other failed call or unparseable reply gives None |
| `AiService.GeneratedOrFallbackValid` | app/ai_service.py:130-177 | whenever the generate path returns rather than raises, the generated reply, or the mood's fallback when there is none, passes the validator |

## Left out

- The service client: the network call, its model name, `max_tokens`, `temperature` and the fixed system prompt (app/ai_service.py:24, 32-64). The call is the `complete` parameter, and any reply is possible.
- What the `OpenAI(api_key=api_key)` constructor at app/ai_service.py:24 checks is not modelled; the `clientCreated` parameter says whether it returns, and an exception from it escapes the function.
- Reading `OPENAI_API_KEY` from the environment (app/ai_service.py:19): the key is a parameter.
- The `print` logging on every failure path (app/ai_service.py:21, 74-75, 81-82, 86). It is output only.
- `json.loads` and the `.strip()` of the raw reply before it (app/ai_service.py:67-70). The model starts from a parsed value. Text that does not parse is the `NotJson` reply.
- `PyText.IsSpace`: a fixed table of the characters for which `str.isspace()` holds in current Python versions. The real set comes from the Unicode database of the running interpreter, so it may differ slightly between versions.
- `JsonValue.Json`: numbers are `real`. The validator never looks inside a number, so Python's int/float split and non-finite floats do not matter. A JSON object is a map, so a duplicated key keeps one entry, as `json.loads` keeps the last one.
- `JsonValue.Json`: Dafny strings hold only Unicode scalar values, so a JSON string holding a lone surrogate, which `json.loads` accepts (`"\ud800"`), cannot be represented. The validator's verdict on such a string would depend only on whether it holds a non-whitespace character.
- app/models.py, app/__init__.py, clear_data.py, run.py and app/mindfulness_tracker_app.py are not part of this model. They hold ORM column declarations, password hashing wrappers, Flask wiring and bulk database deletes, not decision logic.
- `AiService.GeneratedOrFallbackValid`: promises nothing when the generate path raises, because the two escaping exceptions leave the function and what the caller then does is not modelled.
- The routes that call the generator, store the practice and fall back to the canned content are not among the modelled files. `AiService.GeneratedOrFallbackValid` states what that combination guarantees, but not where the app performs it.
