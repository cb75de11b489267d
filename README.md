# FitGenie recommendations handler — Dafny model

This project models the core of the FitGenie backend's `POST /recommendations`
handler (`main.py`):

- the request body `RecommendationInput`, six free-text profile fields;
- the prompt, an f-string that puts the six fields, each after its label,
  between a fixed introduction and a sample JSON object with five keys;
- the response check: the model's reply text (a missing text read as `""`)
  is stripped, the JSON-looking span is cut out with the greedy regex
  `\{[\s\S]*\}`, parsed with `json.loads`, and checked for the keys
  `diet_types`, `workouts`, `breakfasts`, `dinners`, `additional_tips`; the
  parsed object is returned unchanged; every exception derived from
  `Exception` inside the `try` block, whether the handler raised it or
  something it called did, becomes one `HTTPException` with status 500 and
  detail `"LLM Error: "` followed by the exception's text.

The code is straight-line and stateless, so the model is functions over values:

- `wrappers.dfy`: `Option` and `Result`.
- `text.dfy`: Python's `str.strip()` (with the exact `str.isspace()`
  character set), first and last index of a character, substring facts.
- `extraction.dfy`: the regex search as the first `{` and the last `}`
  after it, proved to be the leftmost-longest match the regex engine reports.
- `json.dfy`: the Python values `json.loads` returns.
- `prompt.dfy`: `RecommendationInput` and the prompt.
- `recommendations.dfy`: the response check and the handler.

The three things outside the code are parameters of the handler:
`generate` is the model call, `parse` is `json.loads`, and `httpText`
renders an `HTTPException` as text.

`main.py` raises an error for missing keys instead of filling in defaults,
computes no BMI, and lets a parse failure reach the generic `except` as the
parser's own exception.

## Model

| member | source | states |
|---|---|---|
| `Text.Strip` | main.py:65 | the result is the input with only whitespace removed, and only at both ends; neither end of a non-empty result is whitespace |
| `Extraction.Search` | main.py:66 | the returned bounds are the leftmost match of `\{[\s\S]*\}` and the longest one from that start; `None` exactly when no part of the text matches |
| `Extraction.ExtractSpan` | main.py:66-70 | a found span is at least two characters long, starts with `{` and ends with `}`; `None` exactly when no part of the text matches |
| `Extraction.SpanDiscardsOnlyOutside` | main.py:66-70 | the span is a contiguous piece of the text; the text before it holds no `{` and the text after it holds no `}` |
| `Extraction.SpanOfWrappedObject` | main.py:66-70 | prose without `{`, then a brace-delimited object, then prose without `}` yields exactly that object |
| `Extraction.SpanIgnoresBracelessPadding` | main.py:66 | brace-free text added around a reply changes neither whether a span is found nor what it is |
| `Extraction.StripKeepsSpan` | main.py:65-66 | stripping the reply before the search never changes the span found |
| `Recommendations.BracePairIsMatch` | main.py:66 | the regex matches somewhere exactly when a `{` is followed later by a `}` |
| `Json.TypeName` | main.py:73 | the parsed value's Python type is `dict` exactly when it is a JSON object |
| `PromptBuilder.PromptIsInterleaving` | main.py:39-61 | the prompt is the introduction, each label followed by its field, and the response-format block |
| `PromptBuilder.PromptListsFieldsInOrder` | main.py:44-50 | each of the six fields stands verbatim right after its own label, and each ends before the next one starts, in source order |
| `PromptBuilder.InterleaveFieldAt` | main.py:45-50 | in the label/field block, field k sits at its offset, right after label k |
| `PromptBuilder.FieldOffsetStep` | main.py:45-50 | field k+1 starts after field k ends and label k+1 follows it |
| `Recommendations.PromptAsksForRequiredKeys` | main.py:54-60 | the sample object in the prompt names, in quotes, every key the check requires |
| `Recommendations.CheckReply` | main.py:63-76 | a returned document has all five required keys; a raised `HTTPException` has status 500 and one of the two fixed details |
| `Recommendations.CheckSpan` | main.py:67-76 | the same as `CheckReply`, for the steps after the regex search |
| `Recommendations.CheckReplySeesRawSpan` | main.py:65-66 | the check behaves as if the unstripped reply were searched |
| `Recommendations.NoJsonIffNoBracePair` | main.py:65-68 | the reply gets "Could not find JSON in AI response." exactly when its text has no `{` followed later by `}`, whatever the parser does |
| `Recommendations.MissingTextIsNoJson` | main.py:65-68 | a reply whose text is `None` gets the no-JSON error |
| `Recommendations.MissingKeysIff` | main.py:70-74 | the reply gets "Missing expected keys in AI response." exactly when its span parses to an object lacking one of the five keys |
| `Recommendations.ReturnedUnchanged` | main.py:70-76 | a document is returned exactly when the span parses to an object with all five keys, and it is that object unchanged |
| `Recommendations.NoKeysAttributeUnreachable` | main.py:71-73 | if the parser gives a `dict` or an error for text starting with `{`, the `AttributeError` of `parsed.keys()` never occurs |
| `PromptBuilder.Prompt` | main.py:39-61 | the f-string starts with the introduction and ends with the response-format block; the rest of what it contains is stated by `PromptIsInterleaving`, `PromptListsFieldsInOrder` and `PromptAsksForRequiredKeys` |
| `Recommendations.RawText` | main.py:65 | `response.text or ""`: a missing text reads as the empty string, a present one is kept as it is |
| `Recommendations.FaultText` | main.py:73-79 | `str(e)` of the exception that ended the `try` block: the framework's text for an `HTTPException`, the message of a parser or model-call exception, and Python's `'<type>' object has no attribute 'keys'` for `parsed.keys()` on a non-`dict` |
| `Recommendations.GetRecommendations` | main.py:38-79 | every raised error has status 500 and a detail that starts with "LLM Error: "; a returned document has all five keys |
| `Recommendations.ModelFailureIsWrapped` | main.py:63-79 | an exception from the model call gives status 500 with detail "LLM Error: " followed by its message |
| `Recommendations.ParseFailureIsWrapped` | main.py:70-79 | an exception from `json.loads` on the span gives status 500 with detail "LLM Error: " followed by its message |
| `Recommendations.NoJsonIsWrapped` | main.py:65-79 | a reply with no `{` followed later by `}` gives status 500 with detail "LLM Error: " followed by the framework's text for the no-JSON `HTTPException` |
| `Recommendations.MissingKeysIsWrapped` | main.py:70-79 | a reply whose span parses to an object lacking a required key gives status 500 with detail "LLM Error: " followed by the framework's text for the missing-keys `HTTPException` |
| `Recommendations.ObjectInProseIsReturned` | main.py:63-76 | a reply with a complete object inside prose or code fences, whose parse has all five keys, is answered with exactly that object |

## Left out

- FastAPI app setup, the CORS middleware and HTTP routing (main.py:19-27, 37): web-framework plumbing.
- Loading the environment and the API key, and the startup failure when it is missing (main.py:11-14): process configuration.
- The Gemini client and `model.generate_content` (main.py:16-17, 64): an external network service. The model is the parameter `generate`. It maps the prompt to a reply text, a missing text, or an exception message. It is a function, but the handler calls it only once per request, so any single reply can be represented.
- The internals of `json.loads` (main.py:71): the parameter `parse`. Its error string stands for `str()` of whatever it raised. Floating-point numbers are kept as their literal text, and duplicate keys are left to the parser.
- The Pydantic validation of the request body (main.py:29-35): the model takes the six strings as already validated.
- The text of `str()` on an `HTTPException`: the web framework defines it. It is the parameter `httpText`, and only the `"LLM Error: "` prefix and the inner detail passed to it are stated.
- The framework's validation of the returned document against the `Dict[str, List[str]]` return annotation (main.py:38): it happens after the handler returns, outside the `try` block.
- Python strings may contain lone surrogate code points, and Dafny characters cannot. Replies containing them are not modelled.
- Exceptions derived only from `BaseException`, such as `KeyboardInterrupt`, `SystemExit` and `asyncio.CancelledError`, are not caught by `except Exception` (main.py:78) and leave the handler unwrapped. The model's `Failed` reply stands only for exceptions derived from `Exception`.
- The order of keys in a parsed object is not modelled: an object is a `map`, so "returned unchanged" means the same keys with the same values, not the same key order in the response body.
