# Bewerber-Agent CH search endpoint, modelled in Dafny

This project models `POST /api/search` in `app.py`. The endpoint reads a job-search
query (role, city, radius) with defaults and refuses to work without an OpenAI API key.
It then builds the user prompt with `USER_TEMPLATE.format(role=..., city=..., radius=...)`.

As written, that `format` call raises whenever it is reached, whatever the query. The template's example posting
(app.py:36-52) uses single braces. `str.format` therefore reads the `{` on app.py:36 as a
fourth replacement field, closed by the `}` on app.py:52, whose name is the quoted key
`"id"` with the newline and indentation before it. No argument has that name, so
`format` raises `KeyError`. Line 83 sits outside the `try` of app.py:86, so Flask answers
its 500 error page, and the upstream model is never asked. `Handler.ApiSearchAsWritten`
models this (see "## Findings").

The evidently intended endpoint has the example's braces doubled. It is modelled as
`Handler.ApiSearch`, and every end-to-end property below is stated about it. That
endpoint asks the upstream model once with the rendered prompt, then post-processes
the model's reply into a JSON array of Swiss job postings:

- the reply must decode to a JSON array;
- every element is copied as a mapping;
- its description is stripped and hard-cut to 300 characters;
- a missing id becomes `web_<1-based position>`;
- a nested location mapping gets country `CH`.

Anything that fails turns the whole reply into a 502 error object that carries the
stripped reply text as `raw`. This post-processing (app.py:102-127) is the same in both
versions.

Modules:

- `results.dfy` (`Results`): `Option` and `Result`.
- `json.dfy` (`Json`): decoded JSON values (`Value`) with Python truthiness (`Truthy`)
  and `dict.get` (`GetOr`).
- `text.dfy` (`Text`): Python's `str.strip()` over the `str.isspace()` code points,
  with a reference characterisation; the `s[:n]` cut; `str(int)` with its inverse.
- `sanitizer.dfy` (`Sanitizer`): cleaning of one element (`CleanJob`) and of the whole
  reply (`Sanitize`). The `for` loop as written is `CleanLoop`.
- `prompt.dfy` (`Prompt`): the system prompt, `str.format` over a parsed template
  (`Format`), the template as written and the corrected one.
- `handler.dfy` (`Handler`): the linear decision sequence of `api_search` for a given
  template (`Handle`), instantiated as written and corrected. It also holds the
  end-to-end properties, including example requests.

Inputs the model takes as parameters:

- the request body is `Option<Value>`, with `None` when Flask could not decode it;
- the `OPENAI_API_KEY` value is a string, and empty means missing;
- the upstream outcome (`Upstream`) is either an exception message or a reply whose
  content may be missing;
- `json.loads` is a function `parse: string -> Option<Value>`;
- Python's `repr` of a list or dict is a function `repr`.

The response records its status, its body and the upstream request it made, if it made one.

The code differs from a looser reading of the endpoint's contract in four places:

- `USER_TEMPLATE.format` raises whenever it is reached, whatever the query, as described above. As written, every
  answer has status 500, and no request reaches the upstream model.
- A malformed reply is answered with status 502, never 500.
- A truthy request body that is not an object (a non-empty list or string, a non-zero
  number, `true`) does not fall back to the defaults. It has no `.get` method, so the
  handler raises an unhandled exception. Flask answers that with its 500 error page,
  before the key check and without any upstream call. The model follows the code.
- There is no 400 path in this file.

## Model

| member | source | states |
|---|---|---|
| Text.StripMeetsReference | app.py:111 | `strip()` leaves a trimmed middle part of the text, with only whitespace removed before and after it |
| Text.LStripDrops | app.py:111 | the left strip keeps a suffix of the text and removes only whitespace before it |
| Text.RStripDrops | app.py:111 | the right strip keeps a prefix of the text and removes only whitespace after it |
| Text.Strip | app.py:111 | `strip()` never lengthens a text and leaves no whitespace at either end |
| Text.StripCharacterised | app.py:111 | any split of a text into whitespace, a trimmed middle and whitespace has `strip()` equal to that middle, so the result is unique |
| Text.StripTrimmed | app.py:111 | stripping a text with no whitespace at its ends returns it unchanged |
| Text.Cut | app.py:112-113 | the cut result is a prefix of at most 300 characters; a shorter text is kept whole, a longer one gets exactly 300 |
| Text.DecimalRoundTrip | app.py:117 | reading back the decimal digits of `str(idx)` gives `idx` |
| Text.DecimalInjective | app.py:117 | different positions render to different digit strings |
| Text.NatToDecimal | app.py:117 | `str(idx)` for a position is a non-empty string of decimal digits with no leading zero |
| Text.IntToDecimalInjective | app.py:83 | `str(n)` of distinct integers differ, so a numeric radius is printed unambiguously |
| Json.FalsyValues | app.py:71 | the values `or` replaces are exactly `None`, `False`, `0`, `""`, `[]` and `{}` |
| Sanitizer.CleanDescription | app.py:111-114 | a falsy description gives `""`; a string gives its stripped text cut to 300 characters (kept whole when 300 or shorter); any other truthy value is an error; the result never exceeds 300 characters |
| Sanitizer.FallbackId | app.py:117 | the fallback id is `web_` followed by decimal digits that denote the position |
| Sanitizer.FallbackIdInjective | app.py:109-117 | elements at different positions get different fallback ids |
| Sanitizer.WithFallbackId | app.py:116-117 | an existing id is kept whatever its value; a missing one is `web_<position>`; the id is the only key added and no other value changes |
| Sanitizer.WithForcedCountry | app.py:118-119 | a location mapping gets country `CH` and keeps its other keys and values; a location that is not a mapping, and every other key, is untouched |
| Sanitizer.CleanJob | app.py:110-120 | an element is cleaned exactly when it is a mapping whose description is falsy or a string; the result has the input's keys plus `description` and `id`, and a string description of at most 300 characters |
| Sanitizer.CleanJobDescription | app.py:111-114 | the cleaned element always has a `description`: the stripped, cut input description, or `""` for a missing, null or falsy one |
| Sanitizer.CleanJobId | app.py:116-117 | an existing `id` (even null) is kept; a missing one is the fallback for the element's own position |
| Sanitizer.CleanJobLocation | app.py:118-119 | a nested location mapping has country `CH` afterwards and its other keys unchanged; a non-mapping location is left as it was |
| Sanitizer.CleanJobOtherFields | app.py:110-120 | every key other than `description`, `id` and `location` keeps its value |
| Sanitizer.CleanItems | app.py:108-121 | either every element is cleaned, giving one output per input in the same order, each from its own element and position only; or the first element that fails decides the error and no array results |
| Sanitizer.LaterFailure | app.py:109-110 | a first failure after a successful first element is the first failure of the whole array |
| Sanitizer.AllCleaned | app.py:109-120 | the first cleaned element in front of the cleaned rest cleans every element at its own position |
| Sanitizer.Sanitize | app.py:103-121 | a reply that does not decode, or decodes to something other than an array, is an error; otherwise success iff every element can be cleaned; on success count and order are kept and element i is the cleaning of input element i at position i+1 |
| Sanitizer.CleanLoop | app.py:108-120 | the appending loop that stops at the first failure computes exactly the recursive definition |
| Sanitizer.FallbackIdsDistinct | app.py:109-117 | two elements that arrived without an id get different ids, since the counter is the position in the whole array |
| Sanitizer.ElementIsLocal | app.py:108-121 | two replies that agree at position i give the same cleaned element i |
| Sanitizer.ForcedCountryStays | app.py:118-119 | a location that already says `CH` is unchanged by cleaning |
| Sanitizer.CleanNormalFields | app.py:110-120 | a mapping with a short string description, an id and (if present) a location saying `CH` is cleaned into itself, with its description stripped |
| Sanitizer.CleanAgain | app.py:110-120 | cleaning a cleaned element succeeds and only strips its description again |
| Sanitizer.CleanIdempotent | app.py:110-120 | cleaning is idempotent when the cleaned description has no whitespace at its ends |
| Sanitizer.CutCanEndInWhitespace | app.py:111-113 | a cut landing on a space leaves a description that ends in whitespace, so a second pass can change it |
| Prompt.Render | app.py:28-34 | the corrected prompt holds each displayed parameter verbatim at its placeholder between the fixed labels, and always ends with the fixed rules |
| Prompt.Format | app.py:83 | `format` succeeds exactly when every field of the template names an argument, and then replaces each field by its argument and keeps each literal |
| Prompt.FieldNameOfUnique | app.py:36-37 | a field's name is its text up to the first `:` or `!`, and that prefix is unique |
| Prompt.ExampleFieldName | app.py:36-37 | the field opened by the `{` on line 36 is named by the quoted key `"id"` with the newline and indentation before it |
| Prompt.FormatAsWrittenRaises | app.py:28-59 | the template as written raises for the arguments `role`, `city` and `radius` |
| Prompt.FormatParameters | app.py:29-32 | the labelled parameters followed by fixed text format to the displayed values at their places, then that text |
| Prompt.FormatCorrected | app.py:28-59 | the corrected template formats the three arguments into the rendered prompt ending in the rules |
| Handler.EffectiveBody | app.py:71 | an unreadable body and every falsy JSON value become `{}`; a truthy body is used as it is |
| Handler.ReadQuery | app.py:71-74 | missing `role`, `city`, `radius` default to `Elektriker EFZ`, `Basel`, `20`, and present ones are taken verbatim; an unreadable or falsy body gives all defaults; only a truthy non-object body fails |
| Handler.UserPrompt | app.py:83 | formatting succeeds exactly when the template names no field other than `role`, `city` and `radius`; the template as written always raises; the corrected one renders a string role and city verbatim and a numeric radius as its digits |
| Handler.AnswerReply | app.py:102-127 | status 200 iff sanitising succeeds, with one cleaned object per input element; otherwise 502 with exactly `error` and `raw`, `raw` being the stripped reply, and no partial array |
| Handler.AsArray | app.py:121 | `jsonify(cleaned)` is an array with one object per cleaned posting, in order |
| Handler.Handle | app.py:69-127 | for a given template: the upstream model is asked exactly when the body is usable, a key is set and `format` succeeds; a `format` failure gives the 500 page without a call; no key gives 500 with `error` and `hint`; an upstream exception or missing content gives 500 with `error` and `details`; a reply is answered from its stripped text; only 200, 500 and 502 occur |
| Handler.ApiSearchAsWritten | app.py:69-83 | as written, no request reaches the upstream model and every answer has status 500: the key error when the body is usable and no key is set, the framework's error page otherwise |
| Handler.TemplateBraces | app.py:28-83 | on an empty body with a key, the code as written answers the 500 page without an upstream call, while the corrected code asks upstream |
| Handler.ApiSearch | app.py:69-127 | with the template's example braces escaped (Findings): the upstream model is asked exactly when the body is usable and a key is set, with the fixed model, temperature, system prompt and the query's rendered prompt; only 200, 500 and 502 occur |
| Handler.SuccessIsCleanedReply | app.py:77-121 | in the corrected endpoint, a 200 answer implies a key, one upstream call and a reply decoding to an array, answered with as many postings, each with a description of at most 300 characters |
| Handler.ErrorsCarryNoPostings | app.py:77-127 | in the corrected endpoint, every non-200 answer is an error object with an `error` field or the framework's error page, never an array |
| Handler.DefaultPrompt | app.py:71-83 | in the corrected endpoint, with an unreadable or empty body and a key, the prompt sent upstream asks for `Elektriker EFZ`, `Basel` and `20`; as written, line 83 raises instead (Handler.TemplateBraces) |
| Handler.DefaultUserPrompt | app.py:72-83 | the corrected template formats the default query, with radius `20` printed as the digits `20`, into the prompt naming `Elektriker EFZ`, `Basel` and `20` at their places |
| Handler.ReplyDecides | app.py:95-127 | in the corrected endpoint, with a usable body and a key, the stripped reply text alone decides the answer |
| Handler.LongPostingCleaned | app.py:109-117 | a posting with no id and a 305-letter description is cleaned at position 1 to id `web_1`, a 300-character description and its title unchanged |
| Handler.LongDescriptionAnswer | app.py:103-121 | a one-element array whose element has no id and a stripped description over 300 characters is answered 200 with id `web_1` and a description of exactly 300 characters |
| Handler.LongDescriptionExample | app.py:71-121 | example request against the corrected endpoint: an empty body, a key, and a reply holding one posting without an id and with a long description are answered 200 with id `web_1` and a 300-character description |
| Handler.NotJsonExample | app.py:103-127 | example request against the corrected endpoint: an empty body, a key and the reply `not json` are answered 502 with `{"error": ..., "raw": "not json"}` |

## Left out

- `GET /` (app.py:61-67), Flask routing, and `app.run` (app.py:129-131): these are web plumbing with no logic.
- The OpenAI client call (app.py:86-95) is a foreign network call. Its outcome is an input, and the request it would send is recorded in the response.
- Reading `OPENAI_API_KEY` from the environment (app.py:18): the key is a parameter.
- `json.loads` (app.py:104) and Flask's `get_json` (app.py:71) are JSON decoders this code does not own. Their results, or their failure, are inputs.
- Prompt.Display: Python's `repr` of a list or dict used as a prompt parameter is a supplied function. Quoting and escaping are not modelled.
- JSON numbers are integers. Floats, such as a radius of `20.5` or a description of `0.0`, are not modelled.
- Object key order is not modelled. Objects are maps, and Flask's `jsonify` serialises with sorted keys.
- Sanitizer.CleanJob: every element that is not a JSON object is an error. Python's `dict(job)` also accepts a list of key/value pairs or an empty string. Such replies are not the array of postings the prompt asks for.
- The shallow copy in `dict(job)` lets line 119 also change the input's nested location dict. That input is discarded, so the aliasing is not observable.
- Python strings may hold lone surrogate code points. Dafny characters are Unicode scalar values, so such strings are not modelled.
- The parsing of `USER_TEMPLATE` into literal text and fields is written out by hand in `Prompt.UserTemplateAsWritten`; only the name extraction of the stray field is derived (`Prompt.FieldNameOf`). Its format specification, the text from the `:` on line 37 to the `}` on line 52, is not represented: Python looks up the field name first, and that lookup already fails.
- Prompt.FieldNameOf: Python's field-name scan also skips over `[...]` and rejects `{`; neither occurs before the first `:` of the stray field, so only `:` and `!` end the name here.
- Prompt.Format: the `KeyError` is an unhandled exception, so only its occurrence is modelled, not its message; conversions and format specifications are not modelled, since the corrected template has none.

## Findings

| source | as written | input that shows it | evidently intended | confidence | as-written member | corrected member |
|---|---|---|---|---|---|---|
| app.py:83 | `USER_TEMPLATE` (app.py:28-59) has single braces around its example posting, so `format` reads a field named `"id"` (with its newline and indentation), raises `KeyError` outside the `try`, and Flask answers its 500 page without asking upstream | body `{}`, key `k`, any upstream outcome | the example's braces doubled, so they are literal text and the prompt is sent upstream | high; not executed | Handler.ApiSearchAsWritten, Handler.TemplateBraces | Handler.ApiSearch |
