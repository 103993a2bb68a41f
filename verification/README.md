# AI-Dietician recommendation handler, modelled in Dafny

This project models the request logic of the AI-Dietician Flask application.
The application has one substantive route, `POST /recommend`, and the model
follows it step by step:

- It reads nine form fields with their defaults. `region` defaults to
  `Unknown Region`; every other field defaults to the empty string.
- It rejects a submission when any of age, gender, weight, height,
  veg_or_nonveg or region is empty.
- It builds a fixed-layout prompt. An empty disease or allergics shows as
  `None`, and an empty foodtype shows as `Any`.
- It sends the prompt to a hosted text-generation model through
  `query_huggingface`. That function tries three times and pauses five seconds
  after each failure.
- It inspects the decoded JSON reply:
  - an `error` member becomes an upstream-error page;
  - a malformed reply ends in the catch-all's internal-error page;
  - otherwise the handler takes the generated text.
- It cuts four sections (Restaurants, Breakfast, Dinner, Workouts) out of that
  text with a case-insensitive regular expression. Each section keeps at most
  6, 6, 5 and 6 entries.

## Modules

- `Wrappers` (wrappers.dfy): `Option`.
- `Json` (json.dfy): decoded JSON values.
- `Text` (text.dfy): the Python string operations the handler uses:
  - `str.isspace`, the ASCII reading of `\w` and of case-insensitive matching;
  - `strip()`, `split('\n')`, slicing;
  - decimal rendering of an integer.
- `Extractor` (extractor.dfy): `extract_list` and the truncation before
  rendering.
  - The regular expression `Label:\n(.*?)\n(?:\w+:|$)`, searched with `DOTALL`
    and `IGNORECASE`, is modelled as an explicit scan: first the header, then
    the first terminator after it.
  - The scan is proved equal to the declarative meaning of `re.search`:
    leftmost start, then the shortest lazy group.
- `Form` (form.dfy): field defaults, validation, and the prompt. The prompt
  also has a line-by-line reference description.
- `Inference` (inference.dfy): the retry loop.
  - The network is a function parameter: `upstream(payload, k)` is what
    attempt `k` yields, a decoded body or a failure.
  - A pause is recorded as its length in seconds.
- `Handler` (handler.dfy): reply inspection (`Dispatch`) and the whole
  exchange (`Handle`).
  - Each Python exception the inspection can raise is a `Fault`.
  - A `Fault` turns into the internal-error page.
- `Scenarios` (scenarios.dfy): worked examples on concrete replies.

## Model

| member | source | states |
|---|---|---|
| Form.ReadFields | app.py:40-48 | each of the nine keys fills its own field: with the submitted value when the key is present, and otherwise with the key's default, `Unknown Region` for region and empty for the rest |
| Form.ReadFieldsRoundTrip | app.py:40-48 | reading a submission built from a set of fields gives back exactly those fields, so no two fields share a key |
| Form.OtherKeysIgnored | app.py:40-48 | adding or changing a key outside the nine leaves the fields unchanged |
| Form.Validate | app.py:40-51 | an accepted submission carries exactly the fields read with their defaults, and all six required fields are non-empty |
| Form.RejectedExactly | app.py:40-51 | a submission is rejected if and only if age, gender, weight, height or veg_or_nonveg is absent or empty, or region is present but empty |
| Form.AbsentRegionDefaults | app.py:46 | an accepted submission without a region key has the region `Unknown Region` |
| Form.FormatBlockLines | app.py:57-61 | the prompt's format block is `Format:` followed by the four headers in page order, each followed by its numbered `k. ...` placeholder lines, joined by line breaks |
| Form.FormatLayout | app.py:57-61 | the format block has 28 lines; the headers sit at lines 1, 8, 15 and 21, and each is followed by exactly 6, 6, 5 and 6 placeholders numbered from 1 |
| Form.PromptJoin | app.py:53-62 | the prompt that `BuildPrompt` builds is the instruction, the nine data lines, a blank line and the format block, joined by line breaks |
| Form.PromptSplitsIntoLines | app.py:53-62 | when no submitted value holds a line break, splitting the prompt at line breaks gives back exactly those reference lines |
| Form.PromptLayout | app.py:53-62 | such a prompt has 39 lines: the instruction, the data lines, an empty line at index 10, then the format block |
| Form.EmptyOptionalsShowDefaults | app.py:56 | `s or default` at work: for every submission with empty disease, allergics and foodtype, the prompt is its reference lines joined, and those lines read `Disease: None`, `Allergics: None` and `Foodtype: Any` |
| Inference.Retry | app.py:19-28 | the loop pauses `delay` seconds after each failed attempt and stops at the first delivered body, after all earlier attempts failed; when all attempts fail it pauses after every one and returns the `error` body |
| Inference.FirstDeliveryWins | app.py:20-24 | when attempt `k` is the first to deliver, the result is its body after `k + 1` requests and `k` pauses |
| Inference.AllFailuresGiveUp | app.py:25-28 | when every attempt fails, the result is `{"error": "Failed after N attempts."}` after N requests and N pauses |
| Inference.LaterAttemptsUnseen | app.py:20-24 | two networks that agree on the attempts the loop actually makes give the same result: no attempt after the delivering one is consulted |
| Inference.FailFailSucceed | app.py:19-28 | with the defaults, two failures and then a delivery give that body after three requests and two five-second pauses |
| Inference.ThreeFailures | app.py:19-28 | with the defaults, three failures give `{"error": "Failed after 3 attempts."}` after three requests and three five-second pauses |
| Handler.Dispatch | app.py:64-68 | the reply never yields the missing-fields page; it yields an upstream error if and only if it is a dict with an `error` key, and then it reports that key's value; a rendered page carries the read region. Handler.RenderedExactly and Handler.OtherwiseInternalError cover the other outcomes |
| Handler.RenderedExactly | app.py:64-83 | the handler renders a result if and only if the reply carries a text, and it renders that text's extraction |
| Handler.OtherwiseInternalError | app.py:64-68 | every other reply ends on the internal-error page: scalars, strings, empty lists, lists with an `"error"` element or a non-dict first element, and non-string texts |
| Handler.ListAndDictAgree | app.py:68 | a one-element list holding a dict without `error` is handled exactly like the dict |
| Handler.ErrorInsideListUnseen | app.py:65-68 | an `error` key inside a list element is not noticed, so the reply renders as an empty text |
| Handler.EmptyTextRendersNothing | app.py:68-83 | an empty or absent generated text renders four empty sections |
| Handler.Handle | app.py:35-87 | the page is the missing-fields reply if and only if validation fails, and then nothing is sent; otherwise the payload is `{"inputs": prompt}` for the read fields, one to three requests are made, and a rendered page echoes the read region |
| Handler.UpstreamDown | app.py:19-28 | with the network down, the handler makes three requests and three pauses, then answers with the upstream error `Failed after 3 attempts.` |
| Handler.FirstReplyRendered | app.py:64-83 | a reply delivered on the first attempt is rendered for the read region, with no pause |
| Extractor.HasWordColon | app.py:72 | the scanning test for `\w+:` at a position agrees with its declarative meaning: a run of word characters, then a colon |
| Extractor.FindHeader | app.py:72-73 | the header search finds a caseless `Label:\n` and nothing before it |
| Extractor.FindTerminator | app.py:72-73 | the terminator search finds a line break followed by `\w+:` or by the end, and no such position before it |
| Extractor.CaptureIsSearchResult | app.py:72-74 | the scan captures a group if and only if the pattern matches somewhere, and then it captures the group of the leftmost match with the shortest lazy group |
| Extractor.CaptureBetween | app.py:72-74 | with the first header at `i` and the first terminator after it at `j`, the capture is exactly the text between them |
| Extractor.MissingHeaderGivesNothing | app.py:74 | a text with no header for the section gives an empty list |
| Extractor.UnterminatedSectionGivesNothing | app.py:72-74 | after the header, when no line starts with a `word:` token and the text does not end in a line break, the section is empty however many lines follow |
| Extractor.ExtractList | app.py:71-74 | no match gives an empty list; a match gives at most one entry per line of the captured group. Extractor.CaptureIsSearchResult says which group is captured |
| Extractor.ExtractListEntries | app.py:74 | on a match, every entry is the cleaned text of a non-blank line of the group, and every non-blank line has its cleaned text among the entries |
| Extractor.CleanItem | app.py:74 | `item.strip()[3:].strip()` is empty, not an error, when the stripped line has at most three characters, and otherwise neither starts nor ends with whitespace |
| Extractor.CleanItemIsPiece | app.py:74 | a non-empty cleaned entry is a piece of the line that starts after the leading whitespace and the three-character prefix |
| Extractor.ItemsAppend | app.py:74 | the items of two runs of lines are the items of each in order: nothing is reordered or merged |
| Extractor.ItemsOfLine | app.py:74 | one line gives no entry when it is blank and exactly one entry, its cleaned text, otherwise |
| Extractor.EnumeratedLineGivesItem | app.py:74 | a line opened by a three-character prefix such as `1. ` gives the rest of the line, stripped |
| Extractor.Render | app.py:76-83 | each rendered list is a prefix of the section's extracted list, at most 6, 6, 5 and 6 long, and equal to it when shorter than that; the region is passed through |
| Text.Strip | app.py:74 | `strip()` gives the slice of the string left once the whitespace at both ends is removed; it is empty exactly when the string is all whitespace |
| Text.StripIsUnique | app.py:74 | any slice with only whitespace around it and none at its ends is the stripped string |
| Text.Split | app.py:74 | `split('\n')` gives at least one part, no part holds a line break, and joining the parts gives back the string |
| Text.SplitJoin | app.py:74 | splitting undoes joining whenever no part holds the separator |
| Text.Drop | app.py:74 | `s[3:]` is empty for short strings and otherwise the string from position 3 |
| Text.Take | app.py:78-81 | `s[:n]` has length `min(n, len(s))` and is a prefix of `s` |
| Text.Contains | app.py:65 | `"error" in s` for a string holds exactly when `error` occurs in it at some position |
| Text.DecimalRoundTrip | app.py:28 | the decimal rendering of the retry count reads back as that count |
| Scenarios.RestaurantsOfReply | app.py:71-74 | for `Restaurants:\n1. A\n2. B\nBreakfast:\n1. C\n`, the restaurants are `A` and `B` |
| Scenarios.BreakfastOfReply | app.py:71-74 | for the same reply, the breakfast is `C`: the final line break closes the last section |
| Scenarios.DinnerOfReply | app.py:71-74 | the same reply has no dinner |
| Scenarios.WorkoutsOfReply | app.py:71-74 | the same reply has no workouts |
| Scenarios.RenderedReply | app.py:76-83 | the same reply reaches the result page as `[A, B]`, `[C]`, `[]`, `[]` with the region |
| Scenarios.LastSectionNeedsLineBreak | app.py:72-74 | `Workouts:\n1. X` gives no workouts, because the last line has no line break after it |
| Scenarios.LastSectionWithLineBreak | app.py:72-74 | `Workouts:\n1. X\n` gives the workout `X` |

## Left out

- The Flask machinery is not modelled: routing, `request.form`, `render_template`
  and the HTML templates, the index route and `app.run`. A form is a map from
  field name to text, and a rendered page is the value handed to the template.
- Network I/O is not modelled: the URL, the bearer token, `requests.post`, the
  30-second timeout and `raise_for_status`. The network is the `upstream`
  parameter, whose failures stand for every `RequestException`.
- The model assumes requests 2.27 or later. There, a body that does not decode
  as JSON raises `JSONDecodeError`, a subclass of `RequestException`, so it is a
  failed attempt like any other. With older versions that error is a plain
  `ValueError`: it leaves the loop after one attempt with no pause and ends on
  the internal-error page. The model does not cover that case.
- Each `time.sleep(delay)` is recorded as a pause length; time does not pass.
- Logging is not modelled.
- The exact wording of the error pages is not modelled. The model keeps the
  upstream `error` value and the kind of exception, not Python's `str()` of
  them or the exception messages.
- Exceptions from code that is not part of this model are not modelled: a reply
  that is a dict or list but is not a JSON-shaped value, and a memory failure
  inside `re`.
- A reply that is a list with an `"error"` string element passes the
  membership test, and indexing the list with a string then raises a TypeError.
  This path is modelled, but only as the exception kind.
- `\w` and `IGNORECASE` are read over ASCII letters, digits and
  `_`. Python's Unicode word characters and Unicode case folding are not
  modelled, so a header or `word:` token with non-ASCII letters can match in
  Python but not in the model.
- JSON numbers are integers; floats are not modelled.
- Form.PromptSplitsIntoLines: stated only for submissions whose values hold no
  line break. Values with embedded line breaks are still built into the prompt
  exactly as the source does, but then the prompt has more lines.
