# Gemini NanoBananaPro thumbnail batch: a Dafny model

The system is a single Streamlit script (`app.py`). It asks a text model to
draft image prompts for a topic, renders each prompt with an image model, and
zips the successful renders for download. This project models the parts of
the script that decide things:

- **Prompt selection** (`Prompts`, `generate_prompts_gemini`). Given the
  parsed reply, it returns a list reply sliced to `count`. For a dict reply it
  returns the first value sliced to `count`, and that value may be a string.
  Any other reply, an empty dict, an unsliceable first value, or an exception
  from the request, `response.text` or `json.loads` gives `[]`. Python's `s[:count]` is modelled for every integer `count`,
  negative ones included.
- **Rendering** (`Render`, `generate_image_imagen`). A prompt that is not a
  string fails on the string concatenation. An API error or an empty image
  list gives `None`. Otherwise the result is the first image's bytes.
- **Batch aggregation** (`Batch`). Every prompt is submitted. The loop then
  consumes the outcomes in completion order, which is an arbitrary
  permutation of the submitted renders. It counts every completion, keeps
  only truthy bytes and writes a progress report `(completed, BATCH_SIZE)`
  after each completion.
- **Archive naming** (`Archive`). Entry `i` of the archive holds the i-th
  collected image under the name `gemini_thumb_{i+1:03d}.jpg`.
- **Gating and the whole rerun** (`App`). This picks the branch from the key,
  the topic and the two buttons. `Run` then traces what is requested and
  what is drawn.

The external services are inputs (`App.Env`): the drafter's parsed reply
(`None` when the call or `json.loads` raised), the image API's reply to each
render request, and the completion order of the thread pool.

Behaviour worth noting:

- When the drafter returns nothing in batch mode, the script (line 126, no
  `else`) reports nothing. Only the "drafting" status line stays on screen
  (`Screen.BatchStalled`).
- Prompts are not checked to be strings. A dict whose first value is a
  string yields that string, and the batch then submits one prompt per
  character (`Prompts.StringValueSplitsIntoCharacters`).
- The progress total is the constant `BATCH_SIZE` (30), not the number of
  prompts. If the drafter returns fewer prompts, the last report shows fewer
  than 30 of 30 (the short-batch clause of `App.Run`'s batch ensures).

## Model

| member | source | states |
|---|---|---|
| `Prompts.SliceLength` | app.py:77 | the length of Python's `s[:stop]`: `min(stop, n)` for a non-negative stop, and `n` minus `min(-stop, n)` for a negative one |
| `Prompts.SliceTo` | app.py:77 | `s[:stop]` is a prefix of `s` with the length Python gives it |
| `Prompts.SliceFirstValue` | app.py:78 | a first dict value that is a list or a string is cut to a prefix of the sliced length; any other value gives `[]` |
| `Prompts.DraftPrompts` | app.py:74-80 | an exception, a reply that is neither list nor dict, or an empty dict gives `[]`; a list reply gives its first `min(count, len)` elements in order; a non-empty dict gives its first value sliced; never more than `count` prompts |
| `Prompts.DraftNonEmptyIff` | app.py:76-80 | the result is non-empty exactly when `count > 0` and the reply is a non-empty list, or a dict whose first value is a non-empty list or string |
| `Prompts.StringValueSplitsIntoCharacters` | app.py:78 | a dict `{"prompts": "ab"}` yields the two prompts `"a"` and `"b"` |
| `Render.RenderImage` | app.py:82-92 | never raises; yields an image exactly when the prompt is a string and the API answered with at least one image, and then the image is the first one |
| `Batch.Successes` | app.py:134-138 | the images kept from the completions: never more than the completions, each one non-empty |
| `Batch.Completions` | app.py:134 | the loop sees one outcome per entry of the completion order |
| `Batch.Aggregate` | app.py:134-142 | after the loop `completed_count` equals the number of completions; `images_data` is exactly the truthy results in completion order; report k is `(k+1, BATCH_SIZE)` |
| `Batch.RunBatch` | app.py:128-142 | every submitted prompt is counted, whatever its outcome; the collected images are the truthy outcomes in completion order, and as a multiset they are independent of that order; one report per completion, strictly increasing |
| `Batch.SuccessesAppend` | app.py:134-138 | keeping truthy results distributes over concatenation, so order is preserved |
| `Batch.SuccessesMembers` | app.py:134-138 | an image is collected iff some completion carried it as non-empty bytes |
| `Batch.SuccessesEmptyIff` | app.py:134-138 | nothing is collected iff no completion is truthy |
| `Batch.SuccessesAllIff` | app.py:134-138 | everything is collected iff every completion is truthy |
| `Batch.SuccessesCount` | app.py:134-138 | for any mix of outcomes, the number of collected images is the number of completions minus the failed ones (None, empty bytes, exceptions): 3 failures among 30 leave 27 images |
| `Batch.SuccessesReorder` | app.py:134-138 | reordering the completions only reorders the collected images |
| `Batch.CompletionsAppend` | app.py:134 | the completions of a concatenated order are the concatenated completions |
| `Batch.CompletionsReorder` | app.py:132-134 | two orders listing the same futures yield the same outcomes as a multiset |
| `Batch.CompletionsPermute` | app.py:132-134 | whatever the completion order, the loop sees every submitted outcome exactly once |
| `Archive.DigitChar` | app.py:148 | a decimal digit maps to a digit character |
| `Archive.Digits` | app.py:148 | `str(n)` is a non-empty string of digits, one character exactly for `n < 10` |
| `Archive.PadDecimal` | app.py:148 | `{n:0wd}` is all digits, of length `max(width, len(str(n)))` |
| `Archive.DigitsRoundTrip` | app.py:148 | reading `str(n)` back gives `n` |
| `Archive.LeadingZerosIgnored` | app.py:148 | leading zeros do not change the value read back |
| `Archive.PadRoundTrip` | app.py:148 | reading a zero-padded number back gives the number |
| `Archive.EntryNameParts` | app.py:148 | an entry name is the prefix `gemini_thumb_`, the padded number, then `.jpg` |
| `Archive.EntryNameInjective` | app.py:147-148 | two positions with the same entry name are the same position |
| `Archive.EntryNameExamples` | app.py:148 | the entries 1, 27 and 1000 are named `gemini_thumb_001.jpg`, `gemini_thumb_027.jpg` and `gemini_thumb_1000.jpg` |
| `Archive.BuildArchive` | app.py:144-148 | one entry per image, in order; entry i holds image i under `gemini_thumb_{i+1:03d}.jpg`; all names distinct |
| `App.SelectMode` | app.py:95-160 | test mode iff key, topic and the test button; batch mode iff key, topic, the batch button and not the test button; the warning iff no key and some button; a key with an empty topic does nothing |
| `App.Run` | app.py:95-160 | no service call unless a processing branch runs; test mode drafts 1 prompt and renders only `prompts[0]`, or shows the prompt error when there is none; batch mode drafts 30 and submits each prompt once; it reports `(k+1, 30)` after completion k, every reported count lies between 1 and the total so the progress fraction never exceeds 1, and a batch of fewer than 30 prompts never shows 30/30; it shows the error when no image is collected, else an archive with one distinct-named entry per image and a preview of the first four |
| `App.AllRendersFailed` | app.py:144-157 | when every image request raises, nothing is collected: the error screen, no archive |
| `App.NonStringPromptsYieldNothing` | app.py:87 | a batch of non-string prompts collects no image |

## Left out

- Streamlit layout, CSS, widgets, spinners, the progress bar, image display
  and the download button are UI. The model keeps only which screen results
  and the `(completed, total)` pairs of the status line.
- `genai.configure`, `GenerativeModel`, `generate_content` and
  `generate_images` are network calls. Their results are inputs (`App.Env`).
  The prompt wording, the style preset and the safety settings are opaque
  arguments and are not modelled.
- `json.loads` is library parsing. The parsed value, or its failure, is an
  input. A dict's duplicate keys are resolved by the parser and are not
  modelled.
- `ThreadPoolExecutor` and `as_completed` are concurrency. They are replaced
  by an arbitrary completion order over the submitted futures. The pool width
  `MAX_WORKERS` only affects that order.
- `time.sleep(1)` is pacing only. It has no effect on the modelled state.
- The float `completed_count / BATCH_SIZE` is not modelled. Only the integer
  pair of the status text is.
- The zip byte format, compression and `BytesIO` are not modelled. An
  archive is its list of `(name, bytes)` entries.
- An exception from `genai.GenerativeModel(...)` or from building the
  request text (lines 68-73) is raised outside the `try` and escapes
  `generate_prompts_gemini`. The model treats the drafting request as one
  call whose failure gives `None`, so it does not capture such an escaping
  exception.
- A non-integer `count` (which would raise and give `[]`) is not modelled.
  The script only passes 1 and 30.
- A JSON number keeps only its literal text, because the script never
  computes with it.
