# Khmer summarisation: model registry and dispatch

This project models the core of a small Flask service that summarises Khmer
text with two pretrained sequence-to-sequence models. The Dafny model covers:

- the `MODELS` registry with lazy, memoised `load_model`;
- `summarize_text`, with its family- and variant-specific decoding
  parameters and its string post-processing;
- the `/summarize` fan-out over the selected model keys;
- the `/get_models` projection;
- the validation and error shell of `/spellcheck`.

Two entry points implement this core. `app.py` is the legacy variant and
`app_new.py` the refined one. `Variant.Legacy` is app.py and
`Variant.Refined` is app_new.py. The registry, `/summarize` and `/get_models`
are shared. Within them the variants differ only in
`Summarizer.DecodeParams` and in whether `Summarizer.Finish` cuts the decoded
text after its last KHMER SIGN KHAN `។` (U+17D4). Only app_new.py has a
`/spellcheck` route; `Routes.HandleSpellCheck` models that one.

Modules:

- `Wrappers`: `Option` and `Result`. `Result.Err` carries the `str(e)` of an
  exception.
- `PyText`: Python's `str.isspace` (the full Unicode whitespace set),
  `strip()` and `rfind`.
- `Registry`: the `MODELS` table as an immutable `map<string, Spec>` (type `Table`). Each
  entry has an `instance: Option<Instance>` slot. The model and tokenizer
  slots are assigned together, in adjacent statements, after a successful
  construction, so one optional pair models both. `Load` is `load_model`.
  Construction is an oracle `LoadPlan -> Result<Instance, string>`. The
  `LoadPlan` records what is built from what: the repo, the Khmer language
  tags, the mBART base checkpoint and the cache directory.
- `Summarizer`: `SummarizeText` is `summarize_text`. Tokenising, generating
  and decoding form one oracle, `(Instance, string, GenParams) -> Result<string, string>`.
  `GenParams` records the decoding arguments.
- `Routes`: `HandleSummarize`, `FanOut`, `GetModels` and `HandleSpellCheck`.
  `correct_paragraph` is an opaque oracle `string -> Result<T, string>`.

Registry state is threaded explicitly. Every operation returns the registry
it leaves behind. `Registry.Evolves` relates a registry to every state it can
reach: the same keys and identities, and slots that only go from `None` to
`Some`.

Separate calls of `load_model` may each be given their own construction
oracle, so a load that failed can succeed when it is called again. Within one
`/summarize` request a single oracle serves every key (see "## Left out").

Behaviour of the code that the model keeps:

- An unknown key in `load_model` raises Python's `KeyError`, and
  `summarize_text` turns it into `"កំហុស៖ 'key'"`. The routes never call it
  with an unknown key.
- app.py decodes every family with 4 beams and 300 new tokens.
- `/spellcheck` calls `correct_paragraph` on the stripped text. It returns
  200 with `{input, corrected_text}` or 500 with `{error: str(e)}`. The
  response is serialised inside the same `try`, so a result that cannot be
  serialised also gives the 500; the corrector oracle's `Err` covers that
  case. `correct_paragraph` is not part of this model.
- When a key is selected twice, `summarize_text` runs twice and the later
  summary is kept. In the model both runs give the same summary, because one
  construction oracle and one generation oracle serve the whole request. The
  second run either reuses the stored load or repeats the same load failure,
  and generation on the same pair, text and parameters gives the same text or
  the same failure. See "## Left out" for what this excludes.

## Model

| member | source | states |
|---|---|---|
| PyText.Strip | app_new.py:113 | `strip()` returns the window of the input cut only through whitespace; it has no whitespace at either end and is empty exactly when the input is all whitespace |
| PyText.StripIsTheTightWindow | app_new.py:152 | the stripped text is the unique window of the input with whitespace-only margins and non-whitespace ends |
| PyText.StripIdempotent | app_new.py:204 | stripping twice equals stripping once, so the route's strip followed by `summarize_text`'s own blank check agree |
| PyText.StripKeepsLastNonSpace | app_new.py:148-152 | a text ending in a non-whitespace character keeps it as its last character after `strip()` |
| PyText.RFind | app_new.py:148 | `rfind` gives the index of the last occurrence, with no occurrence after it, and reports absence exactly when the character does not occur |
| Registry.FamilyOf | app_new.py:71-97 | the `type` tag "mbart" is the mBART family and "mt5" the mT5 family; every other tag is an unknown family |
| Registry.PlanFor | app_new.py:71-97 | mBART builds a tokenizer with km_KH tags and the repo's LoRA adapter on the facebook/mbart-large-50 base; mT5 builds both from the repo; any other family has no plan; everything uses ./cache |
| Registry.Load | app_new.py:63-108 | a filled slot is returned without construction; for an empty slot of a known family, a successful construction is returned and stored, and a failed one surfaces as its own `str(e)`; an unknown key or an unknown family raises; every failure leaves the whole registry unchanged; no other key, name, repo or family ever changes |
| Registry.LoadIsMemoised | app_new.py:67-108 | after a successful load, every later load of that key returns the same pair and changes nothing, whatever construction would now do |
| Registry.LoadRetriesAfterFailure | app_new.py:96-106 | a failed load leaves the slot empty, so a later call with a construction that succeeds fills it |
| Registry.LoadSettles | app_new.py:67-108 | loading a key again from the state its load left leaves that key's entry as it is: a stored pair is reused, a failure leaves the entry untouched |
| Registry.LoadDependsOnlyOnOwnEntry | app_new.py:63-108 | `load_model(key)` reads and writes only `MODELS[key]`: registries that agree on that entry give the same pair and leave the same entry |
| Registry.ModelsFamiliesAreKnown | app.py:21-36 | every registry state reachable from the shipped table has exactly the keys model1 and model2, and no load from it fails with "Unknown model type" |
| Summarizer.DecodeParams | app_new.py:121-143 | app_new.py: 4 beams for mBART, 5 for every other family, 125 new tokens; app.py: 4 beams, 300 new tokens; both truncate input at 1024 tokens, stop early and skip special tokens |
| Summarizer.LegacyParamsIgnoreFamily | app.py:106-112 | app.py decodes every family with the same parameters |
| Summarizer.TrimAfterLastKhan | app_new.py:147-150 | with a `។` in the text, it keeps a prefix that ends in `។` and has no `។` after it; without one, the text passes through unchanged |
| Summarizer.TrimKeepsLongestKhanPrefix | app_new.py:148-150 | the kept prefix is the longest prefix ending in `។` |
| Summarizer.TrimIdempotent | app_new.py:148-150 | after trimming, no character follows the last `។`, and trimming again changes nothing |
| Summarizer.Finish | app_new.py:147-152 | the post-processed summary, in both variants, is never empty and has no surrounding whitespace |
| Summarizer.FinishOfBlankIsPlaceholder | app.py:116 | a whitespace-only decoded text yields the placeholder "មិនអាចសង្ខេបបានទេ។" in both variants |
| Summarizer.FinishWithoutKhanIsStrip | app.py:115-116 | in app.py, and in app_new.py when there is no `។`, a non-blank decoded text comes back stripped and otherwise unchanged |
| Summarizer.FinishWithKhanEndsAtLastKhan | app_new.py:146-152 | in app_new.py, with a `។` present, the summary ends in the last `។`; it is the prefix up to that `។` with only leading whitespace removed |
| Summarizer.FinishIdempotent | app_new.py:145-152 | post-processing a finished summary again leaves it unchanged, in both variants |
| Summarizer.SummarizeText | app_new.py:111-156 | blank input returns "" and leaves the registry untouched with no load; otherwise the result is never empty, because every path returns an error text, a finished summary or the placeholder; the registry only evolves, and other keys' entries never change |
| Summarizer.SummarizeTextOutcome | app.py:93-120 | for non-blank text the registry afterwards is the load's; a load failure gives "កំហុស៖ " + str(e) with the registry unchanged; once loaded, generation gets the text and the variant's parameters for the entry's family; a decoded text is post-processed, a generation failure becomes "កំហុស៖ " + str(e) |
| Summarizer.SummarizeTextRepeatable | app_new.py:116-117 | a second identical call from the state the first one left returns the same summary and changes nothing more |
| Summarizer.SummaryDependsOnlyOnOwnEntry | app_new.py:116-156 | a key's summary depends only on that key's own registry entry |
| Summarizer.SummarizeFromSettledEntry | app_new.py:113-156 | summarising a key whose entry is its starting one, or the one its own load left, gives the summary from the start and leaves the entry that load leaves |
| Routes.FanOut | app_new.py:210-216 | the results have exactly the selected keys present in the registry, each named from the registry with a non-empty summary; unknown keys are skipped; the registry only evolves |
| Routes.FanOutLeavesUnselected | app_new.py:211-215 | the loop loads only selected keys: every other entry of the registry is left as it was |
| Routes.FanOutIsIndependent | app.py:148-154 | every selected known key, however often selected, gets the summary that summarising with that key alone from the starting registry gives, whatever the other keys' loads and generations did |
| Routes.FanOutKeepsLoads | app_new.py:211-215 | after the loop, every selected known key holds the entry its own `load_model` leaves, so a successful load stays in `MODELS` for later requests |
| Routes.HandleSummarize | app_new.py:201-218 | the stripped text is checked first; blank text is a 400 with the "សូមបញ្ចូលអត្ថបទសិន។" message and an unchanged registry; otherwise a 200 with one entry per distinct known selected key, default ["model1"]; each entry's summary is `summarize_text` of the stripped text from the starting registry; each selected known key keeps what its own load left, and other entries are untouched |
| Routes.GetModels | app_new.py:220-222 | exactly the registry's keys, each with its display name only |
| Routes.GetModelsIgnoresLoading | app.py:158-163 | no sequence of loads changes what /get_models returns |
| Routes.GetModelsOfModels | app.py:161-163 | /get_models on the shipped table returns model1 and model2 with their two display names |
| Routes.HandleSpellCheck | app_new.py:174-187 | blank text is a 400 and the corrector is not consulted; otherwise the corrector sees the stripped, non-empty text; its result is a 200 echoing that text and its failure a 500 carrying str(e) |
| Routes.EmptyTextIsRefused | app.py:139-146 | text "" with models ["model1"] gives the 400 response and the registry is unchanged |
| Routes.UnknownKeysAreSkipped | app.py:149-150 | models ["model1", "bogus"] give a single entry, for model1 |
| Routes.MissingModelsMeansModel1 | app.py:143 | a request without a models field is served by model1 alone |

## Left out

- Construction internals are not modelled: tokenizer and weight loading, LoRA composition, `.to(device)` and `eval()`. They are one construction oracle because they are foreign numeric library calls. Only the arguments they receive are recorded.
- Tokenisation, `generate` (beam search) and `decode` are not modelled. They are one generation oracle. Truncation to 1024 tokens happens inside it and is recorded only as a parameter.
- Device selection, `load_dotenv`, the `sys.path` edits, `warnings.filterwarnings` and every `print` are left out. They are environment and I/O.
- The template routes (`/`, `/features`, `/summarizer`, `/spellchecker`, `/how_to_use`, `/about`, `/contact`) and `app.run` are left out. They are HTTP and UI glue.
- `correct_paragraph` is not part of this model. Its source is not available, so its result type is a type parameter.
- Concurrent first loads of the same key are not modelled. The registry is single-threaded state passing, so the race between two loads cannot arise in the model.
- `static/index.js` and `static/spellchecker.js` are left out. They are browser DOM and fetch code.
- Malformed request bodies are not modelled: a body that is not a JSON object, a non-string `text`, or a `models` value that is not a list of strings. In the source these raise inside Flask or iterate unexpectedly. The model takes `text` as an optional string and `models` as an optional list of strings.
- Routes.FanOut: one construction oracle and one generation oracle serve every key of a request, so within a request both loading and generation are treated as deterministic, failures included. If `model1` is selected twice and its first load or its first `generate` fails for a passing reason, such as running out of memory, the model does not let the second pass succeed. The source would call `load_model` and `model.generate` afresh and keep the later result. Separate requests may use different oracles.
- Routes.FanOutIsIndependent: for a key selected more than once, the stand-alone summary rests on the two shared oracles of the `Routes.FanOut` line above. The source promises only the later run's result, which a transient failure could make differ from the first.
- The order of keys in the JSON objects is not modelled. Results are Dafny maps.
- Registry.LoadError.Message: renders `str(KeyError(key))` as the key in single quotes. It does not follow Python's `repr` rules for keys that contain quotes, backslashes or unprintable characters.
