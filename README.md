# vision-text-extractor, modelled in Dafny

vision-text-extractor is a command-line tool that extracts text from an
image, given as a local file or a URL, by asking a vision model served by
OpenAI, Ollama or Hugging Face. This project models its decision logic and
proves properties of it:

- **Input side of `main.py`** (`image_source.dfy`, with `url_parse.dfy`
  and `posix_path.dfy`, which model the parts of `urllib.parse` and
  `pathlib` that the tool uses as CPython 3.12 behaves; older versions
  differ, for instance in stripping leading control characters and in the
  scheme rule):
  - `is_url`, written over a model of `urllib.parse.urlsplit`/`urlparse`;
  - `get_image_extension`;
  - `download_image_from_url`, with the network and `mkstemp` as oracles;
  - `validate_image_file` and `cleanup_temp_file`.
- **Providers in `main.py`** (`providers.dfy`): `get_default_model`,
  the backend selection of `get_llm_with_tools`, and the hint chain of
  `handle_processing_error`.
- **The command** (`pipeline.dfy`): `extract_text_from_image` as a method
  whose result is the exit code, the exception text and a trace of the
  steps taken. The `finally` cleanup is part of that trace.
- **Ollama setup** (`ollama_setup.dfy`), from `llm_setup/setup_ollama.py`:
  - `list_ollama_models` and `pull_model`;
  - the availability test and `setup_ollama_with_model`;
  - the fallback loop of `main` over the candidate vision models.
- **OCR acceptance rule** (`ocr_check.dfy`), from
  `tests/test_handwriting_ocr.py`: the whitespace normalisation
  `" ".join(s.split())`, the exact-match / key-phrase rule, and the report
  of missing phrases.
- **Integer conversions**:
  - `rounding.dfy` is Python's `round` on a fraction: nearest integer,
    with ties going to the even one.
  - `temperature.dfy` is `convert_temperature_fahrenheit_to_celsius`.
  - `unit_conversions.dfy` is `convert_length_inches_to_cm`.
- **Shared helpers**: `text.dfy` holds Python's substring `in`, ASCII
  lower-casing and `str(int)`. `wrappers.dfy` holds `Option` and `Result`.

Everything outside the program is a parameter. That covers:

- the HTTP reply, `tempfile.gettempdir()` and the name `mkstemp` picks (`FetchEnv`);
- file existence and the user's answer to "Continue anyway?" (`World`);
- the model runs, i.e. whether they raise, and with what text (`World`);
- the Ollama HTTP probes and `ollama pull` (`OllamaHost`);
- the result of `test_model` (`testOk`);
- the SmolVLM extractor in the test (`Extraction`).

Two behaviours of the code are worth knowing, and the model follows them:

- `is_url` (main.py:153-167) accepts any scheme followed by a non-empty
  netloc, not only http and https.
- `typer.Exit(1)` raised by `validate_image_file` or `get_default_model`
  inside the `try` block is itself an `Exception`. So the `except` clause
  reports it, with the text "1", before exiting with code 1.
  `Providers.ExitHint` states which hint that text then gets.

## Model

| member | source | states |
|---|---|---|
| UrlParse.SplitIgnoresQueryAndFragment | main.py:164 | about `UrlSplit`, the model of `urlsplit`: appending `?` or `#` and anything after it to a text without either leaves the parse's success, scheme, netloc and path unchanged |
| UrlParse.PathIgnoresQueryAndFragment | main.py:195 | about `UrlParsePath`: the path `urlparse` reports ignores query and fragment |
| PosixPath.Suffix | main.py:196 | `Path(...).suffix` of a name (used through `PathSuffix` on the whole path): non-empty exactly when the name's last dot lies strictly inside it (neither first nor last character), and then the final piece of the name from that dot on |
| PosixPath.JoinIsChild | main.py:234-237 | about `Join` and `IsAncestor` (the model of `temp_dir in path.parents`): the file `os.path.join(dir, name)` parses to dir's parts plus the name's parts, so the directory is among its `parents` |
| ImageSource.IsUrlIff | main.py:153-167 | about `IsUrl`: `is_url(s)` holds exactly when the sanitised text reads scheme (letter first, then letters, digits, `+-.`), `:`, `//`, a non-empty authority with balanced brackets, then nothing or `/`, `?`, `#`; an unbalanced bracket (the `ValueError`) gives false |
| ImageSource.NoColonNotUrl | main.py:163-167 | a text without `:` is never a URL |
| ImageSource.LeadingSlashNotUrl | main.py:163-167 | an absolute path, and so also `//host/x`, is never a URL |
| ImageSource.EmptyAuthorityNotUrl | main.py:163-167 | `scheme:///x` (such as `file:///x`) is never a URL |
| ImageSource.GetImageExtension | main.py:170-201 | a content type containing jpeg or jpg gives `.jpg`; failing that png gives `.png`, then gif `.gif`, then webp `.webp` (case-sensitive); otherwise the URL's path decides; every extension returned is in `VALID_IMAGE_EXTENSIONS`, and the only failure is the URL parse error |
| ImageSource.ExtensionOfPath | main.py:195-201 | the lower-cased suffix of the parsed path when it is a valid extension, `.jpg` when it is not, the parse error passed on otherwise |
| ImageSource.ContentTypeDecides | main.py:185-192 | a content type mentioning jpeg/jpg, png, gif or webp decides the result, whatever the URL |
| ImageSource.UrlExtensionTotal | main.py:170-201 | for an input `is_url` accepts, the extension is always found |
| ImageSource.ExtensionIgnoresQueryAndFragment | main.py:195-199 | query and fragment of the URL never change the extension |
| ImageSource.TempFileInTempDir | main.py:234-237 | the file `mkstemp(prefix='ocr_image_')` creates has a non-empty path with the temporary directory among its parents; when the random part and the suffix hold no "/" (as `mkstemp`'s names never do) it is a direct child named `ocr_image_` + random part + suffix |
| ImageSource.DownloadImageFromUrl | main.py:204-255 | the result is `DownloadOutcome(url, env)`; each failure kind gives its message ("HTTP error code: reason", "URL error: reason", "Download failed: ..."); success returns a created file inside the temporary directory; a file whose write failed is discarded again |
| ImageSource.ValidateImageFile | main.py:394-415 | a missing file fails first; an accepted file exists and has a valid lower-cased suffix or the user confirmed; confirmation is asked exactly for an invalid suffix |
| ImageSource.CleanupTempFile | main.py:258-272 | the file is removed only when the path is non-empty, exists and lies under the temporary directory; failures are swallowed |
| Providers.GetDefaultModel | main.py:418-439 | succeeds exactly for the three names compared lower-cased, with the `DEFAULT_MODELS` entry; otherwise exits with code 1 |
| Providers.GetLlmWithTools | main.py:61-92 | each accepted name gets its backend (OpenAI without parallel tool calls, Ollama at temperature 0.7 with the given model, Hugging Face a placeholder); any other name gives the `ValueError` text |
| Providers.SameProvidersAccepted | main.py:78-92 | the supported providers are exactly the keys of `DEFAULT_MODELS`, listed in order by the error message; both lookups accept the same names, and fail with different errors |
| Providers.ProviderCaseInsensitive | main.py:431-434 | a name and its lower-case form behave alike in both lookups |
| Providers.ErrorHintIsFirstApplicable | main.py:442-468 | about `ErrorHint`, the model of `handle_processing_error`: the hint chosen applies, and no applicable hint has higher priority (quota/429, Ollama connection, Hugging Face memory/cuda, Hugging Face, none) |
| Providers.NoHintIff | main.py:454-468 | no hint is printed exactly when none of the four applies |
| Providers.Mentions429IsQuota | main.py:454 | an error text containing 429 gets the quota hint whatever the provider |
| Providers.ExitHint | main.py:462-468 | the text "1" of a validation exit gets the dependency hint with Hugging Face and no hint otherwise |
| Pipeline.KindsOfTrace | main.py:535-571 | steps of the `try`, `except` and `finally` parts stay in their part of the joined trace |
| Pipeline.AcquireImage | main.py:537-544 | a URL is downloaded and never validated: the failure and the temp file are those of `DownloadOutcome`, and success leaves the file in the temporary directory; a local path is validated against the world's file and continues only when accepted, with exit text "1" otherwise |
| Pipeline.RunModel | main.py:546-562 | the failure is `RunFailure` of the provider, model and world; the default model is filled in only when none is given; Hugging Face runs directly and never reaches `get_llm_with_tools`; other providers request a backend and run the agent; success means a model ran with the given image and prompt |
| Pipeline.AcquireSucceedsIff | main.py:537-544 | the input stage succeeds exactly for a complete download (a response, a known extension, `mkstemp` and the write succeed), or for an existing local file with a valid extension or the user's consent |
| Pipeline.RunSucceedsIff | main.py:547-562 | the model stage succeeds exactly when Hugging Face runs to the end, or the provider is OpenAI or Ollama and neither the client nor the agent raises |
| Pipeline.MissingFileFails | main.py:405-408 | a local file that does not exist ends the command with the text of `typer.Exit(1)`, whatever the provider and model |
| Pipeline.TryBlock | main.py:535-562 | the failure is `CommandFailure` (the input stage's, else the model stage's); for a URL `temp_file_path` is the file `DownloadOutcome` names, or empty when the download failed; a local file's recorded verdict is `ValidateImageFile` of the world, and a rejected file stops the block; routing by `is_url`; Hugging Face runs directly and only it, every other provider asks for a tool-calling backend; a model runs only on the downloaded file or on an accepted local file, with the user's prompt; every created temp file is kept as `temp_file_path` or discarded |
| Pipeline.TryStatement | main.py:535-571 | the failure is `CommandFailure` of the input and the world; a missing local file exits 1 without running a model; exit code 1 exactly on failure, after a report with the hint of `handle_processing_error`; without failure a model ran and nothing is reported; after a completed download the file is created, any model runs on it, and its cleanup is the last step, removing it when it still exists; the provider routes the run as in `TryBlock` |
| Pipeline.ExtractTextFromImage | main.py:518-571 | the properties of `TryStatement`, with the routing decided by `is_url(image_input)`: the failure, and so the exit code, is `CommandFailure` of the world; a local file that does not exist exits 1 and no model runs; a downloaded file is the one the model sees and is cleaned up last; Hugging Face alone runs directly |
| OllamaSetup.AllNames | llm_setup/setup_ollama.py:89 | the names of all entries, in order, when every entry has one; nothing otherwise |
| OllamaSetup.ListOllamaModels | llm_setup/setup_ollama.py:83-93 | names in server order on status 200; [] on any other status, an exception or an entry without a name |
| OllamaSetup.PullModel | llm_setup/setup_ollama.py:95-122 | true exactly when `ollama pull` exits with code 0 |
| OllamaSetup.ModelAvailable | llm_setup/setup_ollama.py:142 | available exactly when the name occurs as a substring of some listed name |
| OllamaSetup.ListedIsAvailable | llm_setup/setup_ollama.py:142 | a model listed under its own name is available |
| OllamaSetup.BakllavaCountsAsLlava | llm_setup/setup_ollama.py:142 | a listed `bakllava:7b` makes `llava:7b` count as available |
| OllamaSetup.SetupOllamaWithModel | llm_setup/setup_ollama.py:124-160 | a service that is down and cannot be started fails before any listing; an available model is not pulled and succeeds; otherwise the result is the pull's |
| OllamaSetup.FindWorkingModel | llm_setup/setup_ollama.py:261-294 | candidates are tried in order, tested only after a successful setup; success exactly when some candidate works, the model used is the first that does, and none after it is tried |
| OcrCheck.WordsOfJoin | tests/test_handwriting_ocr.py:136-137 | splitting the space-joined words gives the words back |
| OcrCheck.NormalizeIdempotent | tests/test_handwriting_ocr.py:136-137 | about `Normalize`: normalising twice is normalising once |
| OcrCheck.NormalizeCollapses | tests/test_handwriting_ocr.py:136-137 | the normalised text has no whitespace at either end and every whitespace character in it is one space between two non-space characters |
| OcrCheck.NormalIsFixed | tests/test_handwriting_ocr.py:136-137 | a text of that form is its own normalisation |
| OcrCheck.MissingPhrases | tests/test_handwriting_ocr.py:173 | exactly the phrases not found in the text are reported |
| OcrCheck.MissingIffNotAll | tests/test_handwriting_ocr.py:156-179 | no phrase is missing exactly when all are found |
| OcrCheck.MissingInOrder | tests/test_handwriting_ocr.py:173 | the missing phrases keep the order of the list |
| OcrCheck.TestHandwritingSampleExtraction | tests/test_handwriting_ocr.py:107-185 | a missing image fails before extraction; an exception or an empty text fails; equal normalised texts pass; otherwise pass exactly when every key phrase is in the raw text, reporting the missing ones in order |
| Rounding.RoundHalfEven | additions/additions_2_temperature.py:17 | Python's `round` of `num / den`: no integer is nearer, and a tie gives the even one |
| Rounding.RoundHalfEvenUnique | additions/additions_3_unit_conversions.py:17 | those two properties determine the result |
| Rounding.RoundHalfEvenMonotone | additions/additions_3_unit_conversions.py:17 | rounding preserves order |
| Temperature.FahrenheitToCelsius | additions/additions_2_temperature.py:17 | the result is within half a degree of 5(f - 32)/9 |
| Temperature.FahrenheitNoTies | additions/additions_2_temperature.py:17 | 5(f - 32)/9 is never exactly halfway between two integers |
| Temperature.FahrenheitToCelsiusShift | additions/additions_2_temperature.py:17 | nine degrees Fahrenheit more is exactly five degrees Celsius more, so 32 + 9k gives 5k |
| Temperature.FahrenheitToCelsiusExamples | additions/additions_2_temperature.py:17 | 32 gives 0, 212 gives 100, -40 gives -40, 98 gives 37 and 0 gives -18 |
| Temperature.FahrenheitToCelsiusMonotone | additions/additions_2_temperature.py:17 | a higher Fahrenheit value never gives a lower Celsius value |
| UnitConversions.InchesToCm | additions/additions_3_unit_conversions.py:17 | the result is within half a centimetre of 2.54 n, and a tie gives the even centimetre |
| UnitConversions.InchesToCmShift | additions/additions_3_unit_conversions.py:17 | a hundred inches more is exactly 254 cm more |
| UnitConversions.InchesToCmExamples | additions/additions_3_unit_conversions.py:17 | 0 gives 0, 1 gives 3, 12 gives 30, and the ties 25 and 75 give 64 and 190 |
| UnitConversions.InchesToCmMonotone | additions/additions_3_unit_conversions.py:17 | a longer length never gives a shorter one |

## Left out

- `process_huggingface_model`, `process_with_tools`, `assistant` and
  `create_graph` in main.py: model inference and agent wiring through
  foreign libraries. Their outcome (success, or an exception with its text)
  is a parameter.
- The Typer command `main_command`, console output, emoji messages and
  `.env` loading: presentation only.
- `start_ollama`, `check_ollama_running`, `quick_install_linux`,
  `install_ollama_instructions` and `test_model` in
  llm_setup/setup_ollama.py: subprocesses, sleeps, user input and HTTP.
  Their results are parameters (`OllamaHost`, `testOk`).
- `extract_text_with_smolvlm` and the `main` wrapper in
  tests/test_handwriting_ocr.py: the model call and the exit code.
- `convert_weight_cups_to_grams`, `convert_volume_cups_to_millilitres` and
  additions/additions_1_opencv.py: floating-point inputs and a foreign
  image library.
- agent/tools.py, llm_setup/setup_smolvlm.py, llm_setup/setup_and_test.py,
  tests/test_setup.py and tests/test_components.py are not part of this
  model.
- UrlParse: the IPv6 validity check on bracketed hosts and the NFKC check on
  non-ASCII netlocs of `urllib.parse` are not modelled. Only the
  unbalanced-bracket `ValueError` is modelled.
- Text.Lower folds ASCII letters only. The keywords compared against
  (`quota`, `connection`, `memory`, `cuda`, the provider names, the image
  extensions) are ASCII, but a non-ASCII capital in the input is not folded
  as Python's `str.lower` would fold it.
- ImageSource.DownloadImageFromUrl: a failure of the `unlink` that discards
  a half-written file is not modelled. Its requires that the temporary
  directory is absolute reflects `tempfile.gettempdir()`, which always
  returns an absolute path.
- Temperature.FahrenheitToCelsius: computes with the exact fraction. The
  source divides in double precision, which gives the same integer as long
  as |f| stays below about 2^48; beyond that the float result may differ.
- UnitConversions.InchesToCm: computes with the exact product 254·n/100.
  The source multiplies by the double nearest 2.54, which gives the same
  integer as long as |n| stays below about 2^40; beyond that the float
  result may differ.
- OllamaSetup.FindWorkingModel: the probes of each attempt are given in
  advance, one `OllamaHost` and one test result per candidate, rather than
  observed while the loop runs.
