# plc: a verified model of the notebook language converter

plc converts slide notebooks in jupytext "percent" format (cells opened by
`# %%` or `// %%` marker lines) from one programming language to another by
talking to a language model. A source file is cut into chunks at cell
boundaries. A chunk holds at most 8192 characters, except a single cell
longer than that, which becomes a chunk of its own. One conversation per (file, model) sends
an initial instruction prompt, an example exchange and then the chunks one
by one. The replies are written to `<stem>.<model slug><target suffix>` next
to the source, and a ledger of (file name, model id) pairs stops a file from
being converted twice.

This project models that core in Dafny and proves what it promises:

- `Common` (common.dfy): shared values. These are messages and models,
  concatenation and joining, Python's `strip` and ASCII `lower`, `str.format`
  templates, and `pathlib` names with `with_suffix`.
- `FileUtils` (file_utils.dfy): the current chunker, with its two phases.
  - `split_into_possible_chunks` makes one piece per cell.
  - `aggregate_chunks` greedily packs cells into chunks up to the limit.
- `ProgLangRegistry` (prog_lang_spec.dfy): the language registry and the
  example conversion bodies.
- `Defaults` (defaults.dfy): the model list, the per-pair instruction keys
  and `get_initial_prompt`.
- `Conversation` (conversation.dfy): the chunk-by-chunk exchange both
  converters hold with the model. The model is a function from the model id
  and the whole history to a reply or a failure.
- `Storage` (storage.dfy): the ledger table and the files, as objects
  updated in place.
- `FileProcessing` (file_processor.dfy): the `FileProcessor` class, one
  session of the current converter.
- `LegacyConverter` (legacy.dfy): the older stand-alone script. It has its
  own chunker, its own session without an example exchange, and the batch
  loop that filters and caps the files.

The stateful code is modelled imperatively. Each loop of the source is a
method proved against a specification function: `SplitIntoPossibleChunks`,
`AggregateChunks`, `ConvertChunks`, the legacy `SplitIntoChunks`,
`ProcessFile` (against `ProcessFileSpec`), `ProcessWithModels` (against
`ModelsSpec`) and `ProcessFiles` (against `Selected` and `FilesSpec`). The properties are then proved about
those functions.

## Model

| member | source | states |
|---|---|---|
| Common.Format | src/plc/defaults.py:223-225 | formatting a template succeeds exactly when every field it names is bound (Python raises KeyError otherwise) |
| Common.FormatChunkTemplate | tests/conftest.py:77 | a prompt "prefix{chunk}suffix" formats to prefix + chunk + suffix |
| Common.StripIdempotent | src/plc/polyglot_language_converter.py:97 | stripping a stripped string changes nothing |
| Common.WithSuffix | src/plc/file_processor.py:154-156 | `with_suffix` succeeds exactly for a non-empty name and a suffix that starts with '.', is not "." and has no separator; the result keeps the directory and replaces the last suffix of the name |
| Common.Suffix | src/plc/file_processor.py:156 | the last suffix of a name is empty or a proper tail of it: a '.' followed by at least one character and no further '.' |
| Common.NoSuffix | src/plc/file_processor.py:156 | a name without a dot, ending in a dot, or whose only dot leads it has no suffix |
| Common.ContainsOccurs | src/plc/polyglot_language_converter.py:276 | Python's substring test `sub in s` holds exactly when `sub` occurs at some index of `s` |
| FileUtils.SplitLines | src/plc/file_utils.py:13 | the lines, each keeping its line break, concatenate back to the content; only the last may lack a '\n' |
| FileUtils.PossibleChunksStructure | src/plc/file_utils.py:10-26 | the possible chunks concatenate to the content, none is empty, and each starts at a marker line (stripped line starting with "# %%" or "// %%") or is the text before the first marker |
| FileUtils.CellTextsStructure | src/plc/file_utils.py:15-24 | for any marker test, the cells as text concatenate to the content, none is empty, their lines are the content's lines in order, each after the first opens with a marker and no later line is one |
| FileUtils.SplitIntoPossibleChunks | src/plc/file_utils.py:10-26 | the loop returns exactly the specified possible chunks |
| FileUtils.PackGroupsConcat | src/plc/file_utils.py:29-48 | packing loses and reorders nothing: the packed chunks concatenate to the open chunk followed by all possible chunks |
| FileUtils.PackGroupsPartition | src/plc/file_utils.py:29-48 | the groups of possible chunks, read in order, are exactly the open group followed by the possible chunks |
| FileUtils.PackGroupsRules | src/plc/file_utils.py:33-46 | every group fits the limit or is one oversized cell alone; no group could have taken the next cell (greedy); no group is empty |
| FileUtils.PackChunk | src/plc/file_utils.py:34-43 | one possible chunk of the loop emits exactly the chunks the packing closes there and leaves the accumulator holding the open group's text |
| FileUtils.AggregateChunks | src/plc/file_utils.py:29-48 | the loop returns exactly the specified packing, whose concatenation is that of its input |
| FileUtils.SplitIntoChunks | src/plc/file_utils.py:4-7 | the chunker is the packing of the possible chunks |
| FileUtils.ChunksRoundTrip | src/plc/file_utils.py:4-48 | the chunks concatenate back to the content, and there are none exactly for empty content (tests/test_file_utils.py:40-43) |
| FileUtils.ChunksPacking | src/plc/file_utils.py:4-48 | every chunk is a concatenation of consecutive possible chunks under the packing rules |
| FileUtils.SmallContentIsOneChunk | src/plc/file_utils.py:39-46 | non-empty content within the limit is a single chunk (tests/test_file_utils.py:6-9, 46-49) |
| FileUtils.ThreeCellsExample | tests/test_file_utils.py:12-15 | three cells with a limit of 30 pack into two chunks: the first two cells, then the third |
| ProgLangRegistry.LangName | src/plc/prog_lang_spec.py:12-21 | the display name exists exactly for a registered slug |
| ProgLangRegistry.LangSuffix | src/plc/file_processor.py:34-36 | the suffix exists exactly for a registered slug |
| ProgLangRegistry.RegistryConsistent | src/plc/prog_lang_spec.py:12-21 | each entry is keyed by its own slug; its pattern is "*" + suffix; its suffix is '.' and an extension |
| ProgLangRegistry.RegisteredLanguages | src/plc/prog_lang_spec.py:12-96 | exactly cpp, csharp, java and python are registered, not typescript, and the example conversions cover the same four |
| ProgLangRegistry.CSharpSuffix | src/plc/prog_lang_spec.py:14 | C# files end in ".cs" |
| Defaults.FilterBySlug | src/plc/defaults.py:19-21 | the filter keeps exactly the models whose slug is listed, from the original list |
| Defaults.FilterBySlugAppend | src/plc/defaults.py:19-21 | the comprehension keeps the list order: filtering `a + b` gives the kept models of `a` followed by those of `b` |
| Defaults.FilterBySlugSingle | src/plc/defaults.py:19-21 | one model is kept exactly when its slug is listed |
| Defaults.DefaultModelsAre | src/plc/defaults.py:12-21 | the default models are Claude, Qwen and ChatGPT in that order |
| Defaults.GetInitialPrompt | src/plc/defaults.py:220-230 | the prompt exists exactly when both slugs are registered, the opening's fields are bound and the pair has instructions |
| Defaults.InitialPromptShape | src/plc/defaults.py:223-230 | a prompt is the formatted opening, the pair's instructions and the closing text, so it ends with the request to confirm |
| Defaults.InitialPromptNeedsRegisteredSlugs | src/plc/defaults.py:221-222 | any pair with an unregistered slug fails |
| Defaults.InitialPromptTypeScript | src/plc/defaults.py:69-82 | every pair involving TypeScript fails, although instructions name it as a target |
| Defaults.InitialPromptDefined | src/plc/defaults.py:36-230 | with the default texts, the prompt exists exactly for two different registered languages |
| Defaults.PairKeys | src/plc/defaults.py:36-212 | among registered slugs, an instruction key exists exactly for a pair of different languages |
| Defaults.InitialPromptNamesLanguages | src/plc/defaults.py:221-225 | the prompt contains the registered names of both languages |
| Defaults.CSharpToPythonPrompt | tests/test_defaults.py:6-9 | the C#-to-Python prompt exists and contains "C#" and "Python" |
| Conversation.ConvertRunExtends | src/plc/file_processor.py:106-128 | a conversation only appends to the history |
| Conversation.ConvertRunSuccess | src/plc/file_processor.py:76-83 | a complete run has one reply per chunk and two turns per chunk: the formatted prompt, then the reply the model gave when shown everything before it |
| Conversation.ConvertRunSucceeds | src/plc/file_processor.py:76-83 | when every prompt formats and the model always answers, the run completes |
| Conversation.ConvertRunAlternates | src/plc/file_processor.py:106-128 | the chunk turns alternate user, assistant |
| Conversation.ConvertRunOne | src/plc/file_processor.py:106-121 | one chunk adds nothing when its prompt fails to format, its user turn alone when the call fails, else both turns |
| Conversation.SpyReplies | tests/conftest.py:37-48 | with the recording model, the reply to chunk i counts the messages it was shown |
| Storage.Ledger.Note | src/plc/file_processor.py:138-146 | the upsert adds the (file name, model id) row; upserting a present row changes nothing |
| Storage.FileStore.Read | src/plc/file_processor.py:46-47 | reading yields the file's text, or fails when it does not exist |
| Storage.FileStore.Write | src/plc/file_processor.py:151-152 | writing replaces the whole text of that one file |
| FileProcessing.ExampleTurns | src/plc/file_processor.py:93-104 | the example exchange exists exactly when both languages have an example and the prompt formats; it is the formatted source example, then the target example |
| FileProcessing.FileProcessor.ToSuffix | src/plc/file_processor.py:34-36 | the target suffix is the registry's, and exists exactly for a registered target |
| FileProcessing.FileProcessor.OutputFilePath | src/plc/file_processor.py:154-156 | the output is `<stem>.<slug><target suffix>` in the source's directory |
| FileProcessing.FileProcessor.SendMessagesToLlm | src/plc/file_processor.py:123-128 | the whole history is sent and a reply is appended as an assistant turn |
| FileProcessing.FileProcessor.AddConversionExampleMessages | src/plc/file_processor.py:93-104 | the history grows by the example exchange, or not at all when it cannot be built |
| FileProcessing.FileProcessor.ConvertChunk | src/plc/file_processor.py:106-121 | the history and reply are those of a run over this one chunk |
| FileProcessing.FileProcessor.ConvertEach | src/plc/file_processor.py:76-83 | the loop over the chunks ends with the history, replies and outcome of a conversation run over them, stopping at the first failure |
| FileProcessing.FileProcessor.ConvertChunks | src/plc/file_processor.py:65-91 | the history becomes the session's conversation; the result is its replies when complete, else empty |
| FileProcessing.FileProcessor.NoteFileProcessed | src/plc/file_processor.py:138-146 | afterwards the ledger has the pair (tests/test_file_processor.py:16-18) |
| FileProcessing.FileProcessor.WriteConvertedChunksToFile | src/plc/file_processor.py:148-152 | the replies, joined without separator, replace the output file |
| FileProcessing.FileProcessor.Process | src/plc/file_processor.py:38-63 | a recorded pair is skipped unless reprocessing; otherwise the session runs, and only when every chunk was converted is the output written and the pair recorded |
| FileProcessing.SessionShape | src/plc/file_processor.py:65-104 | a complete session has 4 + 2N turns: initial prompt, acknowledgement, example exchange, then one pair per chunk, alternating from a user turn |
| FileProcessing.ConvertedCountMatches | src/plc/file_processor.py:56 | the output is written exactly when the session completed or there were no chunks |
| FileProcessing.EmptyFileConverts | src/plc/file_processor.py:53-57 | an empty file has no chunks, so its empty output is written even without an acknowledgement |
| FileProcessing.SpySession | tests/test_file_processor.py:28-53 | the session of the repository's test: the six messages in order, and "Received 5 message(s)" as the output |
| FileProcessing.OutputFilePathExample | tests/test_file_processor.py:8-13 | "test_file.java" with slug "llama" to C# becomes "test_file.llama.cs" in the same directory |
| FileProcessing.OutputFilePathCSharp | src/plc/file_processor.py:154-156 | a file named by a stem and one extension, converted to C#, is written beside it as `<stem>.<slug>.cs` |
| LegacyConverter.SplitOnNewline | src/plc/polyglot_language_converter.py:93 | `split("\n")` gives at least one piece, none with a '\n', and the pieces each followed by '\n' rebuild the content plus '\n' |
| LegacyConverter.SplitIntoChunks | src/plc/polyglot_language_converter.py:90-105 | the loop returns exactly the specified chunks |
| LegacyConverter.CutLine | src/plc/polyglot_language_converter.py:94-102 | one line of the loop emits exactly the stripped pieces the specification closes there and leaves the accumulator holding the open piece's text |
| LegacyConverter.LegacyChunksStripped | src/plc/polyglot_language_converter.py:97-104 | every chunk is stripped |
| LegacyConverter.LegacyChunksNeverEmpty | src/plc/polyglot_language_converter.py:93-105 | the result is never empty; empty content gives [""] |
| LegacyConverter.CutGroupsPartition | src/plc/polyglot_language_converter.py:93-104 | the pieces keep every line, in order |
| LegacyConverter.LegacyPiecesConcat | src/plc/polyglot_language_converter.py:93-104 | before stripping, the pieces concatenate to the content plus '\n' |
| LegacyConverter.CutGroupsRules | src/plc/polyglot_language_converter.py:94-102 | within a piece all lines but the last stay under the limit, and no later line of a piece is a column-0 marker that would take the lines before it over the limit; a piece ends because it reached the limit, or because the next starts with such a marker |
| LegacyConverter.LegacyCutRules | src/plc/polyglot_language_converter.py:94-102 | those cut rules hold for the pieces of any content |
| LegacyConverter.EmptyChunkFirst | src/plc/polyglot_language_converter.py:94-98 | a marker line too long for the limit first closes the empty open piece, so the chunks start with "" |
| LegacyConverter.EmptyChunkExample | src/plc/polyglot_language_converter.py:94-102 | "# %%ab" with a limit of 4 gives ["", "# %%ab"] |
| LegacyConverter.ProcessFile | src/plc/polyglot_language_converter.py:207-262 | the result and the new ledger and files are those of the specification; an abandoned session leaves its history as it stood |
| LegacyConverter.ConvertChunks | src/plc/polyglot_language_converter.py:227-246 | the loop over the chunks ends with the history, replies and outcome of the conversation run, stopping at the first chunk that cannot be formatted or whose call fails |
| LegacyConverter.LegacySessionShape | src/plc/polyglot_language_converter.py:219-240 | a complete session is initial prompt, acknowledgement, then one pair per chunk with no example exchange: 2 + 2N alternating turns |
| LegacyConverter.ProcessFileEffects | src/plc/polyglot_language_converter.py:241-260 | the output is written and the pair recorded only on a complete session; the output is `<stem>.<suffix>.cs` beside the input and holds one reply per chunk joined by blank lines; otherwise nothing changes, and the count check never fails |
| LegacyConverter.ProcessFileWritten | src/plc/polyglot_language_converter.py:248-260 | a written output means the input existed, the session completed with one reply per chunk, and exactly the output file `<stem>.<suffix>.cs` beside the input and the pair's ledger row were added |
| LegacyConverter.SecondRunSkips | src/plc/polyglot_language_converter.py:198-210 | once a pair is written, processing it again without reprocessing skips it and changes nothing |
| LegacyConverter.SkippedExamples | tests/test_polyglot_converter.py:65-71 | old_file.java, backup_file.java, old/file.java and .ipynb_checkpoints/file.java are filtered |
| LegacyConverter.SkippedBySubstring | src/plc/polyglot_language_converter.py:276 | the filter is a plain substring test: every file under a directory "Gold" is filtered |
| LegacyConverter.AbsentLetter | src/plc/polyglot_language_converter.py:276 | a word with a letter the path lacks in either case does not occur in the lowered path |
| LegacyConverter.KeptWithoutLetters | src/plc/polyglot_language_converter.py:276-281 | a path with no 'd', 'b' or 'y' in either case passes both filters |
| LegacyConverter.NormalFileKept | tests/test_polyglot_converter.py:72 | normal_file.java is not filtered |
| LegacyConverter.SurvivorsMembers | src/plc/polyglot_language_converter.py:276-281 | a path survives exactly when enumerated and passing both filters (`old`/`backup`, `.ipynb_checkpoints`) |
| LegacyConverter.SurvivorsAppend | src/plc/polyglot_language_converter.py:271-281 | the filter keeps the enumeration order |
| LegacyConverter.SelectedProperties | src/plc/polyglot_language_converter.py:271-284 | the processed files are the first `max_files` survivors (all when there is no cap), each a filtered-in enumerated path |
| LegacyConverter.SelectedUnfiltered | tests/test_polyglot_converter.py:42-45 | with nothing filtered, a cap of k processes the first k files |
| LegacyConverter.ProcessWithModels | src/plc/polyglot_language_converter.py:286-290 | the models run on the file in turn: whether one raised, and the ledger and files after the last, are those of the specification fold; only rows for that file and those models are added |
| LegacyConverter.ModelsSpecRows | src/plc/polyglot_language_converter.py:286-290 | running every model on a file adds only ledger rows pairing its name with one of the models |
| LegacyConverter.FilesSpecStops | src/plc/polyglot_language_converter.py:286-292 | once a file's sessions raised, the files after it change nothing: the batch is over |
| LegacyConverter.FilesSpecRows | src/plc/polyglot_language_converter.py:283-290 | a batch adds only ledger rows pairing the name of a processed file with one of the models |
| LegacyConverter.ProcessNext | src/plc/polyglot_language_converter.py:283-290 | one pass over a surviving path extends the batch by it: the ledger and files follow the fold, and the batch stops exactly when a session raised |
| LegacyConverter.PairsMembers | src/plc/polyglot_language_converter.py:286-290 | the possible ledger rows of the started files are exactly (file name, model id) for a started file and a listed model |
| LegacyConverter.ProcessFiles | src/plc/polyglot_language_converter.py:266-292 | the files started are exactly the selection when the loop ends, or a non-empty start of it when a session raised; the ledger and files are those of processing the started files in turn, a session raised exactly when the loop did not complete, and then in the last started file and in none before it; the ledger only gains rows for started files and the models |
| LegacyConverter.SelectedSoFar | src/plc/polyglot_language_converter.py:272-284 | the survivors seen so far are the start of the selection, and all of it once the cap is reached |
| LegacyConverter.FilesOutcome | src/plc/polyglot_language_converter.py:271-281 | where the loop stopped decides what it started: all of the selection when it ran out of paths or reached the cap, a non-empty start of it when a session raised |

## Left out

- The HTTP transport is not modelled: the OpenRouter provider and `send_to_openrouter` with its retries and sleeps. The model is a function from the model id and the whole history to a reply or a failure. A failure stands for an exception after all retries.
- Concurrency is not modelled. `asyncio.gather` over the models is run sequentially here. When one session raises, the model lets the other models finish the same file, then stops the batch. The sessions' ledger keys differ by model id.
- SQLite, connections and cursors are not modelled. The ledger is a set of (file name, model id) pairs. Only the lookup and the INSERT OR REPLACE are modelled. The language columns of the table are never read.
- File reading and writing are not modelled, nor is `rglob` traversal. Files are a map from path to text. The enumerated paths are a given sequence. A missing input file is the only read error. Newline translation on read is not modelled.
- Logging, `print`, the CLI in `__main__.py` and the `connect_to_database` helper are not modelled.
- Prompt wording is not modelled. Prompt texts and example bodies are opaque strings, and a template is literal text and named fields.
- FileUtils.SplitLines: only '\n' ends a line. Python's `splitlines` also breaks on '\r', '\v', '\f', '\x1c'-'\x1e', '\x85', ' ' and ' '.
- Common.Lower: only ASCII letters are lowered. Python lowers all of Unicode.
- The `converted_chunks` field and the `from_suffix` property of `FileProcessor` are never used by the code, so they are not modelled.
- `file_processor.py` imports `default_initial_prompt` and `prog_lang_messages`, which the other modules do not define. The initial and chunk prompts are constructor parameters here. The example bodies are the table of `prog_lang_conversions`, the one the tests use.
- The tests import a `PolyglotLanguageConverter` class with a `skip_file_because_of_name` method, but the script defines module-level functions. The skip examples are stated for those functions, with the name filter and `should_skip_file` combined.
- The default chunk prompt names `{from_lang}` and `{to_lang}` fields, which `convert_chunk` never binds. Formatting it therefore fails. `Format` returns None for an unbound field, so a session with that prompt stops at the acknowledgement when that call fails, and otherwise at the example exchange, before any chunk is sent. No lemma singles out this case.
- The parametrised test in tests/test_defaults.py:33-46 expects a prompt for a conversion to TypeScript. The registry has no TypeScript, so `get_initial_prompt` raises for it (Defaults.InitialPromptTypeScript). The model follows the code.
- The legacy `send_to_openrouter` retry count and delay are not modelled (3 attempts, 5 seconds apart).
- The legacy `TEST_CONTENT` cell that the script splits at module level is not modelled.
