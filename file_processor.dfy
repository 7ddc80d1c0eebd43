/** One conversion session: one source file, one model, one language pair.
    The session skips a file the ledger already records, otherwise splits
    it into chunks, holds the conversation (initial prompt, acknowledgement,
    an example exchange, then one exchange per chunk), and on success writes
    the replies next to the source file and records the pair in the ledger. */
module FileProcessing {
  import opened Common
  import opened ProgLangRegistry
  import opened Conversation
  import opened Storage
  import FileUtils

  /** How `process` ends: skipped, raised (missing input file or invalid
      output name), abandoned because not every chunk was converted, or
      written to the given path. */
  datatype Outcome = Skipped | Raised | Incomplete | Written(path: Path)

  /** The example exchange: the chunk prompt filled with the source-language
      example, answered by the target-language example verbatim. None where
      Python raises, for a language without an example or an unbound field. */
  function ExampleTurns(prompt: Template, conversions: map<string, string>,
                        fromLang: string, toLang: string): (r: Option<seq<Message>>)
    ensures r.Some? <==>
      fromLang in conversions && toLang in conversions &&
      Format(prompt, ChunkBinding(conversions[fromLang])).Some?
    ensures r.Some? ==>
      r.value == [Message(User, Format(prompt, ChunkBinding(conversions[fromLang])).value),
                  Message(Assistant, conversions[toLang])]
  {
    if fromLang !in conversions then None
    else
      match Format(prompt, ChunkBinding(conversions[fromLang]))
      case None => None
      case Some(u) =>
        if toLang !in conversions then None
        else Some([Message(User, u), Message(Assistant, conversions[toLang])])
  }

  /** The whole conversation of `convert_chunks`: the initial prompt, the
      acknowledgement, the example exchange, then the chunks. A failure
      anywhere ends the run. */
  function Session(provider: Provider, modelId: string, initialPrompt: string, prompt: Template,
                   conversions: map<string, string>, fromLang: string, toLang: string,
                   chunks: seq<string>): Run
  {
    var h1 := [Message(User, initialPrompt)];
    match provider(modelId, h1)
    case None => Run(h1, [], false)
    case Some(ack) =>
      var h2 := h1 + [Message(Assistant, ack)];
      match ExampleTurns(prompt, conversions, fromLang, toLang)
      case None => Run(h2, [], false)
      case Some(ex) => ConvertRun(provider, modelId, prompt, h2 + ex, chunks)
  }

  /** What `convert_chunks` returns: the replies of a complete run, else nothing. */
  function Converted(r: Run): seq<string>
  {
    if r.ok then r.replies else []
  }

  class FileProcessor {
    const filePath: Path
    const provider: Provider
    const model: Model
    const fromLang: string
    const toLang: string
    const ledger: Ledger
    const store: FileStore
    const initialPrompt: string
    const convertChunkPrompt: Template
    const reprocess: bool
    /** The example slide body of each language, keyed by slug. */
    const conversions: map<string, string>
    var messages: seq<Message>

    constructor(filePath: Path, provider: Provider, model: Model, fromLang: string, toLang: string,
                ledger: Ledger, store: FileStore, initialPrompt: string, convertChunkPrompt: Template,
                reprocess: bool, conversions: map<string, string>)
      ensures this.filePath == filePath && this.provider == provider && this.model == model
      ensures this.fromLang == fromLang && this.toLang == toLang
      ensures this.ledger == ledger && this.store == store
      ensures this.initialPrompt == initialPrompt && this.convertChunkPrompt == convertChunkPrompt
      ensures this.reprocess == reprocess && this.conversions == conversions
      ensures messages == []
    {
      this.filePath := filePath;
      this.provider := provider;
      this.model := model;
      this.fromLang := fromLang;
      this.toLang := toLang;
      this.ledger := ledger;
      this.store := store;
      this.initialPrompt := initialPrompt;
      this.convertChunkPrompt := convertChunkPrompt;
      this.reprocess := reprocess;
      this.conversions := conversions;
      messages := [];
    }

    /** The suffix of the target language; None where Python raises KeyError. */
    function ToSuffix(): (r: Option<string>)
      ensures r.Some? <==> toLang in ProgLangSpecs
      ensures r.Some? ==> r.value == ProgLangSpecs[toLang].suffix
    {
      LangSuffix(toLang)
    }

    /** The output path: the source path with its last suffix replaced by a
        dot, the model slug and the target suffix, in the same directory.
        None where Python raises. */
    function OutputFilePath(): (r: Option<Path>)
      ensures r.Some? <==> toLang in ProgLangSpecs && filePath.name != [] && '/' !in model.slug
      ensures r.Some? ==> r.value.dir == filePath.dir
      ensures r.Some? ==>
        r.value.name == filePath.name[..|filePath.name| - |Suffix(filePath.name)|] + "." + model.slug + ProgLangSpecs[toLang].suffix
    {
      var suffix := ToSuffix();
      if suffix.None? then None
      else
        assert '/' !in suffix.value by { RegistryConsistent(); }
        WithSuffix(filePath, "." + model.slug + suffix.value)
    }

    function BuildInitialMessage(): seq<Message>
    {
      [Message(User, initialPrompt)]
    }

    /** The current session's conversation over `chunks`. */
    function SessionOf(chunks: seq<string>): Run
    {
      Session(provider, model.id, initialPrompt, convertChunkPrompt, conversions, fromLang, toLang, chunks)
    }

    predicate HasFileBeenProcessed()
      reads ledger
    {
      ledger.Has(filePath.name, model.id)
    }

    /** Sends the whole history; a reply is appended as an assistant turn. */
    method SendMessagesToLlm() returns (r: Option<string>)
      modifies this
      ensures r == provider(model.id, old(messages))
      ensures messages == if r.Some? then old(messages) + [Message(Assistant, r.value)] else old(messages)
    {
      r := provider(model.id, messages);
      if r.Some? {
        messages := messages + [Message(Assistant, r.value)];
      }
    }

    /** Appends the example exchange, or nothing when it cannot be built. */
    method AddConversionExampleMessages() returns (ok: bool)
      modifies this
      ensures ok == ExampleTurns(convertChunkPrompt, conversions, fromLang, toLang).Some?
      ensures messages == old(messages) +
        (if ok then ExampleTurns(convertChunkPrompt, conversions, fromLang, toLang).value else [])
    {
      if fromLang !in conversions {
        return false;
      }
      var user := Format(convertChunkPrompt, ChunkBinding(conversions[fromLang]));
      if user.None? || toLang !in conversions {
        return false;
      }
      messages := messages + [Message(User, user.value), Message(Assistant, conversions[toLang])];
      ok := true;
    }

    /** One chunk: its user turn, then the call. The history and the reply
        are those of a run over this one chunk. */
    method ConvertChunk(chunk: string) returns (r: Option<string>)
      modifies this
      ensures ConvertRun(provider, model.id, convertChunkPrompt, old(messages), [chunk]) ==
        Run(messages, if r.Some? then [r.value] else [], r.Some?)
    {
      var user := Format(convertChunkPrompt, ChunkBinding(chunk));
      if user.None? {
        return None;
      }
      messages := messages + [Message(User, user.value)];
      r := SendMessagesToLlm();
      ghost var h := old(messages) + [Message(User, user.value)];
      assert [chunk][1..] == [];
      if r.Some? {
        assert ConvertRun(provider, model.id, convertChunkPrompt, h + [Message(Assistant, r.value)], []) ==
          Run(messages, [], true);
      }
    }

    /** `convert_chunks`: the history becomes the session's conversation, and
        the result is the replies of a complete run, else empty. */
    method ConvertChunks(chunks: seq<string>) returns (converted: seq<string>)
      modifies this
      ensures messages == SessionOf(chunks).history
      ensures converted == Converted(SessionOf(chunks))
    {
      messages := BuildInitialMessage();
      var ack := SendMessagesToLlm();
      if ack.None? {
        assert SessionOf(chunks) == Run(messages, [], false);
        return [];
      }
      var ok := AddConversionExampleMessages();
      if !ok {
        assert SessionOf(chunks) == Run(messages, [], false);
        return [];
      }
      assert SessionOf(chunks) == ConvertRun(provider, model.id, convertChunkPrompt, messages, chunks);
      var ok2;
      converted, ok2 := ConvertEach(chunks);
      if !ok2 {
        return [];
      }
    }

    /** The loop of `convert_chunks`: one `convert_chunk` per chunk, stopping
        at the first that fails. */
    method ConvertEach(chunks: seq<string>) returns (converted: seq<string>, ok: bool)
      modifies this
      ensures ConvertRun(provider, model.id, convertChunkPrompt, old(messages), chunks) ==
        Run(messages, converted, ok)
    {
      ghost var target := ConvertRun(provider, model.id, convertChunkPrompt, messages, chunks);
      converted := [];
      var i := 0;
      while i < |chunks|
        invariant 0 <= i <= |chunks|
        invariant RunRest(ConvertRun(provider, model.id, convertChunkPrompt, messages, chunks[i..]), converted, target)
      {
        ghost var before := messages;
        var r := ConvertChunk(chunks[i]);
        RunRestStep(provider, model.id, convertChunkPrompt, chunks, i, before, converted, target, messages, r);
        if r.None? {
          return converted, false;
        }
        converted := converted + [r.value];
        i := i + 1;
      }
      assert chunks[i..] == [];
      ok := true;
    }

    /** `note_file_processed`: an upsert of (file name, model id). */
    method NoteFileProcessed()
      modifies ledger
      ensures ledger.rows == old(ledger.rows) + {(filePath.name, model.id)}
      ensures HasFileBeenProcessed()
      ensures old(HasFileBeenProcessed()) ==> ledger.rows == old(ledger.rows)
    {
      ledger.Note(filePath.name, model.id);
    }

    /** Writes the replies, concatenated without separator, to the output
        path; false where Python raises on the output name. */
    method WriteConvertedChunksToFile(converted: seq<string>) returns (ok: bool)
      modifies store
      ensures ok == OutputFilePath().Some?
      ensures ok ==> store.files == old(store.files)[OutputFilePath().value := Concat(converted)]
      ensures !ok ==> store.files == old(store.files)
    {
      var out := OutputFilePath();
      if out.None? {
        return false;
      }
      store.Write(out.value, Concat(converted));
      ok := true;
    }

    /** `process`. */
    method Process() returns (outcome: Outcome)
      modifies this, ledger, store
      ensures old(HasFileBeenProcessed()) && !reprocess ==>
        outcome == Skipped && messages == old(messages) &&
        ledger.rows == old(ledger.rows) && store.files == old(store.files)
      ensures !(old(HasFileBeenProcessed()) && !reprocess) && filePath !in old(store.files) ==>
        outcome == Raised && messages == old(messages) &&
        ledger.rows == old(ledger.rows) && store.files == old(store.files)
      ensures !(old(HasFileBeenProcessed()) && !reprocess) && filePath in old(store.files) ==>
        var chunks := FileUtils.Chunks(old(store.files)[filePath], FileUtils.MaxChunkSize);
        var converted := Converted(SessionOf(chunks));
        && messages == SessionOf(chunks).history
        && (|converted| != |chunks| ==>
              outcome == Incomplete && ledger.rows == old(ledger.rows) && store.files == old(store.files))
        && (|converted| == |chunks| && OutputFilePath().None? ==>
              outcome == Raised && ledger.rows == old(ledger.rows) && store.files == old(store.files))
        && (|converted| == |chunks| && OutputFilePath().Some? ==>
              && outcome == Written(OutputFilePath().value)
              && store.files == old(store.files)[OutputFilePath().value := Concat(converted)]
              && ledger.rows == old(ledger.rows) + {(filePath.name, model.id)})
    {
      if HasFileBeenProcessed() && !reprocess {
        return Skipped;
      }
      var content := store.Read(filePath);
      if content.None? {
        return Raised;
      }
      var chunks := FileUtils.SplitIntoChunks(content.value, FileUtils.MaxChunkSize);
      var converted := ConvertChunks(chunks);
      if |converted| == |chunks| {
        var written := WriteConvertedChunksToFile(converted);
        if !written {
          return Raised;
        }
        NoteFileProcessed();
        outcome := Written(OutputFilePath().value);
      } else {
        outcome := Incomplete;
      }
    }
  }

  /** A successful session has the initial prompt, the acknowledgement, the
      example exchange, then one user/assistant pair per chunk: 4 + 2N turns
      alternating from a user turn, each chunk reply being what the provider
      answered when shown the whole history before it. */
  lemma SessionShape(provider: Provider, modelId: string, initialPrompt: string, prompt: Template,
                     conversions: map<string, string>, fromLang: string, toLang: string,
                     chunks: seq<string>)
    requires Session(provider, modelId, initialPrompt, prompt, conversions, fromLang, toLang, chunks).ok
    ensures var s := Session(provider, modelId, initialPrompt, prompt, conversions, fromLang, toLang, chunks);
      && |s.history| == 4 + 2 * |chunks| && |s.replies| == |chunks|
      && s.history[0] == Message(User, initialPrompt)
      && provider(modelId, [Message(User, initialPrompt)]).Some?
      && s.history[1] == Message(Assistant, provider(modelId, [Message(User, initialPrompt)]).value)
      && ExampleTurns(prompt, conversions, fromLang, toLang).Some?
      && s.history[2..4] == ExampleTurns(prompt, conversions, fromLang, toLang).value
      && AlternatesFrom(s.history, 0)
      && forall i :: 0 <= i < |chunks| ==> ChunkTurnsAt(provider, modelId, prompt, s.history, 4, chunks, s.replies, i)
  {
    var h1 := [Message(User, initialPrompt)];
    var ack := provider(modelId, h1).value;
    var h2 := h1 + [Message(Assistant, ack)];
    var ex := ExampleTurns(prompt, conversions, fromLang, toLang).value;
    var start := h2 + ex;
    ConvertRunSuccess(provider, modelId, prompt, start, chunks);
    ConvertRunAlternates(provider, modelId, prompt, start, chunks);
    var s := ConvertRun(provider, modelId, prompt, start, chunks);
    assert s.history[..4] == start;
    assert s.history[2..4] == start[2..4];
    forall i | 0 <= i < |s.history|
      ensures s.history[i].role == (if i % 2 == 0 then User else Assistant)
    {
      if i < 4 {
        assert s.history[i] == start[i];
      } else {
        assert s.history[i].role == (if (i - 4) % 2 == 0 then User else Assistant);
      }
    }
  }

  /** `process` writes exactly when `convert_chunks` returned one reply per
      chunk: when the session succeeded, or when there were no chunks at all. */
  lemma ConvertedCountMatches(provider: Provider, modelId: string, initialPrompt: string, prompt: Template,
                              conversions: map<string, string>, fromLang: string, toLang: string,
                              chunks: seq<string>)
    ensures var s := Session(provider, modelId, initialPrompt, prompt, conversions, fromLang, toLang, chunks);
      |Converted(s)| == |chunks| <==> s.ok || chunks == []
  {
    var s := Session(provider, modelId, initialPrompt, prompt, conversions, fromLang, toLang, chunks);
    if s.ok {
      SessionShape(provider, modelId, initialPrompt, prompt, conversions, fromLang, toLang, chunks);
    }
  }

  /** An empty source file has no chunks, so its (empty) output is written and
      recorded even when the model did not acknowledge. */
  lemma EmptyFileConverts(provider: Provider, modelId: string, initialPrompt: string, prompt: Template,
                          conversions: map<string, string>, fromLang: string, toLang: string)
    ensures FileUtils.Chunks("", FileUtils.MaxChunkSize) == []
    ensures var s := Session(provider, modelId, initialPrompt, prompt, conversions, fromLang, toLang, []);
      Converted(s) == [] && Concat(Converted(s)) == ""
  {
    FileUtils.ChunksRoundTrip("", FileUtils.MaxChunkSize);
  }

  /** The session of the repository's test: with the recording provider,
      the prompt "convert {chunk}" and a file short enough to be one chunk, the
      acknowledgement is "Received 1 message(s)", the example exchange
      follows, the chunk's user turn is "convert " and the file, and the
      single converted chunk, hence the output file, is "Received 5
      message(s)". */
  lemma SpySession(content: string, initialPrompt: string, conversions: map<string, string>)
    requires 0 < |content| <= FileUtils.MaxChunkSize
    requires "java" in conversions && "csharp" in conversions
    ensures var chunks := FileUtils.Chunks(content, FileUtils.MaxChunkSize);
      var s := Session(Spy, "meta/llama", initialPrompt, ChunkTemplate("convert ", ""), conversions, "java", "csharp", chunks);
      && chunks == [content]
      && s.ok
      && s.history == [Message(User, initialPrompt), Message(Assistant, SpyReply(1)),
                       Message(User, "convert " + conversions["java"]), Message(Assistant, conversions["csharp"]),
                       Message(User, "convert " + content), Message(Assistant, SpyReply(5))]
      && Converted(s) == [SpyReply(5)]
      && Concat(Converted(s)) == SpyReply(5)
  {
    FileUtils.SmallContentIsOneChunk(content, FileUtils.MaxChunkSize);
    FormatChunkTemplate("convert ", "", conversions["java"]);
    FormatChunkTemplate("convert ", "", content);
    assert "convert " + conversions["java"] + "" == "convert " + conversions["java"];
    assert "convert " + content + "" == "convert " + content;
    SpyOneChunkSession(initialPrompt, ChunkTemplate("convert ", ""), conversions, "java", "csharp",
                       content, "convert " + conversions["java"], "convert " + content);
    ConcatSingle(SpyReply(5));
  }

  /** With the recording provider, a one-chunk session whose prompts format
      to `example` and `user` is the six turns of the test, the second reply
      counting the five messages before it. */
  lemma SpyOneChunkSession(initialPrompt: string, prompt: Template, conversions: map<string, string>,
                           fromLang: string, toLang: string, chunk: string, example: string, user: string)
    requires fromLang in conversions && toLang in conversions
    requires Format(prompt, ChunkBinding(conversions[fromLang])) == Some(example)
    requires Format(prompt, ChunkBinding(chunk)) == Some(user)
    ensures Session(Spy, "meta/llama", initialPrompt, prompt, conversions, fromLang, toLang, [chunk]) ==
      Run([Message(User, initialPrompt), Message(Assistant, SpyReply(1)),
           Message(User, example), Message(Assistant, conversions[toLang]),
           Message(User, user), Message(Assistant, SpyReply(5))],
          [SpyReply(5)], true)
  {
    var h1 := [Message(User, initialPrompt)];
    var h2 := h1 + [Message(Assistant, SpyReply(1))];
    var start := h2 + [Message(User, example), Message(Assistant, conversions[toLang])];
    assert Spy("meta/llama", h1) == Some(SpyReply(1));
    ConvertRunOne(Spy, "meta/llama", prompt, start, chunk);
    assert |start + [Message(User, user)]| == 5;
  }

  /** A file named by a stem and one extension, converted to C#, is written
      beside it as the stem, a dot, the model's slug and ".cs". */
  lemma OutputFilePathCSharp(fp: FileProcessor, stem: string, ext: string)
    requires fp.filePath.name == stem + ext
    requires stem != [] && |ext| >= 2 && ext[0] == '.'
    requires forall k :: 1 <= k < |ext| ==> ext[k] != '.'
    requires fp.toLang == "csharp" && '/' !in fp.model.slug
    ensures fp.OutputFilePath() == Some(Path(fp.filePath.dir, stem + "." + fp.model.slug + ".cs"))
  {
    SuffixOf(stem, ext);
    CSharpSuffix();
  }

  /** The name the repository's test expects, spelt out. */
  lemma LlamaName(stem: string)
    requires stem == "test_file"
    ensures stem + "." + "llama" + ".cs" == "test_file.llama.cs"
  {
  }

  /** The output name of the repository's test: "test_file.java" converted
      to C# by the model with slug "llama" is "test_file.llama.cs", in the
      same directory. */
  lemma OutputFilePathExample(fp: FileProcessor)
    requires fp.filePath == Path("tmp", "test_file.java")
    requires fp.model.slug == "llama" && fp.toLang == "csharp"
    ensures fp.OutputFilePath() == Some(Path("tmp", "test_file.llama.cs"))
  {
    var stem, ext := "test_file", ".java";
    assert stem + ext == "test_file.java";
    assert ext[1] == 'j' && ext[2] == 'a' && ext[3] == 'v' && ext[4] == 'a';
    OutputFilePathCSharp(fp, stem, ext);
    LlamaName(stem);
  }
}
