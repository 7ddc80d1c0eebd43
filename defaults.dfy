/** The default models and the composition of the initial prompt from a
    formatted opening, the instructions for one language pair and a fixed
    closing request. */
module Defaults {
  import opened Common
  import opened ProgLangRegistry

  /** `all_models`. */
  const AllModels: seq<Model> := [
    Model("anthropic/claude-3.5-sonnet:beta", "claude"),
    Model("qwen/qwen-2.5-72b-instruct", "qwen"),
    Model("google/gemini-pro-1.5", "gemini"),
    Model("openai/chatgpt-4o-latest", "chatgpt")
  ]

  /** The slugs kept by default. */
  const DefaultSlugs: seq<string> := ["claude", "qwen", "chatgpt"]

  /** The models of `ms` whose slug is one of `slugs`, in their original order. */
  function FilterBySlug(ms: seq<Model>, slugs: seq<string>): (r: seq<Model>)
    ensures |r| <= |ms|
    ensures forall j :: 0 <= j < |r| ==> r[j] in ms && r[j].slug in slugs
    ensures forall m :: m in ms && m.slug in slugs ==> m in r
  {
    if ms == [] then []
    else if ms[0].slug in slugs then [ms[0]] + FilterBySlug(ms[1..], slugs)
    else FilterBySlug(ms[1..], slugs)
  }

  /** Filtering distributes over concatenation: the kept models of `a + b`
      are those of `a` followed by those of `b`. */
  lemma {:induction false} FilterBySlugAppend(a: seq<Model>, b: seq<Model>, slugs: seq<string>)
    ensures FilterBySlug(a + b, slugs) == FilterBySlug(a, slugs) + FilterBySlug(b, slugs)
  {
    if a != [] {
      assert (a + b)[0] == a[0];
      assert (a + b)[1..] == a[1..] + b;
      FilterBySlugAppend(a[1..], b, slugs);
    } else {
      assert a + b == b;
    }
  }

  /** One model is kept exactly when its slug is listed. */
  lemma FilterBySlugSingle(m: Model, slugs: seq<string>)
    ensures FilterBySlug([m], slugs) == if m.slug in slugs then [m] else []
  {
    assert [m][1..] == [];
  }

  /** `default_models`. */
  function DefaultModels(): seq<Model>
  {
    FilterBySlug(AllModels, DefaultSlugs)
  }

  /** The default models are Claude, Qwen and ChatGPT, in that order: Gemini
      is the only model left out. */
  lemma DefaultModelsAre()
    ensures DefaultModels() == [AllModels[0], AllModels[1], AllModels[3]]
  {
    var ms := AllModels;
    var slugs := DefaultSlugs;
    assert ms[0].slug == slugs[0] && ms[1].slug == slugs[1] && ms[3].slug == slugs[2];
    assert ms[2].slug !in slugs by {
      assert ms[2].slug[0] == 'g';
      assert slugs[0][0] == 'c' && slugs[1][0] == 'q' && slugs[2][0] == 'c';
    }
    FilterThirdOfFour(ms, slugs);
  }

  /** Of four models whose third alone has an unlisted slug, the filter keeps
      the other three in order. */
  lemma FilterThirdOfFour(ms: seq<Model>, slugs: seq<string>)
    requires |ms| == 4
    requires ms[0].slug in slugs && ms[1].slug in slugs && ms[2].slug !in slugs && ms[3].slug in slugs
    ensures FilterBySlug(ms, slugs) == [ms[0], ms[1], ms[3]]
  {
    assert ms[1..][1..][1..][1..] == [];
    assert FilterBySlug(ms[1..][1..][1..], slugs) == [ms[3]];
    assert FilterBySlug(ms[1..][1..], slugs) == [ms[3]];
    assert FilterBySlug(ms[1..], slugs) == [ms[1], ms[3]];
  }

  /** The key of `language_specific_instructions` for a language pair. */
  function InstructionKey(fromSlug: string, toSlug: string): string
  {
    fromSlug + "_to_" + toSlug
  }

  const PairsFromPython: set<string> := {"python_to_cpp", "python_to_java", "python_to_csharp", "python_to_typescript"}
  const PairsFromCpp: set<string> := {"cpp_to_python", "cpp_to_java", "cpp_to_csharp", "cpp_to_typescript"}
  const PairsFromJava: set<string> := {"java_to_python", "java_to_cpp", "java_to_csharp"}
  const PairsFromCSharp: set<string> := {"csharp_to_python", "csharp_to_cpp", "csharp_to_java", "csharp_to_typescript"}

  /** The fifteen language pairs that have instructions. */
  const InstructionKeys: set<string> := PairsFromPython + PairsFromCpp + PairsFromJava + PairsFromCSharp

  /** The texts the initial prompt is assembled from: the opening template
      (with `from_lang` and `to_lang` fields), the instructions per pair key
      and the closing request. */
  datatype PromptTexts = PromptTexts(start: Template, instructions: map<string, string>, end: string)

  /** The shape of the default texts: instructions exactly for the fifteen
      pairs, and an opening whose only fields are `from_lang` and `to_lang`,
      both of which it uses. */
  predicate DefaultShaped(texts: PromptTexts)
  {
    && texts.instructions.Keys == InstructionKeys
    && (forall i :: 0 <= i < |texts.start| && texts.start[i].Field? ==>
          texts.start[i].name == "from_lang" || texts.start[i].name == "to_lang")
    && Field("from_lang") in texts.start
    && Field("to_lang") in texts.start
  }

  function NameBindings(fromName: string, toName: string): map<string, string>
  {
    map["from_lang" := fromName, "to_lang" := toName]
  }

  /** `get_initial_prompt(from_slug, to_slug)`: None where Python raises
      KeyError, for an unregistered slug, an unbound field of the opening, or
      a pair without instructions. */
  function GetInitialPrompt(texts: PromptTexts, fromSlug: string, toSlug: string): (r: Option<string>)
    ensures r.Some? <==>
      && fromSlug in ProgLangSpecs && toSlug in ProgLangSpecs
      && AllBound(texts.start, NameBindings(ProgLangSpecs[fromSlug].name, ProgLangSpecs[toSlug].name))
      && InstructionKey(fromSlug, toSlug) in texts.instructions
  {
    var fromName := LangName(fromSlug);
    var toName := LangName(toSlug);
    if fromName.None? || toName.None? then None
    else
      var opening := Format(texts.start, NameBindings(fromName.value, toName.value));
      var key := InstructionKey(fromSlug, toSlug);
      if opening.None? || key !in texts.instructions then None
      else Some(opening.value + texts.instructions[key] + texts.end)
  }

  /** A successful prompt is the formatted opening, then the pair's
      instructions, then the closing request, which it therefore ends with. */
  lemma InitialPromptShape(texts: PromptTexts, fromSlug: string, toSlug: string)
    requires GetInitialPrompt(texts, fromSlug, toSlug).Some?
    ensures var p := GetInitialPrompt(texts, fromSlug, toSlug).value;
      var opening := Format(texts.start, NameBindings(ProgLangSpecs[fromSlug].name, ProgLangSpecs[toSlug].name));
      && opening.Some?
      && p == opening.value + texts.instructions[InstructionKey(fromSlug, toSlug)] + texts.end
      && |texts.end| <= |p| && p[|p| - |texts.end|..] == texts.end
  {
  }

  /** Any pair involving a slug the registry lacks fails, TypeScript included,
      although four instruction keys name TypeScript as the target. */
  lemma InitialPromptNeedsRegisteredSlugs(texts: PromptTexts, fromSlug: string, toSlug: string)
    requires fromSlug !in ProgLangSpecs || toSlug !in ProgLangSpecs
    ensures GetInitialPrompt(texts, fromSlug, toSlug).None?
  {
  }

  lemma InitialPromptTypeScript(texts: PromptTexts, slug: string)
    ensures GetInitialPrompt(texts, slug, "typescript").None?
    ensures GetInitialPrompt(texts, "typescript", slug).None?
  {
    RegisteredLanguages();
  }

  /** With the default texts, the prompt exists exactly for two different
      registered languages: every such pair has instructions, and there is no
      fallback for a language to itself. */
  lemma InitialPromptDefined(texts: PromptTexts, fromSlug: string, toSlug: string)
    requires DefaultShaped(texts)
    ensures GetInitialPrompt(texts, fromSlug, toSlug).Some? <==>
      fromSlug in ProgLangSpecs && toSlug in ProgLangSpecs && fromSlug != toSlug
  {
    RegisteredLanguages();
    if fromSlug in ProgLangSpecs && toSlug in ProgLangSpecs {
      var b := NameBindings(ProgLangSpecs[fromSlug].name, ProgLangSpecs[toSlug].name);
      assert AllBound(texts.start, b);
      PairKeys(fromSlug, toSlug);
    }
  }

  /** Among registered slugs, the instruction keys are exactly the pairs of
      different languages. */
  lemma PairKeys(fromSlug: string, toSlug: string)
    requires fromSlug in {"cpp", "csharp", "java", "python"}
    requires toSlug in {"cpp", "csharp", "java", "python"}
    ensures InstructionKey(fromSlug, toSlug) in InstructionKeys <==> fromSlug != toSlug
  {
    if fromSlug == "python" {
      PairKeysFromPython(toSlug);
    } else if fromSlug == "cpp" {
      PairKeysFromCpp(toSlug);
    } else if fromSlug == "java" {
      PairKeysFromJava(toSlug);
    } else {
      PairKeysFromCSharp(toSlug);
    }
  }

  lemma PairKeysFromPython(toSlug: string)
    requires toSlug in {"cpp", "csharp", "java", "python"}
    ensures InstructionKey("python", toSlug) in InstructionKeys <==> "python" != toSlug
  {
    if toSlug == "python" {
      assert InstructionKey("python", toSlug) == "python_to_python";
      NotAKey("python_to_python");
    } else if toSlug == "cpp" {
      assert InstructionKey("python", toSlug) == "python_to_cpp";
    } else if toSlug == "java" {
      assert InstructionKey("python", toSlug) == "python_to_java";
    } else {
      assert InstructionKey("python", toSlug) == "python_to_csharp";
    }
  }

  lemma PairKeysFromCpp(toSlug: string)
    requires toSlug in {"cpp", "csharp", "java", "python"}
    ensures InstructionKey("cpp", toSlug) in InstructionKeys <==> "cpp" != toSlug
  {
    if toSlug == "python" {
      assert InstructionKey("cpp", toSlug) == "cpp_to_python";
    } else if toSlug == "cpp" {
      assert InstructionKey("cpp", toSlug) == "cpp_to_cpp";
      NotAKey("cpp_to_cpp");
    } else if toSlug == "java" {
      assert InstructionKey("cpp", toSlug) == "cpp_to_java";
    } else {
      assert InstructionKey("cpp", toSlug) == "cpp_to_csharp";
    }
  }

  lemma PairKeysFromJava(toSlug: string)
    requires toSlug in {"cpp", "csharp", "java", "python"}
    ensures InstructionKey("java", toSlug) in InstructionKeys <==> "java" != toSlug
  {
    if toSlug == "python" {
      assert InstructionKey("java", toSlug) == "java_to_python";
    } else if toSlug == "cpp" {
      assert InstructionKey("java", toSlug) == "java_to_cpp";
    } else if toSlug == "java" {
      assert InstructionKey("java", toSlug) == "java_to_java";
      NotAKey("java_to_java");
    } else {
      assert InstructionKey("java", toSlug) == "java_to_csharp";
    }
  }

  lemma PairKeysFromCSharp(toSlug: string)
    requires toSlug in {"cpp", "csharp", "java", "python"}
    ensures InstructionKey("csharp", toSlug) in InstructionKeys <==> "csharp" != toSlug
  {
    if toSlug == "python" {
      assert InstructionKey("csharp", toSlug) == "csharp_to_python";
    } else if toSlug == "cpp" {
      assert InstructionKey("csharp", toSlug) == "csharp_to_cpp";
    } else if toSlug == "java" {
      assert InstructionKey("csharp", toSlug) == "csharp_to_java";
    } else {
      assert InstructionKey("csharp", toSlug) == "csharp_to_csharp";
      NotAKey("csharp_to_csharp");
    }
  }

  lemma NotAKey(key: string)
    requires key in {"python_to_python", "cpp_to_cpp", "java_to_java", "csharp_to_csharp"}
    ensures key !in InstructionKeys
  {
  }

  /** The formatted opening contains the binding of each of its fields. */
  lemma {:induction false} FormatContainsBinding(t: Template, b: map<string, string>, name: string)
    requires AllBound(t, b) && Field(name) in t
    ensures name in b && Contains(Format(t, b).value, b[name])
  {
    var rest := t[1..];
    assert AllBound(rest, b) by {
      assert forall i :: 0 <= i < |rest| ==> rest[i] == t[i + 1];
    }
    if t[0] == Field(name) {
      assert Format(t, b).value == b[name] + Format(rest, b).value;
      assert OccursAt(Format(t, b).value, b[name], 0);
      ContainsAt(Format(t, b).value, b[name], 0);
    } else {
      assert Field(name) in rest;
      FormatContainsBinding(rest, b, name);
      var r := Format(rest, b).value;
      ContainsOccurs(r, b[name]);
      var i: nat :| i <= |r| && OccursAt(r, b[name], i);
      var pre := Format(t, b).value[..|Format(t, b).value| - |r|];
      assert Format(t, b).value == pre + r;
      ContainsAfter(pre, r, b[name], i);
    }
  }

  lemma ContainsAfter(pre: string, s: string, sub: string, i: nat)
    requires OccursAt(s, sub, i)
    ensures Contains(pre + s, sub)
  {
    assert (pre + s)[|pre| + i..|pre| + i + |sub|] == s[i..i + |sub|];
    ContainsAt(pre + s, sub, |pre| + i);
  }

  lemma ContainsBefore(s: string, post: string, sub: string)
    requires Contains(s, sub)
    ensures Contains(s + post, sub)
  {
    ContainsOccurs(s, sub);
    var i: nat :| i <= |s| && OccursAt(s, sub, i);
    assert (s + post)[i..i + |sub|] == s[i..i + |sub|];
    ContainsAt(s + post, sub, i);
  }

  /** With the default texts, the prompt names both languages by their
      registered names: the C#-to-Python prompt contains "C#" and "Python". */
  lemma InitialPromptNamesLanguages(texts: PromptTexts, fromSlug: string, toSlug: string)
    requires DefaultShaped(texts)
    requires GetInitialPrompt(texts, fromSlug, toSlug).Some?
    ensures Contains(GetInitialPrompt(texts, fromSlug, toSlug).value, ProgLangSpecs[fromSlug].name)
    ensures Contains(GetInitialPrompt(texts, fromSlug, toSlug).value, ProgLangSpecs[toSlug].name)
  {
    var b := NameBindings(ProgLangSpecs[fromSlug].name, ProgLangSpecs[toSlug].name);
    var opening := Format(texts.start, b).value;
    var tail := texts.instructions[InstructionKey(fromSlug, toSlug)] + texts.end;
    assert GetInitialPrompt(texts, fromSlug, toSlug).value == opening + tail;
    FormatContainsBinding(texts.start, b, "from_lang");
    FormatContainsBinding(texts.start, b, "to_lang");
    ContainsBefore(opening, tail, b["from_lang"]);
    ContainsBefore(opening, tail, b["to_lang"]);
  }

  lemma CSharpToPythonPrompt(texts: PromptTexts)
    requires DefaultShaped(texts)
    ensures GetInitialPrompt(texts, "csharp", "python").Some?
    ensures Contains(GetInitialPrompt(texts, "csharp", "python").value, "C#")
    ensures Contains(GetInitialPrompt(texts, "csharp", "python").value, "Python")
  {
    InitialPromptDefined(texts, "csharp", "python");
    InitialPromptNamesLanguages(texts, "csharp", "python");
  }
}
