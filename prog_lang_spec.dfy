/** The language registry: for each supported language its slug, display
    name, file pattern and suffix, and the slugs that have an example
    conversion body. */
module ProgLangRegistry {
  import opened Common

  /** One registered programming language. */
  datatype ProgLangSpec = ProgLangSpec(slug: string, name: string, globPattern: string, suffix: string)

  /** `prog_lang_specs`, keyed by slug. */
  const ProgLangSpecs: map<string, ProgLangSpec> := map[
    "cpp" := ProgLangSpec("cpp", "C++", "*.cpp", ".cpp"),
    "csharp" := ProgLangSpec("csharp", "C#", "*.cs", ".cs"),
    "java" := ProgLangSpec("java", "Java", "*.java", ".java"),
    "python" := ProgLangSpec("python", "Python", "*.py", ".py")
  ]

  /** The slugs of `prog_lang_conversions`: each has one example slide body,
      the same small program written in that language. The bodies themselves
      are carried as opaque text by the sessions that use them. */
  const ConversionSlugs: set<string> := {"cpp", "csharp", "java", "python"}

  /** The display name of a registered slug; None where Python raises KeyError. */
  function LangName(slug: string): (r: Option<string>)
    ensures r.Some? <==> slug in ProgLangSpecs
    ensures r.Some? ==> r.value == ProgLangSpecs[slug].name
  {
    if slug in ProgLangSpecs then Some(ProgLangSpecs[slug].name) else None
  }

  /** The file suffix of a registered slug; None where Python raises KeyError. */
  function LangSuffix(slug: string): (r: Option<string>)
    ensures r.Some? <==> slug in ProgLangSpecs
    ensures r.Some? ==> r.value == ProgLangSpecs[slug].suffix
  {
    if slug in ProgLangSpecs then Some(ProgLangSpecs[slug].suffix) else None
  }

  /** Every entry is keyed by its own slug, its file pattern is "*" followed by
      its suffix, and its suffix is a dot followed by a non-empty extension. */
  lemma RegistryConsistent()
    ensures forall k :: k in ProgLangSpecs ==> ProgLangSpecs[k].slug == k
    ensures forall k :: k in ProgLangSpecs ==> ProgLangSpecs[k].globPattern == "*" + ProgLangSpecs[k].suffix
    ensures forall k :: k in ProgLangSpecs ==>
      |ProgLangSpecs[k].suffix| > 1 && ProgLangSpecs[k].suffix[0] == '.'
  {
    assert ProgLangSpecs.Keys == {"cpp", "csharp", "java", "python"};
  }

  /** Exactly four languages are registered, TypeScript is not among them,
      and the example conversions cover exactly the registered languages. */
  lemma RegisteredLanguages()
    ensures ProgLangSpecs.Keys == {"cpp", "csharp", "java", "python"}
    ensures "typescript" !in ProgLangSpecs
    ensures ConversionSlugs == ProgLangSpecs.Keys
    ensures |ProgLangSpecs| == 4
  {
    assert ProgLangSpecs.Keys == {"cpp", "csharp", "java", "python"};
  }

  /** C# files end in ".cs", the suffix every converted file name ends with. */
  lemma CSharpSuffix()
    ensures LangSuffix("csharp") == Some(".cs")
  {
  }
}
