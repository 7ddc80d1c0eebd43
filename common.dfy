/** Values shared by the chunkers, the conversion sessions and the registries:
    optional results, conversation messages, models, format templates, paths
    and the handful of Python string operations the core relies on. */
module Common {

  datatype Option<+T> = None | Some(value: T)

  /** The two roles of a conversation turn. */
  datatype Role = User | Assistant

  /** One conversation turn. */
  datatype Message = Message(role: Role, content: string)

  /** A language-model backend: `id` is what the ledger and the transport see,
      `slug` is the short name used in output file names. */
  datatype Model = Model(id: string, slug: string)

  // ---------------------------------------------------------------------------
  // Concatenation

  /** `"".join(ss)` on strings; in general, flattening a sequence of sequences. */
  function Concat<T>(ss: seq<seq<T>>): seq<T>
  {
    if ss == [] then [] else ss[0] + Concat(ss[1..])
  }

  lemma {:induction false} ConcatAppend<T>(a: seq<seq<T>>, b: seq<seq<T>>)
    ensures Concat(a + b) == Concat(a) + Concat(b)
  {
    if a == [] {
      assert a + b == b;
    } else {
      assert (a + b)[0] == a[0];
      assert (a + b)[1..] == a[1..] + b;
      ConcatAppend(a[1..], b);
    }
  }

  /** Sequence concatenation is associative. */
  lemma AppendAssoc<T>(a: seq<T>, b: seq<T>, c: seq<T>)
    ensures a + (b + c) == (a + b) + c
  {
  }

  lemma ConcatSingle<T>(s: seq<T>)
    ensures Concat([s]) == s
  {
    assert [s][1..] == [];
  }

  lemma ConcatPair<T>(a: seq<T>, b: seq<T>)
    ensures Concat([a, b]) == a + b
  {
    assert [a, b][1..] == [b];
    ConcatSingle(b);
  }

  /** Concatenation of each group: the group [a, b] becomes a + b. */
  function ConcatEach<T>(gs: seq<seq<seq<T>>>): (r: seq<seq<T>>)
    ensures |r| == |gs|
    ensures forall k :: 0 <= k < |gs| ==> r[k] == Concat(gs[k])
  {
    seq(|gs|, k requires 0 <= k < |gs| => Concat(gs[k]))
  }

  lemma ConcatEachAppend<T>(a: seq<seq<seq<T>>>, b: seq<seq<seq<T>>>)
    ensures ConcatEach(a + b) == ConcatEach(a) + ConcatEach(b)
  {
  }

  /** Concatenating the concatenated groups is concatenating their flattening. */
  lemma {:induction false} ConcatOfConcatEach<T>(gs: seq<seq<seq<T>>>)
    ensures Concat(ConcatEach(gs)) == Concat(Concat(gs))
  {
    if gs != [] {
      assert ConcatEach(gs) == [Concat(gs[0])] + ConcatEach(gs[1..]);
      ConcatOfConcatEach(gs[1..]);
      ConcatAppend(gs[0], Concat(gs[1..]));
    }
  }

  /** `sep.join(ss)`. */
  function Join(ss: seq<string>, sep: string): string
  {
    if ss == [] then "" else if |ss| == 1 then ss[0] else ss[0] + sep + Join(ss[1..], sep)
  }

  // ---------------------------------------------------------------------------
  // Python string helpers

  predicate StartsWith(s: string, prefix: string)
  {
    |prefix| <= |s| && s[..|prefix|] == prefix
  }

  predicate OccursAt(s: string, sub: string, i: nat)
  {
    i + |sub| <= |s| && s[i..i + |sub|] == sub
  }

  /** Python's `sub in s`: `s` starts with `sub`, or its tail contains it. */
  predicate Contains(s: string, sub: string)
    decreases |s|
  {
    StartsWith(s, sub) || (s != [] && Contains(s[1..], sub))
  }

  /** An occurrence at any position is a containment. */
  lemma {:induction false} ContainsAt(s: string, sub: string, i: nat)
    requires OccursAt(s, sub, i)
    ensures Contains(s, sub)
    decreases i
  {
    if i == 0 {
      assert StartsWith(s, sub);
    } else {
      assert s[1..][i - 1..i - 1 + |sub|] == s[i..i + |sub|];
      ContainsAt(s[1..], sub, i - 1);
    }
  }

  /** `sub in s` exactly when `sub` occurs at some position of `s`. */
  lemma {:induction false} ContainsOccurs(s: string, sub: string)
    ensures Contains(s, sub) <==> exists i: nat | i <= |s| :: OccursAt(s, sub, i)
    decreases |s|
  {
    if Contains(s, sub) {
      if StartsWith(s, sub) {
        assert OccursAt(s, sub, 0);
      } else {
        ContainsOccurs(s[1..], sub);
        var j: nat :| j <= |s| - 1 && OccursAt(s[1..], sub, j);
        assert s[1..][j..j + |sub|] == s[j + 1..j + 1 + |sub|];
        assert OccursAt(s, sub, j + 1);
      }
    }
    if exists i: nat | i <= |s| :: OccursAt(s, sub, i) {
      var i: nat :| i <= |s| && OccursAt(s, sub, i);
      ContainsAt(s, sub, i);
    }
  }

  /** The characters Python's `str.isspace` accepts, which `str.strip()` removes. */
  predicate IsSpace(c: char)
  {
    c == ' ' || ('\t' <= c <= '\r') || ('\U{1c}' <= c <= '\U{1f}') ||
    c == '\U{85}' || c == '\U{a0}' || c == '\U{1680}' || ('\U{2000}' <= c <= '\U{200a}') ||
    c == '\U{2028}' || c == '\U{2029}' || c == '\U{202f}' || c == '\U{205f}' || c == '\U{3000}'
  }

  /** `s.lstrip()`: the suffix of `s` that starts at its first non-space character. */
  function LStrip(s: string): (r: string)
    ensures |r| <= |s|
  {
    if s == [] || !IsSpace(s[0]) then s else LStrip(s[1..])
  }

  /** `s.rstrip()`: the prefix of `s` that ends at its last non-space character. */
  function RStrip(s: string): (r: string)
    ensures |r| <= |s|
  {
    if s == [] || !IsSpace(s[|s| - 1]) then s else RStrip(s[..|s| - 1])
  }

  /** `s.strip()`. */
  function Strip(s: string): (r: string)
    ensures |r| <= |s|
  {
    RStrip(LStrip(s))
  }

  lemma LStripFacts(s: string)
    ensures var r := LStrip(s); r == s[|s| - |r|..] && (r == [] || !IsSpace(r[0]))
  {
  }

  lemma RStripFacts(s: string)
    ensures var r := RStrip(s); r == s[..|r|] && (r == [] || !IsSpace(r[|r| - 1]))
  {
  }

  /** A line with no whitespace at either end strips back to itself once
      its line break is removed. */
  lemma StripLine(s: string)
    requires s != [] && !IsSpace(s[0]) && !IsSpace(s[|s| - 1])
    ensures Strip(s + "\n") == s
  {
    var t := s + "\n";
    assert t[0] == s[0];
    assert LStrip(t) == t;
    assert t[..|t| - 1] == s;
    assert RStrip(t) == RStrip(s);
  }

  /** Stripping is idempotent: a stripped string has no surrounding whitespace left. */
  lemma StripIdempotent(s: string)
    ensures Strip(Strip(s)) == Strip(s)
  {
    var l := LStrip(s);
    var r := Strip(s);
    LStripFacts(s);
    RStripFacts(l);
    RStripFacts(r);
    if r != [] {
      assert r[0] == l[0];
    }
    assert LStrip(r) == r;
    assert RStrip(r) == r;
  }

  /** ASCII lowering, standing in for Python's `str.lower()`. */
  function Lower(s: string): (r: string)
    ensures |r| == |s|
  {
    if s == [] then [] else [LowerChar(s[0])] + Lower(s[1..])
  }

  /** Each character of the lowered text is the lowered character. */
  lemma {:induction false} LowerChars(s: string)
    ensures forall j :: 0 <= j < |s| ==> Lower(s)[j] == LowerChar(s[j])
  {
    if s != [] {
      LowerChars(s[1..]);
    }
  }

  function LowerChar(c: char): char
  {
    if 'A' <= c <= 'Z' then (c as int + 32) as char else c
  }

  /** Decimal rendering of a natural number, as Python's `str(n)`. */
  function NatToString(n: nat): (r: string)
    ensures r != []
    ensures forall j :: 0 <= j < |r| ==> '0' <= r[j] <= '9'
  {
    if n < 10 then ["0123456789"[n]] else NatToString(n / 10) + ["0123456789"[n % 10]]
  }

  // ---------------------------------------------------------------------------
  // Format templates

  /** A parsed `str.format` template: literal text and `{name}` replacement fields. */
  datatype Piece = Lit(text: string) | Field(name: string)

  type Template = seq<Piece>

  predicate AllBound(t: Template, bindings: map<string, string>)
  {
    forall i :: 0 <= i < |t| && t[i].Field? ==> t[i].name in bindings
  }

  /** `t.format(**bindings)`: fails (Python raises KeyError) when a field has no binding. */
  function Format(t: Template, bindings: map<string, string>): (r: Option<string>)
    ensures r.Some? <==> AllBound(t, bindings)
  {
    if t == [] then Some("")
    else
      var rest := Format(t[1..], bindings);
      assert AllBound(t, bindings) <==> (t[0].Field? ==> t[0].name in bindings) && AllBound(t[1..], bindings) by {
        assert forall i :: 1 <= i < |t| ==> t[i] == t[1..][i - 1];
      }
      match t[0]
      case Lit(text) => if rest.None? then None else Some(text + rest.value)
      case Field(name) =>
        if name !in bindings || rest.None? then None else Some(bindings[name] + rest.value)
  }

  /** A template with one `{chunk}` field between two literal texts. */
  function ChunkTemplate(prefix: string, suffix: string): Template
  {
    [Lit(prefix), Field("chunk"), Lit(suffix)]
  }

  lemma FormatChunkTemplate(prefix: string, suffix: string, chunk: string)
    ensures Format(ChunkTemplate(prefix, suffix), map["chunk" := chunk]) == Some(prefix + chunk + suffix)
  {
    var t := ChunkTemplate(prefix, suffix);
    var b := map["chunk" := chunk];
    assert t[1..][1..] == [Lit(suffix)] && t[1..][1..][1..] == [];
    assert Format(t[1..][1..], b) == Some(suffix + "");
    assert Format(t[1..], b) == Some(chunk + (suffix + ""));
    assert Format(t, b) == Some(prefix + (chunk + (suffix + "")));
    assert prefix + (chunk + (suffix + "")) == prefix + chunk + suffix;
  }

  // ---------------------------------------------------------------------------
  // Paths (POSIX pathlib)

  /** A path as its parent directory's text and its final component. */
  datatype Path = Path(dir: string, name: string)

  /** What `str(path)` puts between the parent and the name: nothing for
      the empty parent or one that already ends in a slash, else a slash. */
  function Separator(dir: string): string
  {
    if dir == [] || dir[|dir| - 1] == '/' then "" else "/"
  }

  /** `str(path)`. */
  function PathString(p: Path): string
  {
    p.dir + Separator(p.dir) + p.name
  }

  /** `s.rfind(c)`: the last index of `c` in `s`, or -1. */
  function RFind(s: string, c: char): (i: int)
    ensures -1 <= i < |s|
    ensures 0 <= i ==> s[i] == c
    ensures forall j :: i < j < |s| ==> s[j] != c
  {
    if s == [] then -1 else if s[|s| - 1] == c then |s| - 1 else RFind(s[..|s| - 1], c)
  }

  /** `PurePath.suffix`: from the last dot on, unless that dot leads or ends the name. */
  function Suffix(name: string): (r: string)
    ensures r == [] || (|r| < |name| && r == name[|name| - |r|..] && r[0] == '.')
    ensures r != [] ==> |r| >= 2 && forall k :: 1 <= k < |r| ==> r[k] != '.'
  {
    var i := RFind(name, '.');
    if 0 < i < |name| - 1 then name[i..] else ""
  }

  /** A name without a dot, a name ending in a dot, and a name whose only
      dot leads it have no suffix. */
  lemma NoSuffix(name: string)
    requires || (forall k :: 0 <= k < |name| ==> name[k] != '.')
             || (name != [] && name[|name| - 1] == '.')
             || (name != [] && name[0] == '.' && forall k :: 0 < k < |name| ==> name[k] != '.')
    ensures Suffix(name) == ""
  {
  }

  /** A name made of a non-empty stem and one extension (a dot followed by at
      least one character and no further dot) has that extension as suffix. */
  lemma SuffixOf(stem: string, ext: string)
    requires stem != [] && |ext| >= 2 && ext[0] == '.'
    requires forall k :: 1 <= k < |ext| ==> ext[k] != '.'
    ensures Suffix(stem + ext) == ext
    ensures (stem + ext)[..|stem + ext| - |ext|] == stem
  {
    var name := stem + ext;
    var i := RFind(name, '.');
    assert name[|stem|] == '.';
    assert forall j :: |stem| < j < |name| ==> name[j] == ext[j - |stem|];
    assert i == |stem|;
    assert name[i..] == ext;
    assert name[..|stem|] == stem;
  }

  /** `PurePath.with_suffix(suffix)`; None where Python raises ValueError. */
  function WithSuffix(p: Path, suffix: string): (r: Option<Path>)
    ensures r.Some? <==>
      p.name != [] && '/' !in suffix && suffix != "." && (suffix == [] || suffix[0] == '.')
    ensures r.Some? ==> r.value.dir == p.dir
    ensures r.Some? ==> r.value.name == p.name[..|p.name| - |Suffix(p.name)|] + suffix
  {
    if '/' in suffix || (suffix != [] && suffix[0] != '.') || suffix == "." then None
    else if p.name == [] then None
    else
      var oldSuffix := Suffix(p.name);
      Some(Path(p.dir, p.name[..|p.name| - |oldSuffix|] + suffix))
  }
}
