/** The older stand-alone conversion script: its own chunker, its own
    session per (file, model) and the batch loop that selects the files. */
module LegacyConverter {
  import opened Common
  import opened Conversation
  import opened Storage

  const MaxChunkSize: nat := 8192

  // ---------------------------------------------------------------------------
  // Lines

  /** The text of `lines` with a '\n' after each one. */
  function Text(lines: seq<string>): string
  {
    if lines == [] then "" else lines[0] + "\n" + Text(lines[1..])
  }

  lemma {:induction false} TextAppend(a: seq<string>, b: seq<string>)
    ensures Text(a + b) == Text(a) + Text(b)
  {
    if a != [] {
      assert (a + b)[0] == a[0] && (a + b)[1..] == a[1..] + b;
      TextAppend(a[1..], b);
    } else {
      assert a + b == b;
    }
  }

  /** Each line adds at least its '\n', so only no lines give no text. */
  lemma TextEmpty(lines: seq<string>)
    ensures Text(lines) == "" <==> lines == []
  {
    if lines != [] {
      assert |Text(lines)| >= |lines[0]| + 1;
    }
  }

  lemma TextSingle(line: string)
    ensures Text([line]) == line + "\n"
  {
    assert [line][1..] == [];
  }

  /** `content.split("\n")`: the pieces between line breaks, at least one. */
  function SplitOnNewline(s: string): (parts: seq<string>)
    ensures |parts| >= 1
    ensures forall i :: 0 <= i < |parts| ==> '\n' !in parts[i]
    ensures Text(parts) == s + "\n"
  {
    if s == [] then
      TextSingle("");
      [""]
    else
      var r := SplitOnNewline(s[1..]);
      if s[0] == '\n' then
        assert ([""] + r)[1..] == r;
        assert s == "\n" + s[1..];
        [""] + r
      else
        var first := [s[0]] + r[0];
        assert ([first] + r[1..])[1..] == r[1..];
        assert Text([first] + r[1..]) == first + "\n" + Text(r[1..]);
        assert Text(r) == r[0] + "\n" + Text(r[1..]);
        assert first + "\n" + Text(r[1..]) == [s[0]] + (r[0] + "\n" + Text(r[1..]));
        assert s + "\n" == [s[0]] + (s[1..] + "\n");
        [first] + r[1..]
  }

  /** A text without line breaks is one line. */
  lemma {:induction false} SplitSingleLine(s: string)
    requires '\n' !in s
    ensures SplitOnNewline(s) == [s]
  {
    if s != [] {
      SplitSingleLine(s[1..]);
      assert [s[0]] + s[1..] == s;
    }
  }

  /** A line that starts, at column 0, with "# %%" or "// %%". */
  predicate IsColumnZeroMarker(line: string)
  {
    StartsWith(line, "# %%") || StartsWith(line, "// %%")
  }

  // ---------------------------------------------------------------------------
  // The chunker

  /** One line of `split_into_chunks` with the open piece `cur`: the pieces it
      closes and the piece it leaves open. A marker line that would not fit
      closes `cur` (even when `cur` is empty); the line is then added, and a
      piece that reached `max` is closed after it. */
  function CutStep(max: int, cur: seq<string>, line: string): (seq<seq<string>>, seq<string>)
  {
    var markerCut := |Text(cur)| + |line| + 1 > max && IsColumnZeroMarker(line);
    var closed := if markerCut then [cur] else [];
    var next := (if markerCut then [] else cur) + [line];
    if |Text(next)| >= max then (closed + [next], []) else (closed, next)
  }

  /** The pieces, as groups of lines, made of the remaining `lines`. */
  function CutGroups(max: int, cur: seq<string>, lines: seq<string>): seq<seq<string>>
    decreases |lines|
  {
    if lines == [] then (if cur != [] then [cur] else [])
    else
      var step := CutStep(max, cur, lines[0]);
      step.0 + CutGroups(max, step.1, lines[1..])
  }

  /** The stripped text of each group. */
  function StripEach(gs: seq<seq<string>>): (r: seq<string>)
    ensures |r| == |gs|
    ensures forall k :: 0 <= k < |gs| ==> r[k] == Strip(Text(gs[k]))
  {
    seq(|gs|, k requires 0 <= k < |gs| => Strip(Text(gs[k])))
  }

  /** The raw text of each group, before stripping. */
  function TextEach(gs: seq<seq<string>>): (r: seq<string>)
    ensures |r| == |gs|
    ensures forall k :: 0 <= k < |gs| ==> r[k] == Text(gs[k])
  {
    seq(|gs|, k requires 0 <= k < |gs| => Text(gs[k]))
  }

  function LegacyGroups(content: string, max: int): seq<seq<string>>
  {
    CutGroups(max, [], SplitOnNewline(content))
  }

  /** The chunks of the old script. */
  function LegacyChunks(content: string, max: int): seq<string>
  {
    StripEach(LegacyGroups(content, max))
  }

  /** The step on texts, as the loop computes it with a string accumulator. */
  lemma CutStepText(max: int, cur: seq<string>, line: string)
    ensures var step := CutStep(max, cur, line);
      var markerCut := |Text(cur)| + |line| + 1 > max && IsColumnZeroMarker(line);
      var grown := (if markerCut then "" else Text(cur)) + line + "\n";
      && Text(step.1) == (if |grown| >= max then "" else grown)
      && StripEach(step.0) ==
           (if markerCut then [Strip(Text(cur))] else []) + (if |grown| >= max then [Strip(grown)] else [])
  {
    var step := CutStep(max, cur, line);
    var markerCut := |Text(cur)| + |line| + 1 > max && IsColumnZeroMarker(line);
    var base := if markerCut then [] else cur;
    var next := base + [line];
    var grown := (if markerCut then "" else Text(cur)) + line + "\n";
    TextAppend(base, [line]);
    TextSingle(line);
    assert Text(next) == grown;
    var closed: seq<seq<string>> := if markerCut then [cur] else [];
    assert StripEach(closed) == if markerCut then [Strip(Text(cur))] else [] by {
      StripEachSingle(cur);
    }
    if |grown| >= max {
      assert step == (closed + [next], []);
      StripEachAppend(closed, [next]);
      StripEachSingle(next);
    } else {
      assert step == (closed, next);
    }
  }

  lemma StripEachSingle(g: seq<string>)
    ensures StripEach([g]) == [Strip(Text(g))]
  {
  }

  lemma CutGroupsStep(max: int, closed: seq<seq<string>>, open: seq<string>, lines: seq<string>, i: nat)
    requires i < |lines|
    requires closed + CutGroups(max, open, lines[i..]) == CutGroups(max, [], lines)
    ensures var step := CutStep(max, open, lines[i]);
      closed + step.0 + CutGroups(max, step.1, lines[i + 1..]) == CutGroups(max, [], lines)
  {
    assert lines[i..][1..] == lines[i + 1..];
  }

  lemma StripEachAppend(a: seq<seq<string>>, b: seq<seq<string>>)
    ensures StripEach(a + b) == StripEach(a) + StripEach(b)
  {
  }

  /** One line of the loop of `split_into_chunks`: the stripped chunks it
      closes and the text it leaves open, from the text open before it. */
  method CutLine(max: int, current: string, line: string, ghost open: seq<string>)
    returns (emitted: seq<string>, next: string)
    requires current == Text(open)
    ensures emitted == StripEach(CutStep(max, open, line).0)
    ensures next == Text(CutStep(max, open, line).1)
  {
    CutStepText(max, open, line);
    emitted := [];
    next := current;
    if |current| + |line| + 1 > max && IsColumnZeroMarker(line) {
      emitted := [Strip(current)];
      next := "";
    }
    next := next + line + "\n";
    if |next| >= max {
      emitted := emitted + [Strip(next)];
      next := "";
    }
  }

  /** `split_into_chunks` of the old script. */
  method SplitIntoChunks(content: string, max: int) returns (chunks: seq<string>)
    ensures chunks == LegacyChunks(content, max)
  {
    var lines := SplitOnNewline(content);
    chunks := [];
    var current := "";
    ghost var open: seq<string> := [];
    ghost var closed: seq<seq<string>> := [];
    var i := 0;
    while i < |lines|
      invariant 0 <= i <= |lines|
      invariant current == Text(open)
      invariant chunks == StripEach(closed)
      invariant closed + CutGroups(max, open, lines[i..]) == CutGroups(max, [], lines)
    {
      var line := lines[i];
      ghost var step := CutStep(max, open, line);
      CutGroupsStep(max, closed, open, lines, i);
      StripEachAppend(closed, step.0);
      var emitted;
      emitted, current := CutLine(max, current, line, open);
      chunks := chunks + emitted;
      closed := closed + step.0;
      open := step.1;
      i := i + 1;
    }
    assert lines[i..] == [];
    TextEmpty(open);
    if current != "" {
      assert open != [];
      chunks := chunks + [Strip(current)];
      StripEachAppend(closed, [open]);
    }
  }

  // ---------------------------------------------------------------------------
  // Properties of the chunker

  /** Every chunk is stripped: stripping it again changes nothing. */
  lemma LegacyChunksStripped(content: string, max: int)
    ensures forall k :: 0 <= k < |LegacyChunks(content, max)| ==>
      Strip(LegacyChunks(content, max)[k]) == LegacyChunks(content, max)[k]
  {
    var gs := LegacyGroups(content, max);
    forall k | 0 <= k < |gs|
      ensures Strip(Strip(Text(gs[k]))) == Strip(Text(gs[k]))
    {
      StripIdempotent(Text(gs[k]));
    }
  }

  /** With a line still to come or a piece still open there is a piece. */
  lemma {:induction false} CutGroupsNonEmpty(max: int, cur: seq<string>, lines: seq<string>)
    requires cur != [] || lines != []
    ensures CutGroups(max, cur, lines) != []
    decreases |lines|
  {
    if lines != [] {
      var step := CutStep(max, cur, lines[0]);
      if step.0 == [] {
        assert step.1 != [];
        CutGroupsNonEmpty(max, step.1, lines[1..]);
      }
    }
  }

  /** The result is never the empty list; empty content gives one empty chunk. */
  lemma LegacyChunksNeverEmpty(content: string, max: int)
    ensures |LegacyChunks(content, max)| >= 1
    ensures content == "" ==> LegacyChunks(content, max) == [""]
  {
    CutGroupsNonEmpty(max, [], SplitOnNewline(content));
    if content == "" {
      var lines := SplitOnNewline(content);
      assert lines == [""];
      var step := CutStep(max, [], "");
      TextSingle("");
      assert !IsColumnZeroMarker("");
      assert Text([]) == "";
      assert [] + [""] == [""];
      if max <= 1 {
        assert |Text([""])| >= max;
        assert step.0 == [] + [[""]] == [[""]];
        assert step.1 == [];
      } else {
        assert step == ([], [""]);
      }
      assert CutGroups(max, [], lines) == step.0 + CutGroups(max, step.1, []);
      assert LegacyGroups(content, max) == [[""]];
      assert Strip("\n") == "";
    }
  }

  /** One step keeps every line in order: closed pieces then the open one. */
  lemma CutStepPartition(max: int, cur: seq<string>, line: string)
    ensures var step := CutStep(max, cur, line); Concat(step.0) + step.1 == cur + [line]
  {
    var markerCut := |Text(cur)| + |line| + 1 > max && IsColumnZeroMarker(line);
    var base := if markerCut then [] else cur;
    var next := base + [line];
    if markerCut {
      if |Text(next)| >= max { ConcatPair(cur, next); } else { ConcatSingle(cur); }
    } else {
      if |Text(next)| >= max { ConcatSingle(next); }
    }
  }

  /** The pieces, as lines, are the open piece followed by the remaining lines. */
  lemma {:induction false} CutGroupsPartition(max: int, cur: seq<string>, lines: seq<string>)
    ensures Concat(CutGroups(max, cur, lines)) == cur + lines
    decreases |lines|
  {
    if lines == [] {
      if cur != [] { ConcatSingle(cur); }
    } else {
      var step := CutStep(max, cur, lines[0]);
      var rest := CutGroups(max, step.1, lines[1..]);
      CutGroupsCons(max, cur, lines);
      CutStepPartition(max, cur, lines[0]);
      CutGroupsPartition(max, step.1, lines[1..]);
      ConcatAppend(step.0, rest);
      AppendAssoc(Concat(step.0), step.1, lines[1..]);
      assert lines == [lines[0]] + lines[1..];
      AppendAssoc(cur, [lines[0]], lines[1..]);
    }
  }

  /** The pieces of a non-empty run of lines: those its first step closes,
      then the pieces of the rest. */
  lemma CutGroupsCons(max: int, cur: seq<string>, lines: seq<string>)
    requires lines != []
    ensures CutGroups(max, cur, lines) ==
      CutStep(max, cur, lines[0]).0 + CutGroups(max, CutStep(max, cur, lines[0]).1, lines[1..])
  {
  }

  lemma {:induction false} TextOfConcat(gs: seq<seq<string>>)
    ensures Text(Concat(gs)) == Concat(TextEach(gs))
  {
    if gs != [] {
      assert TextEach(gs) == [Text(gs[0])] + TextEach(gs[1..]);
      TextOfConcat(gs[1..]);
      TextAppend(gs[0], Concat(gs[1..]));
    }
  }

  /** Before stripping, the pieces concatenate to the content plus '\n'. */
  lemma LegacyPiecesConcat(content: string, max: int)
    ensures Concat(TextEach(LegacyGroups(content, max))) == content + "\n"
  {
    var lines := SplitOnNewline(content);
    CutGroupsPartition(max, [], lines);
    assert [] + lines == lines;
    TextOfConcat(LegacyGroups(content, max));
  }

  /** All lines of a piece but its last fit below the limit. */
  predicate Fits(max: int, g: seq<string>)
  {
    |g| <= 1 || |Text(g[..|g| - 1])| < max
  }

  /** Why `g` was closed before `h`: it reached the limit, or `h` starts with
      a column-0 marker that would have taken it over the limit. */
  predicate CutBetween(max: int, g: seq<string>, h: seq<string>)
  {
    |Text(g)| >= max || (h != [] && IsColumnZeroMarker(h[0]) && |Text(g)| + |h[0]| + 1 > max)
  }

  /** No line after the first of `g` is a column-0 marker that would have
      taken the lines before it over the limit: such a line would have
      started a piece of its own. */
  predicate NoMissedCut(max: int, g: seq<string>)
  {
    forall j :: 0 < j < |g| ==> !(IsColumnZeroMarker(g[j]) && |Text(g[..j])| + |g[j]| + 1 > max)
  }

  predicate CutRules(max: int, gs: seq<seq<string>>)
  {
    && (forall k :: 0 <= k < |gs| ==> Fits(max, gs[k]) && NoMissedCut(max, gs[k]))
    && (forall k :: 0 <= k < |gs| - 1 ==> CutBetween(max, gs[k], gs[k + 1]))
  }

  predicate OpenOk(max: int, cur: seq<string>)
  {
    (cur == [] || |Text(cur)| < max) && NoMissedCut(max, cur)
  }

  /** A line that the marker rule lets join the open piece keeps it free of
      missed cuts. */
  lemma NoMissedCutGrow(max: int, cur: seq<string>, line: string)
    requires NoMissedCut(max, cur)
    requires cur != [] ==> !(IsColumnZeroMarker(line) && |Text(cur)| + |line| + 1 > max)
    ensures NoMissedCut(max, cur + [line])
  {
    var g := cur + [line];
    forall j | 0 < j < |g|
      ensures !(IsColumnZeroMarker(g[j]) && |Text(g[..j])| + |g[j]| + 1 > max)
    {
      if j < |cur| {
        assert g[..j] == cur[..j] && g[j] == cur[j];
      } else {
        assert g[..j] == cur && g[j] == line;
      }
    }
  }

  lemma CutRulesAppend(max: int, a: seq<seq<string>>, b: seq<seq<string>>)
    requires CutRules(max, a) && CutRules(max, b)
    requires a != [] && b != [] ==> CutBetween(max, a[|a| - 1], b[0])
    ensures CutRules(max, a + b)
  {
    var ab := a + b;
    forall k | 0 <= k < |ab| - 1
      ensures CutBetween(max, ab[k], ab[k + 1])
    {
      if k < |a| - 1 {
        assert ab[k] == a[k] && ab[k + 1] == a[k + 1];
      } else if k == |a| - 1 {
        assert ab[k] == a[|a| - 1] && ab[k + 1] == b[0];
      } else {
        assert ab[k] == b[k - |a|] && ab[k + 1] == b[k - |a| + 1];
      }
    }
  }

  lemma TextPrefixFits(max: int, base: seq<string>, line: string)
    requires OpenOk(max, base)
    ensures Fits(max, base + [line])
  {
    assert (base + [line])[..|base|] == base;
  }

  lemma OpenFits(max: int, cur: seq<string>)
    requires OpenOk(max, cur)
    ensures Fits(max, cur)
  {
    if cur != [] {
      var init := cur[..|cur| - 1];
      assert cur == init + [cur[|cur| - 1]];
      TextAppend(init, [cur[|cur| - 1]]);
    }
  }

  /** Every piece a step closes, and the piece it leaves open, is free of
      missed cuts. */
  lemma CutStepNoMissed(max: int, cur: seq<string>, line: string)
    requires NoMissedCut(max, cur)
    ensures var step := CutStep(max, cur, line);
      && (forall k :: 0 <= k < |step.0| ==> NoMissedCut(max, step.0[k]))
      && NoMissedCut(max, step.1)
  {
    var markerCut := |Text(cur)| + |line| + 1 > max && IsColumnZeroMarker(line);
    var base := if markerCut then [] else cur;
    NoMissedCutGrow(max, base, line);
  }

  /** The pieces closed by one step obey the rules among themselves and the
      open piece stays below the limit. */
  lemma CutStepClosed(max: int, cur: seq<string>, line: string)
    requires OpenOk(max, cur)
    ensures var step := CutStep(max, cur, line);
      CutRules(max, step.0) && OpenOk(max, step.1)
  {
    var step := CutStep(max, cur, line);
    var markerCut := |Text(cur)| + |line| + 1 > max && IsColumnZeroMarker(line);
    var base := if markerCut then [] else cur;
    var next := base + [line];
    TextPrefixFits(max, base, line);
    OpenFits(max, cur);
    CutStepNoMissed(max, cur, line);
    if markerCut && |Text(next)| >= max {
      assert step.0 == [cur, next];
      TextSingle(line);
      assert CutBetween(max, cur, next);
    }
  }

  /** The next piece to close starts with the line when the step leaves it
      open, and otherwise the open piece began the closed one. */
  lemma CutStepShape(max: int, cur: seq<string>, line: string)
    ensures var step := CutStep(max, cur, line);
      && (step.1 != [] ==> step.1[|step.1| - 1] == line)
      && (step.0 != [] && step.1 == [] ==> |Text(step.0[|step.0| - 1])| >= max)
      && (step.0 != [] && step.1 != [] ==>
            (step.1 == [line] && CutBetween(max, step.0[|step.0| - 1], step.1)))
      && (step.0 == [] ==> step.1 == cur + [line])
      && (cur != [] && step.0 != [] ==> |cur| <= |step.0[0]| && step.0[0][..|cur|] == cur)
  {
    var markerCut := |Text(cur)| + |line| + 1 > max && IsColumnZeroMarker(line);
    var base := if markerCut then [] else cur;
    var next := base + [line];
    assert next[..|base|] == base;
    if markerCut {
      TextSingle(line);
    }
  }

  /** The pieces closed by one step obey the rules among themselves, the
      open piece stays below the limit, and the next piece to close starts
      with the line when the step leaves it open. */
  lemma CutStepRules(max: int, cur: seq<string>, line: string)
    requires OpenOk(max, cur)
    ensures var step := CutStep(max, cur, line);
      && CutRules(max, step.0)
      && OpenOk(max, step.1)
      && (step.1 != [] ==> step.1[|step.1| - 1] == line)
      && (step.0 != [] && step.1 == [] ==> |Text(step.0[|step.0| - 1])| >= max)
      && (step.0 != [] && step.1 != [] ==>
            (step.1 == [line] && CutBetween(max, step.0[|step.0| - 1], step.1)))
      && (step.0 == [] ==> step.1 == cur + [line])
      && (cur != [] && step.0 != [] ==> |cur| <= |step.0[0]| && step.0[0][..|cur|] == cur)
  {
    CutStepClosed(max, cur, line);
    CutStepShape(max, cur, line);
  }

  lemma StartsWithLine(max: int, g: seq<string>, line: string, h: seq<string>)
    requires CutBetween(max, g, [line])
    requires h != [] && h[0] == line
    ensures CutBetween(max, g, h)
  {
  }

  /** The cut rules hold for all pieces, and a piece still open is the
      beginning of the next piece. */
  lemma {:induction false} CutGroupsRules(max: int, cur: seq<string>, lines: seq<string>)
    requires OpenOk(max, cur)
    ensures var gs := CutGroups(max, cur, lines);
      && CutRules(max, gs)
      && (cur != [] ==> gs != [] && |cur| <= |gs[0]| && gs[0][..|cur|] == cur)
    decreases |lines|
  {
    var gs := CutGroups(max, cur, lines);
    if lines == [] {
      OpenFits(max, cur);
      if cur != [] { assert gs == [cur]; }
    } else {
      var line := lines[0];
      var step := CutStep(max, cur, line);
      var rest := CutGroups(max, step.1, lines[1..]);
      CutStepRules(max, cur, line);
      CutGroupsRules(max, step.1, lines[1..]);
      assert gs == step.0 + rest;
      if step.0 != [] && rest != [] {
        var last := step.0[|step.0| - 1];
        if step.1 != [] {
          assert rest[0][..1] == [line];
          StartsWithLine(max, last, line, rest[0]);
        }
      }
      CutRulesAppend(max, step.0, rest);
      if cur != [] && step.0 == [] {
        assert rest[0][..|cur|] == (rest[0][..|cur| + 1])[..|cur|];
      }
    }
  }

  /** The cut rules of the pieces the chunks are stripped from. */
  lemma LegacyCutRules(content: string, max: int)
    ensures CutRules(max, LegacyGroups(content, max))
  {
    CutGroupsRules(max, [], SplitOnNewline(content));
  }

  /** A marker line that does not fit even alone closes the empty open piece
      first, so the chunks start with an empty one. */
  lemma EmptyChunkFirst(line: string, max: int)
    requires '\n' !in line && IsColumnZeroMarker(line) && |line| + 1 > max
    ensures LegacyChunks(line, max) == ["", Strip(line + "\n")]
  {
    var lines := SplitOnNewline(line);
    SplitSingleLine(line);
    TextSingle(line);
    var step := CutStep(max, [], line);
    assert Text([]) == "";
    assert [] + [line] == [line];
    assert |Text([line])| >= max;
    assert step.0 == [[]] + [[line]] == [[], [line]];
    assert step.1 == [];
    assert CutGroups(max, [], lines) == step.0 + CutGroups(max, [], []);
    assert Strip(Text([])) == "";
  }

  /** For instance a six-character marker line with a limit of 4. */
  lemma EmptyChunkExample(content: string)
    requires content == "# %%ab"
    ensures LegacyChunks(content, 4) == ["", content]
  {
    assert content[..4] == "# %%";
    assert '\n' !in content;
    EmptyChunkFirst(content, 4);
    StripLine(content);
  }

  // ---------------------------------------------------------------------------
  // One file with one model

  /** What `process_file` does with one file and one model. */
  datatype FileResult =
    | AlreadyConverted  // the ledger has the pair and reprocessing is off
    | Raised            // an exception leaves `process_file`
    | Abandoned         // a chunk failed: returned without writing
    | Incomplete        // fewer converted chunks than chunks
    | Written(out: Path)

  /** The session of the old script: the initial prompt, its acknowledgement,
      then one user/assistant pair per chunk. None when the acknowledgement
      fails, which nothing catches. */
  function LegacySession(provider: Provider, modelId: string, initialPrompt: string,
                         prompt: Template, chunks: seq<string>): Option<Run>
  {
    var h := [Message(User, initialPrompt)];
    match provider(modelId, h)
    case None => None
    case Some(ack) => Some(ConvertRun(provider, modelId, prompt, h + [Message(Assistant, ack)], chunks))
  }

  /** The suffix the output file gets in place of the input's last one. */
  function OutputSuffix(modelSuffix: string): string
  {
    "." + modelSuffix + ".cs"
  }

  /** The result of `process_file`, with the ledger rows and the files after it. */
  function ProcessFileSpec(rows: set<(string, string)>, files: map<Path, string>, path: Path,
                           model: Model, reprocess: bool, provider: Provider,
                           initialPrompt: string, prompt: Template)
    : (FileResult, set<(string, string)>, map<Path, string>)
  {
    if (path.name, model.id) in rows && !reprocess then (AlreadyConverted, rows, files)
    else if path !in files then (Raised, rows, files)
    else
      match LegacySession(provider, model.id, initialPrompt, prompt,
                          LegacyChunks(files[path], MaxChunkSize))
      case None => (Raised, rows, files)
      case Some(run) =>
        if !run.ok then (Abandoned, rows, files)
        else
          match WithSuffix(path, OutputSuffix(model.slug))
          case None => (Raised, rows, files)
          case Some(out) =>
            (Written(out), rows + {(path.name, model.id)}, files[out := Join(run.replies, "\n\n")])
  }

  /** The loop of `process_file` over the chunks: each chunk is formatted
      into the prompt and sent with everything said so far; the first chunk
      that cannot be formatted, or whose call fails, abandons the rest. */
  method ConvertChunks(provider: Provider, modelId: string, prompt: Template,
                       history: seq<Message>, chunks: seq<string>)
    returns (converted: seq<string>, messages: seq<Message>, ok: bool)
    ensures Run(messages, converted, ok) == ConvertRun(provider, modelId, prompt, history, chunks)
  {
    ghost var target := ConvertRun(provider, modelId, prompt, history, chunks);
    messages := history;
    converted := [];
    var i := 0;
    while i < |chunks|
      invariant 0 <= i <= |chunks|
      invariant RunRest(ConvertRun(provider, modelId, prompt, messages, chunks[i..]), converted, target)
    {
      ghost var before := messages;
      ConvertRunOne(provider, modelId, prompt, messages, chunks[i]);
      var user := Format(prompt, ChunkBinding(chunks[i]));
      if user.None? {
        RunRestStep(provider, modelId, prompt, chunks, i, before, converted, target, messages, None);
        return converted, messages, false;
      }
      messages := messages + [Message(User, user.value)];
      var reply := provider(modelId, messages);
      if reply.None? {
        RunRestStep(provider, modelId, prompt, chunks, i, before, converted, target, messages, None);
        return converted, messages, false;
      }
      messages := messages + [Message(Assistant, reply.value)];
      RunRestStep(provider, modelId, prompt, chunks, i, before, converted, target, messages, reply);
      converted := converted + [reply.value];
      i := i + 1;
    }
    assert chunks[i..] == [];
    return converted, messages, true;
  }

  /** `process_file`: skips a pair the ledger already has unless reprocessing,
      converts the chunks in one conversation, and on success writes the
      replies joined by blank lines next to the input and records the pair. */
  method ProcessFile(path: Path, model: Model, reprocess: bool, provider: Provider,
                     initialPrompt: string, prompt: Template, ledger: Ledger, store: FileStore)
    returns (result: FileResult, messages: seq<Message>)
    modifies ledger, store
    ensures (result, ledger.rows, store.files) ==
      ProcessFileSpec(old(ledger.rows), old(store.files), path, model, reprocess, provider,
                      initialPrompt, prompt)
    ensures result.Abandoned? ==>
      messages == LegacySession(provider, model.id, initialPrompt, prompt,
                                LegacyChunks(old(store.files)[path], MaxChunkSize)).value.history
  {
    messages := [];
    if ledger.Has(path.name, model.id) && !reprocess {
      return AlreadyConverted, messages;
    }
    var content := store.Read(path);
    if content.None? {
      return Raised, messages;
    }
    var chunks := SplitIntoChunks(content.value, MaxChunkSize);
    ghost var session := LegacySession(provider, model.id, initialPrompt, prompt, chunks);
    messages := [Message(User, initialPrompt)];
    var ack := provider(model.id, messages);
    if ack.None? {
      assert session.None?;
      return Raised, messages;
    }
    messages := messages + [Message(Assistant, ack.value)];
    ghost var start := messages;
    ghost var target := ConvertRun(provider, model.id, prompt, start, chunks);
    assert session == Some(target);
    var converted, ok;
    converted, messages, ok := ConvertChunks(provider, model.id, prompt, messages, chunks);
    if !ok {
      return Abandoned, messages;
    }
    ConvertRunSuccess(provider, model.id, prompt, start, chunks);
    if |converted| == |chunks| {
      var out := WithSuffix(path, OutputSuffix(model.slug));
      if out.None? {
        return Raised, messages;
      }
      store.Write(out.value, Join(converted, "\n\n"));
      ledger.Note(path.name, model.id);
      result := Written(out.value);
    } else {
      result := Incomplete;
    }
  }

  /** A successful session: the initial prompt, its acknowledgement, then
      one user/assistant pair per chunk (no example exchange), 2 + 2N turns
      alternating from a user turn, each reply what the provider answered
      when shown everything before it. */
  lemma LegacySessionShape(provider: Provider, modelId: string, initialPrompt: string,
                           prompt: Template, chunks: seq<string>)
    requires LegacySession(provider, modelId, initialPrompt, prompt, chunks).Some?
    requires LegacySession(provider, modelId, initialPrompt, prompt, chunks).value.ok
    ensures var run := LegacySession(provider, modelId, initialPrompt, prompt, chunks).value;
      && |run.history| == 2 + 2 * |chunks|
      && |run.replies| == |chunks|
      && run.history[0] == Message(User, initialPrompt)
      && provider(modelId, run.history[..1]) == Some(run.history[1].content)
      && AlternatesFrom(run.history, 0)
      && forall i :: 0 <= i < |chunks| ==>
           ChunkTurnsAt(provider, modelId, prompt, run.history, 2, chunks, run.replies, i)
  {
    var h := [Message(User, initialPrompt)];
    var ack := provider(modelId, h).value;
    var h2 := h + [Message(Assistant, ack)];
    var run := ConvertRun(provider, modelId, prompt, h2, chunks);
    ConvertRunSuccess(provider, modelId, prompt, h2, chunks);
    ConvertRunAlternates(provider, modelId, prompt, h2, chunks);
    assert run.history[..2] == h2;
    assert run.history[0] == h2[0] && run.history[1] == h2[1];
    assert run.history[..1] == h;
  }

  /** A `process_file` that writes its output: the input existed, the
      output path is next to it and named `<stem>.<suffix>.cs`, the session
      succeeded with one reply per chunk, and exactly that file and the
      ledger row of the pair were added. */
  lemma ProcessFileWritten(rows: set<(string, string)>, files: map<Path, string>, path: Path,
                           model: Model, reprocess: bool, provider: Provider,
                           initialPrompt: string, prompt: Template)
    requires ProcessFileSpec(rows, files, path, model, reprocess, provider, initialPrompt, prompt).0.Written?
    ensures var (r, rows', files') :=
        ProcessFileSpec(rows, files, path, model, reprocess, provider, initialPrompt, prompt);
      && path in files
      && rows' == rows + {(path.name, model.id)}
      && r.out.dir == path.dir
      && r.out.name == path.name[..|path.name| - |Suffix(path.name)|] + "." + model.slug + ".cs"
      && var chunks := LegacyChunks(files[path], MaxChunkSize);
         var run := LegacySession(provider, model.id, initialPrompt, prompt, chunks);
         && run.Some? && run.value.ok
         && |run.value.replies| == |chunks|
         && files' == files[r.out := Join(run.value.replies, "\n\n")]
  {
    var spec := ProcessFileSpec(rows, files, path, model, reprocess, provider, initialPrompt, prompt);
    var chunks := LegacyChunks(files[path], MaxChunkSize);
    var run := LegacySession(provider, model.id, initialPrompt, prompt, chunks);
    var out := WithSuffix(path, OutputSuffix(model.slug));
    assert run.Some? && run.value.ok && out.Some?;
    assert spec == (Written(out.value), rows + {(path.name, model.id)},
                    files[out.value := Join(run.value.replies, "\n\n")]);
    assert out.value.name == path.name[..|path.name| - |Suffix(path.name)|] + "." + model.slug + ".cs" by {
      assert "." + model.slug + ".cs" == OutputSuffix(model.slug);
    }
    var h := [Message(User, initialPrompt)];
    var ack := provider(model.id, h).value;
    ConvertRunSuccess(provider, model.id, prompt, h + [Message(Assistant, ack)], chunks);
  }

  /** What `process_file` changes: on success what `ProcessFileWritten`
      states; in every other case nothing. It always runs to an outcome. */
  lemma ProcessFileEffects(rows: set<(string, string)>, files: map<Path, string>, path: Path,
                           model: Model, reprocess: bool, provider: Provider,
                           initialPrompt: string, prompt: Template)
    ensures var (r, rows', files') :=
        ProcessFileSpec(rows, files, path, model, reprocess, provider, initialPrompt, prompt);
      && r != Incomplete
      && (!r.Written? ==> rows' == rows && files' == files)
      && (r.Written? ==>
            && path in files
            && rows' == rows + {(path.name, model.id)}
            && r.out.dir == path.dir
            && r.out.name == path.name[..|path.name| - |Suffix(path.name)|] + "." + model.slug + ".cs"
            && var chunks := LegacyChunks(files[path], MaxChunkSize);
               var run := LegacySession(provider, model.id, initialPrompt, prompt, chunks);
               && run.Some? && run.value.ok
               && |run.value.replies| == |chunks|
               && files' == files[r.out := Join(run.value.replies, "\n\n")])
  {
    if ProcessFileSpec(rows, files, path, model, reprocess, provider, initialPrompt, prompt).0.Written? {
      ProcessFileWritten(rows, files, path, model, reprocess, provider, initialPrompt, prompt);
    }
  }

  /** Once a file is written for a model, processing it again without
      reprocessing skips it and changes nothing. */
  lemma SecondRunSkips(rows: set<(string, string)>, files: map<Path, string>, path: Path,
                       model: Model, provider: Provider, initialPrompt: string, prompt: Template,
                       reprocess: bool)
    requires ProcessFileSpec(rows, files, path, model, reprocess, provider, initialPrompt, prompt).0.Written?
    ensures var (_, rows', files') :=
        ProcessFileSpec(rows, files, path, model, reprocess, provider, initialPrompt, prompt);
      ProcessFileSpec(rows', files', path, model, false, provider, initialPrompt, prompt) ==
        (AlreadyConverted, rows', files')
  {
    ProcessFileEffects(rows, files, path, model, reprocess, provider, initialPrompt, prompt);
  }

  // ---------------------------------------------------------------------------
  // Choosing the files

  /** `should_skip_file`: the lowered path contains ".ipynb_checkpoints". */
  predicate ShouldSkipFile(p: Path)
  {
    Contains(Lower(PathString(p)), ".ipynb_checkpoints")
  }

  /** The name filter of `process_files`: the lowered path contains "old" or
      "backup" anywhere. */
  predicate NameFiltered(p: Path)
  {
    Contains(Lower(PathString(p)), "old") || Contains(Lower(PathString(p)), "backup")
  }

  predicate Skipped(p: Path)
  {
    NameFiltered(p) || ShouldSkipFile(p)
  }

  /** The paths `skip` does not reject, in order. */
  function Unskipped(skip: Path -> bool, paths: seq<Path>): (r: seq<Path>)
    ensures |r| <= |paths|
  {
    if paths == [] then []
    else (if skip(paths[0]) then [] else [paths[0]]) + Unskipped(skip, paths[1..])
  }

  /** A word without capitals that occurs in `s` occurs in the lowered text. */
  lemma OccursLowered(s: string, word: string, i: nat)
    requires OccursAt(s, word, i)
    requires forall k :: 0 <= k < |word| ==> LowerChar(word[k]) == word[k]
    ensures Contains(Lower(s), word)
  {
    var l := Lower(s);
    LowerChars(s);
    forall k | 0 <= k < |word|
      ensures l[i..i + |word|][k] == word[k]
    {
      assert s[i..i + |word|][k] == s[i + k];
    }
    assert l[i..i + |word|] == word;
    ContainsAt(l, word, i);
  }

  /** A file at the top whose name opens with "old" is filtered. */
  lemma OldFileSkipped(p: Path)
    requires p == Path("", "old_file.java")
    ensures NameFiltered(p)
  {
    assert PathString(p) == p.name;
    OccursLowered(p.name, "old", 0);
  }

  /** A file at the top whose name opens with "backup" is filtered. */
  lemma BackupFileSkipped(p: Path)
    requires p == Path("", "backup_file.java")
    ensures NameFiltered(p)
  {
    assert PathString(p) == p.name;
    assert p.name[0..6] == "backup";
    OccursLowered(p.name, "backup", 0);
  }

  /** A file in a directory named "old" is filtered. */
  lemma OldDirectorySkipped(p: Path)
    requires p == Path("old", "file.java")
    ensures NameFiltered(p)
  {
    assert PathString(p) == "old/file.java";
    OccursLowered(PathString(p), "old", 0);
  }

  /** A file under a notebook checkpoint directory is filtered. */
  lemma CheckpointsSkipped(p: Path)
    requires p == Path(".ipynb_checkpoints", "file.java")
    ensures ShouldSkipFile(p)
  {
    var s := PathString(p);
    assert s == ".ipynb_checkpoints/file.java";
    assert s[0..18] == ".ipynb_checkpoints";
    OccursLowered(s, ".ipynb_checkpoints", 0);
  }

  /** The names the repository's test expects to be filtered. */
  lemma SkippedExamples(oldFile: Path, backupFile: Path, oldDir: Path, checkpoint: Path)
    requires oldFile == Path("", "old_file.java")
    requires backupFile == Path("", "backup_file.java")
    requires oldDir == Path("old", "file.java")
    requires checkpoint == Path(".ipynb_checkpoints", "file.java")
    ensures Skipped(oldFile) && Skipped(backupFile) && Skipped(oldDir) && Skipped(checkpoint)
  {
    OldFileSkipped(oldFile);
    BackupFileSkipped(backupFile);
    OldDirectorySkipped(oldDir);
    CheckpointsSkipped(checkpoint);
  }

  /** The filter is a plain substring test on the whole lowered path: a
      directory named "Gold" rejects every file in it. */
  lemma SkippedBySubstring(p: Path)
    requires p == Path("Gold", "file.java")
    ensures Skipped(p)
  {
    assert PathString(p) == "Gold/file.java";
    OccursLowered(PathString(p), "old", 1);
  }

  /** A word with a lower-case letter that the text has in neither case
      does not occur in the lowered text. */
  lemma AbsentLetter(s: string, word: string, k: nat)
    requires k < |word| && 'a' <= word[k] <= 'z'
    requires forall j :: 0 <= j < |s| ==> s[j] != word[k] && s[j] != (word[k] as int - 32) as char
    ensures !Contains(Lower(s), word)
  {
    var l := Lower(s);
    LowerChars(s);
    assert forall j :: 0 <= j < |l| ==> l[j] != word[k];
    forall i: nat | i <= |l|
      ensures !OccursAt(l, word, i)
    {
      if i + |word| <= |l| {
        assert l[i..i + |word|][k] == l[i + k];
      }
    }
    ContainsOccurs(l, word);
  }

  /** One of the letters 'd', 'b' and 'y', in either case. */
  predicate LetterOfWords(c: char)
  {
    c == 'd' || c == 'D' || c == 'b' || c == 'B' || c == 'y' || c == 'Y'
  }

  /** A path with no 'd', 'b' or 'y' in either case passes both filters:
      each of the three words has one of those letters. */
  lemma KeptWithoutLetters(p: Path)
    requires forall j :: 0 <= j < |PathString(p)| ==> !LetterOfWords(PathString(p)[j])
    ensures !Skipped(p)
  {
    var s := PathString(p);
    AbsentLetter(s, "old", 2);
    AbsentLetter(s, "backup", 0);
    AbsentLetter(s, ".ipynb_checkpoints", 3);
  }

  /** A name with none of the three words passes. */
  lemma NormalFileKept(p: Path)
    requires p == Path("", "normal_file.java")
    ensures !Skipped(p)
  {
    assert PathString(p) == "normal_file.java";
    KeptWithoutLetters(p);
  }

  /** The enumerated paths that pass both filters, in order. */
  function Survivors(paths: seq<Path>): seq<Path>
  {
    Unskipped(Skipped, paths)
  }

  lemma {:induction false} UnskippedMembers(skip: Path -> bool, paths: seq<Path>)
    ensures forall p :: p in Unskipped(skip, paths) <==> p in paths && !skip(p)
  {
    if paths != [] {
      UnskippedMembers(skip, paths[1..]);
      assert paths == [paths[0]] + paths[1..];
    }
  }

  /** A path survives exactly when it is enumerated and passes both filters. */
  lemma SurvivorsMembers(paths: seq<Path>)
    ensures forall p :: p in Survivors(paths) <==> p in paths && !Skipped(p)
  {
    UnskippedMembers(Skipped, paths);
  }

  lemma {:induction false} UnskippedAppend(skip: Path -> bool, a: seq<Path>, b: seq<Path>)
    ensures Unskipped(skip, a + b) == Unskipped(skip, a) + Unskipped(skip, b)
  {
    if a == [] {
      assert a + b == b;
    } else {
      assert (a + b)[0] == a[0] && (a + b)[1..] == a[1..] + b;
      UnskippedAppend(skip, a[1..], b);
    }
  }

  lemma SurvivorsAppend(a: seq<Path>, b: seq<Path>)
    ensures Survivors(a + b) == Survivors(a) + Survivors(b)
  {
    UnskippedAppend(Skipped, a, b);
  }

  /** The cap of `max_files`: None and 0 mean none; a negative one admits
      no file, since the count already reaches it. */
  function Cap(maxFiles: Option<int>): Option<nat>
  {
    match maxFiles
    case None => None
    case Some(k) => if k == 0 then None else if k < 0 then Some(0) else Some(k)
  }

  /** The files `process_files` processes: the first `max_files` survivors. */
  function Selected(paths: seq<Path>, maxFiles: Option<int>): seq<Path>
  {
    var s := Survivors(paths);
    match Cap(maxFiles)
    case None => s
    case Some(n) => if n < |s| then s[..n] else s
  }

  /** The selected files are a prefix of the survivors, as many as the cap
      allows, each one a path that passed both filters. */
  lemma SelectedProperties(paths: seq<Path>, maxFiles: Option<int>)
    ensures var sel := Selected(paths, maxFiles); var s := Survivors(paths);
      && |sel| <= |s| && sel == s[..|sel|]
      && (Cap(maxFiles).None? ==> sel == s)
      && (Cap(maxFiles).Some? ==> |sel| == if Cap(maxFiles).value < |s| then Cap(maxFiles).value else |s|)
      && (forall p :: p in sel ==> p in paths && !Skipped(p))
  {
    var sel := Selected(paths, maxFiles);
    var s := Survivors(paths);
    SurvivorsMembers(paths);
    forall p | p in sel
      ensures p in paths && !Skipped(p)
    {
      assert p in s;
    }
  }

  /** With no path filtered out, a cap of k keeps the first k paths. */
  lemma SelectedUnfiltered(paths: seq<Path>, k: int)
    requires forall p :: p in paths ==> !Skipped(p)
    requires 0 < k <= |paths|
    ensures Selected(paths, Some(k)) == paths[..k]
  {
    UnskippedAll(Skipped, paths);
  }

  lemma {:induction false} UnskippedAll(skip: Path -> bool, paths: seq<Path>)
    requires forall p :: p in paths ==> !skip(p)
    ensures Unskipped(skip, paths) == paths
  {
    if paths != [] {
      assert paths[0] in paths;
      UnskippedAll(skip, paths[1..]);
      assert [paths[0]] + paths[1..] == paths;
    }
  }

  // ---------------------------------------------------------------------------
  // The batch

  /** The models of the old script: (model id, output suffix). */
  const Models: seq<Model> := [
    Model("anthropic/claude-3.5-sonnet:beta", "claude"),
    Model("qwen/qwen-2.5-72b-instruct", "qwen"),
    Model("google/gemini-pro-1.5-exp", "gemini"),
    Model("openai/chatgpt-4o-latest", "chatgpt")
  ]

  /** The ledger rows processing a file named `name` with `ms` may add. */
  function NamePairs(name: string, ms: seq<Model>): set<(string, string)>
    decreases |ms|
  {
    if ms == [] then {} else NamePairs(name, ms[..|ms| - 1]) + {(name, ms[|ms| - 1].id)}
  }

  /** The ledger rows processing `ps` with `ms` may add. */
  function Pairs(ps: seq<Path>, ms: seq<Model>): set<(string, string)>
    decreases |ps|
  {
    if ps == [] then {} else Pairs(ps[..|ps| - 1], ms) + NamePairs(ps[|ps| - 1].name, ms)
  }

  /** A row is one of the pairs exactly when it pairs the name of one of the
      paths with the id of one of the models. */
  lemma {:induction false} PairsMembers(ps: seq<Path>, ms: seq<Model>, row: (string, string))
    ensures row in Pairs(ps, ms) <==>
      exists i, j :: 0 <= i < |ps| && 0 <= j < |ms| && row == (ps[i].name, ms[j].id)
    decreases |ps|
  {
    if ps != [] {
      var init := ps[..|ps| - 1];
      PairsMembers(init, ms, row);
      NamePairsMembers(ps[|ps| - 1].name, ms, row);
      if row in Pairs(init, ms) {
        var i, j :| 0 <= i < |init| && 0 <= j < |ms| && row == (init[i].name, ms[j].id);
        assert ps[i] == init[i];
      } else if row in NamePairs(ps[|ps| - 1].name, ms) {
        var j :| 0 <= j < |ms| && row == (ps[|ps| - 1].name, ms[j].id);
        assert 0 <= |ps| - 1 < |ps|;
      }
      if exists i, j :: 0 <= i < |ps| && 0 <= j < |ms| && row == (ps[i].name, ms[j].id) {
        var i, j :| 0 <= i < |ps| && 0 <= j < |ms| && row == (ps[i].name, ms[j].id);
        if i < |init| {
          assert ps[i] == init[i];
        }
      }
    }
  }

  lemma {:induction false} NamePairsMembers(name: string, ms: seq<Model>, row: (string, string))
    ensures row in NamePairs(name, ms) <==> exists j :: 0 <= j < |ms| && row == (name, ms[j].id)
    decreases |ms|
  {
    if ms != [] {
      var init := ms[..|ms| - 1];
      NamePairsMembers(name, init, row);
      if row in NamePairs(name, init) {
        var j :| 0 <= j < |init| && row == (name, init[j].id);
        assert ms[j] == init[j];
      }
      if exists j :: 0 <= j < |ms| && row == (name, ms[j].id) {
        var j :| 0 <= j < |ms| && row == (name, ms[j].id);
        if j < |init| {
          assert ms[j] == init[j];
        }
      }
    }
  }

  /** Rows added in two steps, each within its allowance, are within the sum. */
  lemma RowsWithin(base: set<(string, string)>, mid: set<(string, string)>, rows: set<(string, string)>,
                   first: set<(string, string)>, second: set<(string, string)>)
    requires base <= mid <= base + first
    requires mid <= rows <= mid + second
    ensures base <= rows <= base + (first + second)
  {
  }

  lemma PairsGrow(ps: seq<Path>, p: Path, ms: seq<Model>)
    ensures Pairs(ps + [p], ms) == Pairs(ps, ms) + NamePairs(p.name, ms)
  {
    assert (ps + [p])[..|ps|] == ps;
  }

  /** The ledger stays within the pairs of the files started so far when
      one more file adds only its own pairs. */
  lemma RowsStep(base: set<(string, string)>, mid: set<(string, string)>, rows: set<(string, string)>,
                 prev: seq<Path>, path: Path, models: seq<Model>)
    requires base <= mid <= base + Pairs(prev, models)
    requires mid <= rows <= mid + NamePairs(path.name, models)
    ensures base <= rows <= base + Pairs(prev + [path], models)
  {
    RowsWithin(base, mid, rows, Pairs(prev, models), NamePairs(path.name, models));
    PairsGrow(prev, path, models);
  }

  /** What processing one file with each model in turn does: whether one of
      the sessions raised, and the ledger rows and the files after the last. */
  ghost function ModelsSpec(rows: set<(string, string)>, files: map<Path, string>, path: Path,
                            models: seq<Model>, reprocess: bool, provider: Provider,
                            initialPrompt: string, prompt: Template)
    : (bool, set<(string, string)>, map<Path, string>)
    decreases |models|
  {
    if models == [] then (false, rows, files)
    else
      var before := ModelsSpec(rows, files, path, models[..|models| - 1], reprocess, provider,
                               initialPrompt, prompt);
      var last := ProcessFileSpec(before.1, before.2, path, models[|models| - 1], reprocess, provider,
                                  initialPrompt, prompt);
      (before.0 || last.0 == Raised, last.1, last.2)
  }

  /** Processing a file with `models` adds only rows that pair its name with
      one of the models. */
  lemma {:induction false} ModelsSpecRows(rows: set<(string, string)>, files: map<Path, string>,
                                          path: Path, models: seq<Model>, reprocess: bool,
                                          provider: Provider, initialPrompt: string, prompt: Template)
    ensures var rows' := ModelsSpec(rows, files, path, models, reprocess, provider, initialPrompt, prompt).1;
      rows <= rows' <= rows + NamePairs(path.name, models)
    decreases |models|
  {
    if models != [] {
      var init := models[..|models| - 1];
      var before := ModelsSpec(rows, files, path, init, reprocess, provider, initialPrompt, prompt);
      ModelsSpecRows(rows, files, path, init, reprocess, provider, initialPrompt, prompt);
      ProcessFileEffects(before.1, before.2, path, models[|models| - 1], reprocess, provider,
                         initialPrompt, prompt);
    }
  }

  /** One file with every model in turn; whether any of them raised. */
  method ProcessWithModels(path: Path, models: seq<Model>, reprocess: bool, provider: Provider,
                           initialPrompt: string, prompt: Template, ledger: Ledger, store: FileStore)
    returns (raised: bool)
    modifies ledger, store
    ensures (raised, ledger.rows, store.files) ==
      ModelsSpec(old(ledger.rows), old(store.files), path, models, reprocess, provider, initialPrompt, prompt)
    ensures old(ledger.rows) <= ledger.rows <= old(ledger.rows) + NamePairs(path.name, models)
  {
    raised := false;
    var j := 0;
    while j < |models|
      invariant 0 <= j <= |models|
      invariant (raised, ledger.rows, store.files) ==
        ModelsSpec(old(ledger.rows), old(store.files), path, models[..j], reprocess, provider,
                   initialPrompt, prompt)
    {
      var result, _ := ProcessFile(path, models[j], reprocess, provider, initialPrompt, prompt, ledger, store);
      assert models[..j + 1][..j] == models[..j];
      raised := raised || result == Raised;
      j := j + 1;
    }
    assert models[..j] == models;
    ModelsSpecRows(old(ledger.rows), old(store.files), path, models, reprocess, provider, initialPrompt, prompt);
  }

  /** What processing the files `ps` in turn does: whether a session raised,
      which ends the batch after that file, and the ledger rows and the files
      after the last file processed. */
  datatype Batch = Batch(stopped: bool, rows: set<(string, string)>, files: map<Path, string>)

  ghost function FilesSpec(rows: set<(string, string)>, files: map<Path, string>, ps: seq<Path>,
                           models: seq<Model>, reprocess: bool, provider: Provider,
                           initialPrompt: string, prompt: Template): Batch
    decreases |ps|
  {
    if ps == [] then Batch(false, rows, files)
    else
      var before := FilesSpec(rows, files, ps[..|ps| - 1], models, reprocess, provider, initialPrompt, prompt);
      if before.stopped then before
      else
        var last := ModelsSpec(before.rows, before.files, ps[|ps| - 1], models, reprocess, provider,
                               initialPrompt, prompt);
        Batch(last.0, last.1, last.2)
  }

  lemma FilesSpecStep(rows: set<(string, string)>, files: map<Path, string>, ps: seq<Path>, p: Path,
                      models: seq<Model>, reprocess: bool, provider: Provider,
                      initialPrompt: string, prompt: Template)
    ensures var before := FilesSpec(rows, files, ps, models, reprocess, provider, initialPrompt, prompt);
      var last := ModelsSpec(before.rows, before.files, p, models, reprocess, provider, initialPrompt, prompt);
      FilesSpec(rows, files, ps + [p], models, reprocess, provider, initialPrompt, prompt) ==
        if before.stopped then before else Batch(last.0, last.1, last.2)
  {
    assert (ps + [p])[..|ps|] == ps;
  }

  /** Once a session raised, the files after it change nothing: the batch
      is over. */
  lemma {:induction false} FilesSpecStops(rows: set<(string, string)>, files: map<Path, string>,
                                          ps: seq<Path>, n: nat, models: seq<Model>,
                                          reprocess: bool, provider: Provider,
                                          initialPrompt: string, prompt: Template)
    requires n <= |ps|
    requires FilesSpec(rows, files, ps[..n], models, reprocess, provider, initialPrompt, prompt).stopped
    ensures FilesSpec(rows, files, ps, models, reprocess, provider, initialPrompt, prompt) ==
      FilesSpec(rows, files, ps[..n], models, reprocess, provider, initialPrompt, prompt)
    decreases |ps|
  {
    if n < |ps| {
      var init := ps[..|ps| - 1];
      assert init[..n] == ps[..n];
      FilesSpecStops(rows, files, init, n, models, reprocess, provider, initialPrompt, prompt);
    } else {
      assert ps[..n] == ps;
    }
  }

  /** Processing `ps` adds only rows that pair the name of one of them with
      one of the models. */
  lemma {:induction false} FilesSpecRows(rows: set<(string, string)>, files: map<Path, string>,
                                         ps: seq<Path>, models: seq<Model>, reprocess: bool,
                                         provider: Provider, initialPrompt: string, prompt: Template)
    ensures var rows' := FilesSpec(rows, files, ps, models, reprocess, provider, initialPrompt, prompt).rows;
      rows <= rows' <= rows + Pairs(ps, models)
    decreases |ps|
  {
    if ps != [] {
      var init := ps[..|ps| - 1];
      var p := ps[|ps| - 1];
      var before := FilesSpec(rows, files, init, models, reprocess, provider, initialPrompt, prompt);
      FilesSpecRows(rows, files, init, models, reprocess, provider, initialPrompt, prompt);
      ModelsSpecRows(before.rows, before.files, p, models, reprocess, provider, initialPrompt, prompt);
      var after := ModelsSpec(before.rows, before.files, p, models, reprocess, provider, initialPrompt, prompt);
      assert ps == init + [p];
      if before.stopped {
        RowsStep(rows, before.rows, before.rows, init, p, models);
      } else {
        RowsStep(rows, before.rows, after.1, init, p, models);
      }
    }
  }

  /** The survivors of the paths enumerated so far are the start of the
      selection while the cap is not exceeded, and all of it once the cap is
      reached or the paths are exhausted. */
  lemma SelectedSoFar(paths: seq<Path>, i: nat, maxFiles: Option<int>)
    requires i <= |paths|
    requires Cap(maxFiles).Some? ==> |Survivors(paths[..i])| <= Cap(maxFiles).value
    ensures var done := Survivors(paths[..i]);
      && |done| <= |Selected(paths, maxFiles)|
      && done == Selected(paths, maxFiles)[..|done|]
      && (i == |paths| || (Cap(maxFiles).Some? && |done| == Cap(maxFiles).value) ==>
            done == Selected(paths, maxFiles))
  {
    assert paths == paths[..i] + paths[i..];
    SurvivorsAppend(paths[..i], paths[i..]);
    var done := Survivors(paths[..i]);
    var rest := Survivors(paths[i..]);
    var s := done + rest;
    assert Survivors(paths) == s;
    assert s[..|done|] == done;
    if i == |paths| {
      assert paths[i..] == [];
      assert rest == [];
    }
    match Cap(maxFiles)
    case None =>
      assert Selected(paths, maxFiles) == s;
    case Some(n) =>
      if n < |s| {
        assert Selected(paths, maxFiles) == s[..n];
        assert s[..n][..|done|] == done;
      } else {
        assert Selected(paths, maxFiles) == s;
      }
  }

  lemma SurvivorsStep(paths: seq<Path>, i: nat)
    requires i < |paths|
    ensures Survivors(paths[..i + 1]) ==
      Survivors(paths[..i]) + (if Skipped(paths[i]) then [] else [paths[i]])
  {
    assert paths[..i + 1] == paths[..i] + [paths[i]];
    UnskippedAppend(Skipped, paths[..i], [paths[i]]);
    assert [paths[i]][1..] == [];
  }

  /** `process_files` over the enumerated `paths`: stops once `max_files`
      files were started, skips filtered paths, and processes each other path
      with every model. Reports the files started and whether the loop ran to
      its end; a session that raised stops it after its file. */
  method ProcessFiles(paths: seq<Path>, maxFiles: Option<int>, reprocess: bool, models: seq<Model>,
                      provider: Provider, initialPrompt: string, prompt: Template,
                      ledger: Ledger, store: FileStore)
    returns (started: seq<Path>, completed: bool)
    modifies ledger, store
    ensures completed ==> started == Selected(paths, maxFiles)
    ensures !completed ==>
      started != [] && |started| <= |Selected(paths, maxFiles)| &&
      started == Selected(paths, maxFiles)[..|started|]
    ensures BatchEnd(old(ledger.rows), old(store.files), started, models, reprocess, provider, initialPrompt,
                     prompt, ledger.rows, store.files, completed)
    ensures old(ledger.rows) <= ledger.rows <= old(ledger.rows) + Pairs(started, models)
  {
    started := [];
    completed := true;
    var i := 0;
    while i < |paths|
      invariant 0 <= i <= |paths|
      invariant started == Survivors(paths[..i])
      invariant Cap(maxFiles).Some? ==> |started| <= Cap(maxFiles).value
      invariant BatchState(old(ledger.rows), old(store.files), started, models, reprocess, provider,
                           initialPrompt, prompt, ledger.rows, store.files)
    {
      if maxFiles.Some? && maxFiles.value != 0 && |started| >= maxFiles.value {
        break;
      }
      var path := paths[i];
      SurvivorsStep(paths, i);
      var raised := false;
      if !Skipped(path) {
        raised := ProcessNext(path, models, reprocess, provider, initialPrompt, prompt, ledger, store,
                              old(ledger.rows), old(store.files), started);
        started := started + [path];
      }
      assert started == Survivors(paths[..i + 1]);
      i := i + 1;
      if raised {
        completed := false;
        break;
      }
    }
    FilesOutcome(paths, i, maxFiles, started, completed);
    FilesSpecRows(old(ledger.rows), old(store.files), started, models, reprocess, provider, initialPrompt, prompt);
  }

  /** The ledger rows and the files are those after processing `done`, and
      no session raised so far. */
  ghost predicate BatchState(rows0: set<(string, string)>, files0: map<Path, string>, done: seq<Path>,
                             models: seq<Model>, reprocess: bool, provider: Provider,
                             initialPrompt: string, prompt: Template,
                             rows: set<(string, string)>, files: map<Path, string>)
  {
    var b := FilesSpec(rows0, files0, done, models, reprocess, provider, initialPrompt, prompt);
    rows == b.rows && files == b.files && !b.stopped
  }

  /** The ledger rows and the files are those after processing `done`; a
      session raised exactly when the batch did not complete, and then in
      the last file and in no file before it. */
  ghost predicate BatchEnd(rows0: set<(string, string)>, files0: map<Path, string>, done: seq<Path>,
                           models: seq<Model>, reprocess: bool, provider: Provider,
                           initialPrompt: string, prompt: Template,
                           rows: set<(string, string)>, files: map<Path, string>, completed: bool)
  {
    var b := FilesSpec(rows0, files0, done, models, reprocess, provider, initialPrompt, prompt);
    && rows == b.rows && files == b.files
    && (b.stopped <==> !completed)
    && (!completed ==>
          && done != []
          && !FilesSpec(rows0, files0, done[..|done| - 1], models, reprocess, provider, initialPrompt, prompt).stopped)
  }

  /** One pass of the loop of `process_files` over a path that survives the
      filters: processing it with every model extends the batch by it. */
  method ProcessNext(path: Path, models: seq<Model>, reprocess: bool, provider: Provider,
                     initialPrompt: string, prompt: Template, ledger: Ledger, store: FileStore,
                     ghost rows0: set<(string, string)>, ghost files0: map<Path, string>,
                     ghost done: seq<Path>)
    returns (raised: bool)
    requires BatchState(rows0, files0, done, models, reprocess, provider, initialPrompt, prompt,
                        ledger.rows, store.files)
    modifies ledger, store
    ensures !raised ==> BatchState(rows0, files0, done + [path], models, reprocess, provider, initialPrompt,
                                   prompt, ledger.rows, store.files)
    ensures raised ==> BatchEnd(rows0, files0, done + [path], models, reprocess, provider, initialPrompt,
                                prompt, ledger.rows, store.files, false)
  {
    FilesSpecStep(rows0, files0, done, path, models, reprocess, provider, initialPrompt, prompt);
    raised := ProcessWithModels(path, models, reprocess, provider, initialPrompt, prompt, ledger, store);
    assert (done + [path])[..|done|] == done;
  }

  /** Where the loop of `process_files` stopped decides what it started: all
      of the selection when it ran out of paths or reached the cap, a
      non-empty start of it when a session raised. */
  lemma FilesOutcome(paths: seq<Path>, i: nat, maxFiles: Option<int>, started: seq<Path>, completed: bool)
    requires i <= |paths| && started == Survivors(paths[..i])
    requires Cap(maxFiles).Some? ==> |started| <= Cap(maxFiles).value
    requires completed ==> i == |paths| || (maxFiles.Some? && maxFiles.value != 0 && |started| >= maxFiles.value)
    requires !completed ==> started != []
    ensures completed ==> started == Selected(paths, maxFiles)
    ensures !completed ==>
      |started| <= |Selected(paths, maxFiles)| && started == Selected(paths, maxFiles)[..|started|]
  {
    SelectedSoFar(paths, i, maxFiles);
  }
}
