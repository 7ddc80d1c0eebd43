/** The marker-aligned chunker: a slide file is cut into cells at its marker
    lines, and the cells are packed greedily into chunks of bounded size. */
module FileUtils {
  import opened Common

  const MaxChunkSize: nat := 8192

  // ---------------------------------------------------------------------------
  // Lines

  /** A line as `splitlines(keepends=True)` yields it, with '\n' as the only
      line break: non-empty, and a '\n' can only be its last character. */
  predicate IsLine(l: string)
  {
    l != [] && forall j :: 0 <= j < |l| - 1 ==> l[j] != '\n'
  }

  predicate EndsWithNewline(l: string)
  {
    l != [] && l[|l| - 1] == '\n'
  }

  /** The lines of a text: every one but the last ends with its line break. */
  predicate WellFormedLines(ls: seq<string>)
  {
    (forall i :: 0 <= i < |ls| ==> IsLine(ls[i])) &&
    (forall i :: 0 <= i < |ls| - 1 ==> EndsWithNewline(ls[i]))
  }

  /** Length of the first line of `s`, its line break included. */
  function FirstLineLength(s: string): (k: nat)
    requires s != []
    ensures 0 < k <= |s|
    ensures forall j :: 0 <= j < k - 1 ==> s[j] != '\n'
    ensures k < |s| ==> s[k - 1] == '\n'
  {
    if s[0] == '\n' || |s| == 1 then 1 else 1 + FirstLineLength(s[1..])
  }

  /** `content.splitlines(keepends=True)`, breaking lines at '\n' only. */
  function SplitLines(s: string): (ls: seq<string>)
    ensures Concat(ls) == s
    ensures WellFormedLines(ls)
    decreases |s|
  {
    if s == [] then []
    else
      var k := FirstLineLength(s);
      var rest := SplitLines(s[k..]);
      assert s[..k] + s[k..] == s;
      LinesCons(s[..k], rest);
      [s[..k]] + rest
  }

  /** A line followed by well-formed lines is well formed when it ends with
      its line break or nothing follows it. */
  lemma LinesCons(l: string, rest: seq<string>)
    requires IsLine(l) && WellFormedLines(rest)
    requires rest != [] ==> EndsWithNewline(l)
    ensures WellFormedLines([l] + rest)
    ensures Concat([l] + rest) == l + Concat(rest)
  {
    assert ([l] + rest)[1..] == rest;
    forall i | 0 <= i < |[l] + rest|
      ensures IsLine(([l] + rest)[i])
    {
      if i > 0 {
        assert ([l] + rest)[i] == rest[i - 1];
      }
    }
    forall i | 0 <= i < |[l] + rest| - 1
      ensures EndsWithNewline(([l] + rest)[i])
    {
      if i > 0 {
        assert ([l] + rest)[i] == rest[i - 1];
      }
    }
  }

  lemma FirstLineOfConcat(l: string, rest: string)
    requires IsLine(l)
    requires rest != [] ==> EndsWithNewline(l)
    ensures FirstLineLength(l + rest) == |l|
  {
    var s := l + rest;
    var k := FirstLineLength(s);
    assert forall j :: 0 <= j < |l| ==> s[j] == l[j];
    if rest != [] {
      assert s[|l| - 1] == '\n';
    }
  }

  /** Splitting the concatenation of well-formed lines gives back those lines. */
  lemma {:induction false} SplitLinesOfConcat(ls: seq<string>)
    requires WellFormedLines(ls)
    ensures SplitLines(Concat(ls)) == ls
  {
    if ls != [] {
      var rest := Concat(ls[1..]);
      assert rest != [] ==> |ls| > 1;
      FirstLineOfConcat(ls[0], rest);
      var s := ls[0] + rest;
      assert s[..|ls[0]|] == ls[0] && s[|ls[0]|..] == rest;
      SplitLinesOfConcat(ls[1..]);
    }
  }

  lemma WellFormedSplit(a: seq<string>, b: seq<string>)
    requires WellFormedLines(a + b)
    ensures WellFormedLines(a) && WellFormedLines(b)
    ensures b != [] && a != [] ==> EndsWithNewline(a[|a| - 1])
  {
    assert forall i :: 0 <= i < |b| ==> b[i] == (a + b)[|a| + i];
    assert forall i :: 0 <= i < |a| ==> a[i] == (a + b)[i];
  }

  // ---------------------------------------------------------------------------
  // Phase 1: cells

  /** A marker line: stripped of surrounding whitespace it starts with "# %%" or "// %%". */
  predicate IsMarker(line: string)
  {
    StartsWith(Strip(line), "# %%") || StartsWith(Strip(line), "// %%")
  }

  /** The accumulated group, emitted only when its text is non-empty. */
  function Flush(cur: seq<string>): seq<seq<string>>
  {
    if Concat(cur) == "" then [] else [cur]
  }

  /** The cells of the remaining `lines`, given the lines `cur` of the cell
      still open: a line that passes `isMarker` closes the open cell and opens
      a new one. The lemmas below hold for any marker test; the chunker uses
      IsMarker. */
  function CellGroups(isMarker: string -> bool, cur: seq<string>, lines: seq<string>): seq<seq<string>>
    decreases |lines|
  {
    if lines == [] then Flush(cur)
    else if isMarker(lines[0]) then Flush(cur) + CellGroups(isMarker, [lines[0]], lines[1..])
    else CellGroups(isMarker, cur + [lines[0]], lines[1..])
  }

  /** One marker line of the cell pass: it closes the open cell (when that
      holds any text) and opens a new one; the closed cells followed by the
      cells of the rest are unchanged. */
  lemma CellPassMarker(isMarker: string -> bool, closed: seq<seq<string>>, open: seq<string>,
                       line: string, rest: seq<string>)
    requires isMarker(line)
    ensures closed + CellGroups(isMarker, open, [line] + rest) == (closed + Flush(open)) + CellGroups(isMarker, [line], rest)
    ensures ConcatEach(closed + Flush(open)) == ConcatEach(closed) + (if Concat(open) != "" then [Concat(open)] else [])
    ensures Concat([line]) == line
  {
    assert CellGroups(isMarker, open, [line] + rest) == Flush(open) + CellGroups(isMarker, [line], rest) by {
      assert ([line] + rest)[0] == line && ([line] + rest)[1..] == rest;
    }
    AppendAssoc(closed, Flush(open), CellGroups(isMarker, [line], rest));
    ConcatSingle(line);
    assert ConcatEach(Flush(open)) == if Concat(open) != "" then [Concat(open)] else [];
    ConcatEachAppend(closed, Flush(open));
  }

  /** One other line of the cell pass: it joins the open cell. */
  lemma CellPassOther(isMarker: string -> bool, open: seq<string>, line: string, rest: seq<string>)
    requires !isMarker(line)
    ensures CellGroups(isMarker, open, [line] + rest) == CellGroups(isMarker, open + [line], rest)
    ensures Concat(open + [line]) == Concat(open) + line
  {
    assert ([line] + rest)[0] == line && ([line] + rest)[1..] == rest;
    ConcatSingle(line);
    ConcatAppend(open, [line]);
  }

  /** The possible chunks of a text: the text of each of its cells. */
  function PossibleChunks(content: string): seq<string>
  {
    ConcatEach(CellGroups(IsMarker, [], SplitLines(content)))
  }

  lemma {:induction false} CellGroupsConcat(isMarker: string -> bool, cur: seq<string>, lines: seq<string>)
    ensures var gs := CellGroups(isMarker, cur, lines);
      && Concat(ConcatEach(gs)) == Concat(cur) + Concat(lines)
      && (forall k :: 0 <= k < |gs| ==> Concat(gs[k]) != "")
    decreases |lines|
  {
    if lines == [] {
      if Concat(cur) != "" { ConcatSingle(Concat(cur)); }
    } else {
      var line := lines[0];
      assert Concat(lines) == line + Concat(lines[1..]);
      ConcatSingle(line);
      if isMarker(line) {
        var rest := CellGroups(isMarker, [line], lines[1..]);
        CellGroupsConcat(isMarker, [line], lines[1..]);
        assert Concat(ConcatEach(rest)) == line + Concat(lines[1..]);
        assert Concat(ConcatEach(Flush(cur))) == Concat(cur) by {
          if Concat(cur) != "" { ConcatSingle(Concat(cur)); }
        }
        assert CellGroups(isMarker, cur, lines) == Flush(cur) + rest;
        ConcatEachAppend(Flush(cur), rest);
        ConcatAppend(ConcatEach(Flush(cur)), ConcatEach(rest));
      } else {
        CellGroupsConcat(isMarker, cur + [line], lines[1..]);
        ConcatAppend(cur, [line]);
      }
    }
  }

  /** The structure of the cells: they partition `cur + lines` in order; each
      one is a non-empty run of well-formed lines; the first one extends `cur`;
      every later one starts with a marker line; and no line after the first of
      a cell is a marker. */
  lemma CellGroupsStructure(isMarker: string -> bool, cur: seq<string>, lines: seq<string>)
    requires WellFormedLines(cur + lines)
    requires forall j :: 0 < j < |cur| ==> !isMarker(cur[j])
    ensures var gs := CellGroups(isMarker, cur, lines);
      && Concat(gs) == cur + lines
      && (forall k :: 0 <= k < |gs| ==> gs[k] != [] && WellFormedLines(gs[k]))
      && (cur != [] ==> gs != [] && gs[0][0] == cur[0])
      && (forall k :: 0 < k < |gs| ==> isMarker(gs[k][0]))
      && (forall k, j :: 0 <= k < |gs| && 0 < j < |gs[k]| ==> !isMarker(gs[k][j]))
  {
    CellGroupsLines(isMarker, cur, lines);
    CellGroupsShape(isMarker, cur, lines);
  }

  /** A run of well-formed lines is empty exactly when its text is. */
  lemma LinesText(cur: seq<string>)
    requires WellFormedLines(cur)
    ensures Flush(cur) == if cur == [] then [] else [cur]
  {
    if cur != [] {
      assert IsLine(cur[0]);
      assert Concat(cur) == cur[0] + Concat(cur[1..]);
    }
  }

  /** The cells keep every line, in order. */
  lemma {:induction false} CellGroupsLines(isMarker: string -> bool, cur: seq<string>, lines: seq<string>)
    requires WellFormedLines(cur + lines)
    ensures Concat(CellGroups(isMarker, cur, lines)) == cur + lines
    decreases |lines|
  {
    WellFormedSplit(cur, lines);
    LinesText(cur);
    if lines == [] {
      assert cur + lines == cur;
      if cur != [] { ConcatSingle(cur); }
    } else {
      var line := lines[0];
      var rest := lines[1..];
      assert lines == [line] + rest;
      if isMarker(line) {
        assert [line] + rest == lines;
        CellGroupsLines(isMarker, [line], rest);
        ConcatAppend(Flush(cur), CellGroups(isMarker, [line], rest));
        if cur != [] { ConcatSingle(cur); }
        AppendAssoc(cur, [line], rest);
      } else {
        AppendAssoc(cur, [line], rest);
        CellGroupsLines(isMarker, cur + [line], rest);
      }
    }
  }

  /** Each cell is a non-empty run of well-formed lines; the first extends
      `cur`; every later one starts with a marker; no later line of a cell is
      a marker. */
  lemma {:induction false} CellGroupsShape(isMarker: string -> bool, cur: seq<string>, lines: seq<string>)
    requires WellFormedLines(cur + lines)
    requires forall j :: 0 < j < |cur| ==> !isMarker(cur[j])
    ensures var gs := CellGroups(isMarker, cur, lines);
      && (forall k :: 0 <= k < |gs| ==> gs[k] != [] && WellFormedLines(gs[k]))
      && (cur != [] ==> gs != [] && gs[0][0] == cur[0])
      && (forall k :: 0 < k < |gs| ==> isMarker(gs[k][0]))
      && (forall k, j :: 0 <= k < |gs| && 0 < j < |gs[k]| ==> !isMarker(gs[k][j]))
    decreases |lines|
  {
    WellFormedSplit(cur, lines);
    LinesText(cur);
    if lines != [] {
      var line := lines[0];
      var rest := lines[1..];
      assert lines == [line] + rest;
      if isMarker(line) {
        assert [line] + rest == lines;
        CellGroupsShape(isMarker, [line], rest);
      } else {
        AppendAssoc(cur, [line], rest);
        CellGroupsShape(isMarker, cur + [line], rest);
      }
    }
  }

  /** The lines of each text. */
  function LinesEach(pcs: seq<string>): (r: seq<seq<string>>)
    ensures |r| == |pcs|
    ensures forall k :: 0 <= k < |pcs| ==> r[k] == SplitLines(pcs[k])
  {
    seq(|pcs|, k requires 0 <= k < |pcs| => SplitLines(pcs[k]))
  }

  /** The texts of the cells, for any marker test: they concatenate to the
      content, none is empty, their lines are the content's lines in order,
      each after the first opens with a marker and no later line is one. */
  lemma CellTextsStructure(isMarker: string -> bool, content: string)
    ensures var pcs := ConcatEach(CellGroups(isMarker, [], SplitLines(content)));
      && Concat(pcs) == content
      && (forall k :: 0 <= k < |pcs| ==> pcs[k] != "")
      && Concat(LinesEach(pcs)) == SplitLines(content)
      && (forall k :: 0 < k < |pcs| ==> isMarker(SplitLines(pcs[k])[0]))
      && (forall k, j :: 0 <= k < |pcs| && 0 < j < |SplitLines(pcs[k])| ==> !isMarker(SplitLines(pcs[k])[j]))
  {
    var lines := SplitLines(content);
    var gs := CellGroups(isMarker, [], lines);
    var pcs := ConcatEach(gs);
    assert Concat(pcs) == content && forall k :: 0 <= k < |pcs| ==> pcs[k] != "" by {
      CellGroupsConcat(isMarker, [], lines);
    }
    CellTextsLines(isMarker, lines);
  }

  /** The cells' texts split back into the lines, in order; each text after
      the first opens with a marker line and no later line of a text is one. */
  lemma CellTextsLines(isMarker: string -> bool, lines: seq<string>)
    requires WellFormedLines(lines)
    ensures var pcs := ConcatEach(CellGroups(isMarker, [], lines));
      && Concat(LinesEach(pcs)) == lines
      && (forall k :: 0 <= k < |pcs| ==> SplitLines(pcs[k]) != [])
      && (forall k :: 0 < k < |pcs| ==> isMarker(SplitLines(pcs[k])[0]))
      && (forall k, j :: 0 <= k < |pcs| && 0 < j < |SplitLines(pcs[k])| ==> !isMarker(SplitLines(pcs[k])[j]))
  {
    var gs := CellGroups(isMarker, [], lines);
    var pcs := ConcatEach(gs);
    CellLines(isMarker, lines);
    assert LinesEach(pcs) == gs;
  }

  /** Each cell, as text, splits back into its own lines; the cells keep every
      line in order; each after the first opens with a marker and no later
      line is one. */
  lemma CellLines(isMarker: string -> bool, lines: seq<string>)
    requires WellFormedLines(lines)
    ensures var gs := CellGroups(isMarker, [], lines);
      && (forall k :: 0 <= k < |gs| ==> gs[k] != [] && SplitLines(Concat(gs[k])) == gs[k])
      && Concat(gs) == lines
      && (forall k :: 0 < k < |gs| ==> isMarker(gs[k][0]))
      && (forall k, j :: 0 <= k < |gs| && 0 < j < |gs[k]| ==> !isMarker(gs[k][j]))
  {
    var gs := CellGroups(isMarker, [], lines);
    assert [] + lines == lines;
    CellGroupsStructure(isMarker, [], lines);
    forall k | 0 <= k < |gs|
      ensures gs[k] != [] && SplitLines(Concat(gs[k])) == gs[k]
    {
      SplitLinesOfConcat(gs[k]);
    }
  }

  /** Cell structure of the possible chunks: the lines of the chunks are the
      lines of the content in order; every chunk after the first starts with a
      marker line; no later line of a chunk is a marker. */
  lemma PossibleChunksStructure(content: string)
    ensures var pcs := PossibleChunks(content);
      && Concat(pcs) == content
      && (forall k :: 0 <= k < |pcs| ==> pcs[k] != "")
      && Concat(LinesEach(pcs)) == SplitLines(content)
      && (forall k :: 0 < k < |pcs| ==> IsMarker(SplitLines(pcs[k])[0]))
      && (forall k, j :: 0 <= k < |pcs| && 0 < j < |SplitLines(pcs[k])| ==> !IsMarker(SplitLines(pcs[k])[j]))
  {
    CellTextsStructure(IsMarker, content);
  }

  /** `split_into_possible_chunks`: one pass over the lines, growing the open
      cell and closing it at each marker line. */
  method SplitIntoPossibleChunks(content: string) returns (chunks: seq<string>)
    ensures chunks == PossibleChunks(content)
    ensures Concat(chunks) == content
    ensures forall k :: 0 <= k < |chunks| ==> chunks[k] != ""
  {
    var lines := SplitLines(content);
    chunks := [];
    var current := "";
    ghost var open: seq<string> := [];
    ghost var closed: seq<seq<string>> := [];
    var i := 0;
    while i < |lines|
      invariant 0 <= i <= |lines|
      invariant current == Concat(open)
      invariant chunks == ConcatEach(closed)
      invariant closed + CellGroups(IsMarker, open, lines[i..]) == CellGroups(IsMarker, [], lines)
    {
      var line := lines[i];
      ghost var rest := lines[i + 1..];
      assert lines[i..] == [line] + rest;
      if IsMarker(line) {
        CellPassMarker(IsMarker, closed, open, line, rest);
        if current != "" {
          chunks := chunks + [current];
        }
        closed := closed + Flush(open);
        current := line;
        open := [line];
      } else {
        CellPassOther(IsMarker, open, line, rest);
        current := current + line;
        open := open + [line];
      }
      i := i + 1;
    }
    assert lines[i..] == [];
    ConcatEachAppend(closed, Flush(open));
    if current != "" {
      chunks := chunks + [current];
      assert ConcatEach([open]) == [current];
    }
    closed := closed + Flush(open);
    assert closed == CellGroups(IsMarker, [], lines);
    PossibleChunksStructure(content);
  }

  // ---------------------------------------------------------------------------
  // Phase 2: greedy packing

  /** One packing step for the possible chunk `c` with the accumulator `cur`:
      the groups it closes and the accumulator it leaves. An oversized chunk
      goes out alone, a chunk that fits joins the accumulator, any other one
      starts a new accumulator. */
  function PackStep(max: int, cur: seq<string>, c: string): (seq<seq<string>>, seq<string>)
  {
    if |c| > max then (Flush(cur) + [[c]], [])
    else if |Concat(cur)| + |c| <= max then ([], cur + [c])
    else ([cur], [c])
  }

  /** The packing of the remaining possible chunks `pcs`, given the chunks
      `cur` already in the accumulator. */
  function PackGroups(max: int, cur: seq<string>, pcs: seq<string>): seq<seq<string>>
    decreases |pcs|
  {
    if pcs == [] then Flush(cur)
    else
      var step := PackStep(max, cur, pcs[0]);
      step.0 + PackGroups(max, step.1, pcs[1..])
  }

  /** The final chunks made of the possible chunks `pcs`. */
  function Aggregate(max: int, pcs: seq<string>): seq<string>
  {
    ConcatEach(PackGroups(max, [], pcs))
  }

  lemma FlushConcat(cur: seq<string>)
    ensures Concat(ConcatEach(Flush(cur))) == Concat(cur)
  {
    if Concat(cur) != "" { ConcatSingle(Concat(cur)); }
  }

  lemma PackStepConcat(max: int, cur: seq<string>, c: string)
    ensures var step := PackStep(max, cur, c);
      Concat(ConcatEach(step.0)) + Concat(step.1) == Concat(cur) + c
  {
    ConcatSingle(c);
    if |c| > max {
      var closed := PackStep(max, cur, c).0;
      if Concat(cur) == "" {
        assert closed == [[c]];
        assert ConcatEach(closed) == [c];
      } else {
        assert closed == [cur, [c]];
        assert ConcatEach(closed) == [Concat(cur), c];
        assert Concat([Concat(cur), c]) == Concat(cur) + Concat([c]);
      }
    } else if |Concat(cur)| + |c| <= max {
      ConcatAppend(cur, [c]);
    } else {
      ConcatSingle(Concat(cur));
    }
  }

  lemma GlueConcat(closed: seq<seq<string>>, rest: seq<seq<string>>, cur: seq<string>,
                   next: seq<string>, c: string, tail: seq<string>)
    requires Concat(ConcatEach(closed)) + Concat(next) == Concat(cur) + c
    requires Concat(ConcatEach(rest)) == Concat(next) + Concat(tail)
    ensures Concat(ConcatEach(closed + rest)) == Concat(cur) + Concat([c] + tail)
  {
    ConcatEachAppend(closed, rest);
    ConcatAppend(ConcatEach(closed), ConcatEach(rest));
    assert ([c] + tail)[1..] == tail;
    AppendAssoc(Concat(ConcatEach(closed)), Concat(next), Concat(tail));
    AppendAssoc(Concat(cur), c, Concat(tail));
  }

  /** Packing loses and reorders nothing. */
  lemma {:induction false} PackGroupsConcat(max: int, cur: seq<string>, pcs: seq<string>)
    ensures Concat(ConcatEach(PackGroups(max, cur, pcs))) == Concat(cur) + Concat(pcs)
    decreases |pcs|
  {
    if pcs == [] {
      FlushConcat(cur);
    } else {
      var step := PackStep(max, cur, pcs[0]);
      var closed, next := step.0, step.1;
      var rest := PackGroups(max, next, pcs[1..]);
      assert PackGroups(max, cur, pcs) == closed + rest;
      assert pcs == [pcs[0]] + pcs[1..];
      PackStepConcat(max, cur, pcs[0]);
      PackGroupsConcat(max, next, pcs[1..]);
      GlueConcat(closed, rest, cur, next, pcs[0], pcs[1..]);
    }
  }

  predicate NoEmpty(ss: seq<string>)
  {
    forall j :: 0 <= j < |ss| ==> ss[j] != ""
  }

  /** What the packing keeps true of its accumulator: empty, or within `max`. */
  predicate AccOk(max: int, cur: seq<string>)
  {
    cur == [] || |Concat(cur)| <= max
  }

  /** A final group: non-empty, within `max` or a single oversized possible
      chunk, and never empty text when `max >= 0`. */
  predicate GroupOk(max: int, g: seq<string>)
  {
    && g != []
    && (|Concat(g)| <= max || (|g| == 1 && |g[0]| > max))
    && (max >= 0 ==> Concat(g) != "")
  }

  /** Greediness between neighbouring groups: a group within `max` is closed
      only when the first chunk of the next group is oversized or would not
      have fitted in it. */
  predicate Greedy(max: int, g: seq<string>, h: seq<string>)
  {
    h != [] && |Concat(g)| <= max && |h[0]| <= max ==> |Concat(g)| + |h[0]| > max
  }

  predicate RulesHold(max: int, gs: seq<seq<string>>)
  {
    && (forall k :: 0 <= k < |gs| ==> GroupOk(max, gs[k]))
    && (forall k :: 0 <= k < |gs| - 1 ==> Greedy(max, gs[k], gs[k + 1]))
  }

  /** The first group produced from the accumulator `cur` extends it. */
  predicate Extends(gs: seq<seq<string>>, cur: seq<string>)
  {
    gs != [] && |cur| <= |gs[0]| && gs[0][..|cur|] == cur
  }

  lemma RulesAppend(max: int, a: seq<seq<string>>, b: seq<seq<string>>)
    requires RulesHold(max, a) && RulesHold(max, b)
    requires a != [] && b != [] ==> Greedy(max, a[|a| - 1], b[0])
    ensures RulesHold(max, a + b)
  {
    var ab := a + b;
    forall k | 0 <= k < |ab| - 1
      ensures Greedy(max, ab[k], ab[k + 1])
    {
      if k < |a| - 1 {
        assert ab[k] == a[k] && ab[k + 1] == a[k + 1];
      } else if k == |a| - 1 {
        assert ab[k] == a[|a| - 1] && ab[k + 1] == b[0];
      } else {
        assert ab[k] == b[k - |a|] && ab[k + 1] == b[k - |a| + 1];
      }
    }
  }

  /** An oversized chunk closes the accumulator and goes out alone. */
  lemma OversizedStepRules(max: int, cur: seq<string>, c: string, rest: seq<seq<string>>)
    requires AccOk(max, cur) && |c| > max
    requires RulesHold(max, rest)
    ensures RulesHold(max, Flush(cur) + [[c]] + rest)
    ensures Concat(cur) != "" ==> Extends(Flush(cur) + [[c]] + rest, cur)
  {
    ConcatSingle(c);
    assert GroupOk(max, [c]);
    if Concat(cur) != "" {
      assert GroupOk(max, cur);
      RulesAppend(max, [cur], [[c]]);
    }
    assert RulesHold(max, Flush(cur) + [[c]]);
    RulesAppend(max, Flush(cur) + [[c]], rest);
  }

  /** A chunk that does not fit starts a new accumulator after closing `cur`. */
  lemma NewGroupStepRules(max: int, cur: seq<string>, c: string, rest: seq<seq<string>>)
    requires AccOk(max, cur) && |c| <= max && |Concat(cur)| + |c| > max
    requires RulesHold(max, rest) && Extends(rest, [c])
    ensures RulesHold(max, [cur] + rest)
    ensures Extends([cur] + rest, cur)
  {
    assert cur != [];
    assert rest[0][0] == c by { assert rest[0][..1] == [c]; }
    assert GroupOk(max, cur);
    RulesAppend(max, [cur], rest);
  }

  /** The packing rules, group by group (see `GroupOk` and `Greedy`), and the
      first group extends a non-empty accumulator. */
  lemma {:induction false} PackGroupsRules(max: int, cur: seq<string>, pcs: seq<string>)
    requires AccOk(max, cur)
    ensures RulesHold(max, PackGroups(max, cur, pcs))
    ensures Concat(cur) != "" ==> Extends(PackGroups(max, cur, pcs), cur)
    decreases |pcs|
  {
    if pcs == [] {
      if Concat(cur) != "" { assert GroupOk(max, cur); }
    } else {
      var c := pcs[0];
      if |c| > max {
        PackGroupsRules(max, [], pcs[1..]);
        OversizedStepRules(max, cur, c, PackGroups(max, [], pcs[1..]));
      } else if |Concat(cur)| + |c| <= max {
        ConcatAppend(cur, [c]);
        ConcatSingle(c);
        PackGroupsRules(max, cur + [c], pcs[1..]);
        if Concat(cur) != "" {
          var g := PackGroups(max, cur + [c], pcs[1..]);
          assert g[0][..|cur + [c]|][..|cur|] == cur;
        }
      } else {
        ConcatSingle(c);
        PackGroupsRules(max, [c], pcs[1..]);
        NewGroupStepRules(max, cur, c, PackGroups(max, [c], pcs[1..]));
      }
    }
  }

  /** A run of non-empty texts has empty text only when it is empty, so
      flushing it keeps exactly its pieces. */
  lemma FlushNoEmpty(cur: seq<string>)
    requires NoEmpty(cur)
    ensures Concat(Flush(cur)) == cur
  {
    if cur != [] {
      assert Concat(cur) == cur[0] + Concat(cur[1..]);
      assert cur[0] != "";
      ConcatSingle(cur);
    }
  }

  /** One packing step keeps the pieces: the closed groups followed by the
      new accumulator are the old accumulator and the new piece. */
  lemma PackStepPartition(max: int, cur: seq<string>, c: string)
    requires NoEmpty(cur) && c != ""
    ensures var step := PackStep(max, cur, c);
      Concat(step.0) + step.1 == cur + [c] && NoEmpty(step.1)
  {
    FlushNoEmpty(cur);
    var step := PackStep(max, cur, c);
    if |c| > max {
      ConcatAppend(Flush(cur), [[c]]);
      ConcatSingle([c]);
    } else if |Concat(cur)| + |c| <= max {
      assert step.0 == [] && step.1 == cur + [c];
    } else {
      assert |Concat(cur)| > 0;
      assert Flush(cur) == [cur];
      ConcatSingle(cur);
      assert step == ([cur], [c]);
    }
  }

  lemma NoEmptyTail(pcs: seq<string>)
    requires NoEmpty(pcs) && pcs != []
    ensures NoEmpty(pcs[1..]) && pcs[0] != ""
  {
    assert forall j :: 0 <= j < |pcs| - 1 ==> pcs[1..][j] == pcs[j + 1];
  }

  /** The packing of a non-empty run of pieces: the groups its first step
      closes, then the packing of the rest. */
  lemma PackGroupsCons(max: int, cur: seq<string>, pcs: seq<string>)
    requires pcs != []
    ensures PackGroups(max, cur, pcs) ==
      PackStep(max, cur, pcs[0]).0 + PackGroups(max, PackStep(max, cur, pcs[0]).1, pcs[1..])
  {
  }

  /** The inductive step of the partition: when the groups after the first
      piece partition the rest, the groups of all pieces partition them all. */
  lemma PackGroupsPartitionCons(max: int, cur: seq<string>, pcs: seq<string>)
    requires NoEmpty(cur) && pcs != [] && pcs[0] != ""
    requires Concat(PackGroups(max, PackStep(max, cur, pcs[0]).1, pcs[1..])) == PackStep(max, cur, pcs[0]).1 + pcs[1..]
    ensures Concat(PackGroups(max, cur, pcs)) == cur + pcs
  {
    var closed := PackStep(max, cur, pcs[0]).0;
    var open := PackStep(max, cur, pcs[0]).1;
    var rest := PackGroups(max, open, pcs[1..]);
    PackGroupsCons(max, cur, pcs);
    PackStepPartition(max, cur, pcs[0]);
    ConcatAppend(closed, rest);
    AppendAssoc(Concat(closed), open, pcs[1..]);
    assert pcs == [pcs[0]] + pcs[1..];
    AppendAssoc(cur, [pcs[0]], pcs[1..]);
  }

  /** With no empty possible chunk, the groups partition them in order. */
  lemma {:induction false} PackGroupsPartition(max: int, cur: seq<string>, pcs: seq<string>)
    requires NoEmpty(cur) && NoEmpty(pcs)
    ensures Concat(PackGroups(max, cur, pcs)) == cur + pcs
    decreases |pcs|
  {
    if pcs == [] {
      FlushNoEmpty(cur);
    } else {
      NoEmptyTail(pcs);
      PackStepPartition(max, cur, pcs[0]);
      PackGroupsPartition(max, PackStep(max, cur, pcs[0]).1, pcs[1..]);
      PackGroupsPartitionCons(max, cur, pcs);
    }
  }

  /** One packing step on texts: the texts of the closed groups and of the
      new accumulator. */
  lemma PackStepText(max: int, cur: seq<string>, c: string)
    ensures var step := PackStep(max, cur, c);
      && ConcatEach(step.0) ==
        (if |c| > max then (if Concat(cur) == "" then [] else [Concat(cur)]) + [c]
         else if |Concat(cur)| + |c| <= max then []
         else [Concat(cur)])
      && Concat(step.1) ==
        (if |c| > max then "" else if |Concat(cur)| + |c| <= max then Concat(cur) + c else c)
  {
    ConcatSingle(c);
    if |c| > max {
      var closed := PackStep(max, cur, c).0;
      if Concat(cur) == "" {
        assert closed == [[c]];
      } else {
        assert closed == [cur, [c]];
      }
    } else if |Concat(cur)| + |c| <= max {
      ConcatAppend(cur, [c]);
    }
  }

  /** The packing of `pcs[i..]` is one step followed by the packing of the rest. */
  lemma PackGroupsStep(max: int, closed: seq<seq<string>>, open: seq<string>, pcs: seq<string>, i: nat)
    requires i < |pcs|
    requires closed + PackGroups(max, open, pcs[i..]) == PackGroups(max, [], pcs)
    ensures var step := PackStep(max, open, pcs[i]);
      closed + step.0 + PackGroups(max, step.1, pcs[i + 1..]) == PackGroups(max, [], pcs)
  {
    assert pcs[i..][1..] == pcs[i + 1..];
  }

  /** One possible chunk of the loop of `aggregate_chunks`: the chunks it
      completes and the new accumulator, from the accumulator before it. */
  method PackChunk(max: int, current: string, chunk: string, ghost open: seq<string>)
    returns (emitted: seq<string>, next: string)
    requires current == Concat(open)
    ensures emitted == ConcatEach(PackStep(max, open, chunk).0)
    ensures next == Concat(PackStep(max, open, chunk).1)
  {
    PackStepText(max, open, chunk);
    emitted := [];
    next := current;
    if |chunk| > max {
      if current != "" {
        emitted := [current];
        next := "";
      }
      emitted := emitted + [chunk];
      next := "";
    } else if |current| + |chunk| <= max {
      next := current + chunk;
    } else {
      emitted := [current];
      next := chunk;
    }
  }

  /** `aggregate_chunks`: one pass over the possible chunks with a string
      accumulator. */
  method AggregateChunks(max: int, possibleChunks: seq<string>) returns (finalChunks: seq<string>)
    ensures finalChunks == Aggregate(max, possibleChunks)
    ensures Concat(finalChunks) == Concat(possibleChunks)
  {
    finalChunks := [];
    var current := "";
    ghost var open: seq<string> := [];
    ghost var closed: seq<seq<string>> := [];
    var i := 0;
    while i < |possibleChunks|
      invariant 0 <= i <= |possibleChunks|
      invariant current == Concat(open)
      invariant finalChunks == ConcatEach(closed)
      invariant closed + PackGroups(max, open, possibleChunks[i..]) == PackGroups(max, [], possibleChunks)
    {
      var chunk := possibleChunks[i];
      ghost var step := PackStep(max, open, chunk);
      PackGroupsStep(max, closed, open, possibleChunks, i);
      ConcatEachAppend(closed, step.0);
      var emitted;
      emitted, current := PackChunk(max, current, chunk, open);
      finalChunks := finalChunks + emitted;
      closed := closed + step.0;
      open := step.1;
      i := i + 1;
    }
    assert possibleChunks[i..] == [];
    assert ConcatEach(closed + Flush(open)) == ConcatEach(closed) + ConcatEach(Flush(open)) by {
      ConcatEachAppend(closed, Flush(open));
    }
    if current != "" {
      finalChunks := finalChunks + [current];
      assert ConcatEach([open]) == [current];
    }
    closed := closed + Flush(open);
    assert finalChunks == Aggregate(max, possibleChunks);
    assert Concat(finalChunks) == Concat(possibleChunks) by {
      PackGroupsConcat(max, [], possibleChunks);
      assert Concat<char>([]) == "";
    }
  }

  // ---------------------------------------------------------------------------
  // Both phases

  /** The final chunks of a text. */
  function Chunks(content: string, max: int): seq<string>
  {
    Aggregate(max, PossibleChunks(content))
  }

  /** `split_into_chunks`. */
  method SplitIntoChunks(content: string, max: int) returns (chunks: seq<string>)
    ensures chunks == Chunks(content, max)
    ensures Concat(chunks) == content
  {
    var possible := SplitIntoPossibleChunks(content);
    chunks := AggregateChunks(max, possible);
  }

  /** The final chunks concatenate back to the content, and there are none
      exactly when the content is empty. */
  lemma ChunksRoundTrip(content: string, max: int)
    ensures Concat(Chunks(content, max)) == content
    ensures Chunks(content, max) == [] <==> content == ""
  {
    var pcs := PossibleChunks(content);
    PossibleChunksStructure(content);
    PackGroupsConcat(max, [], pcs);
    assert Concat(Chunks(content, max)) == content;
    if content == "" {
      assert pcs == [];
    }
  }

  /** Each final chunk is the text of a group of consecutive possible chunks;
      the groups partition the possible chunks in order and obey the packing
      rules: a chunk exceeds `max` only when it is one oversized possible
      chunk, with `max >= 0` no chunk is empty, and a chunk within `max` ends
      only where the next possible chunk would not fit or is oversized. */
  lemma ChunksPacking(content: string, max: int)
    ensures var gs := PackGroups(max, [], PossibleChunks(content));
      && Chunks(content, max) == ConcatEach(gs)
      && Concat(gs) == PossibleChunks(content)
      && RulesHold(max, gs)
  {
    var pcs := PossibleChunks(content);
    PossibleChunksStructure(content);
    assert NoEmpty(pcs);
    PackGroupsPartition(max, [], pcs);
    PackGroupsRules(max, [], pcs);
    assert [] + pcs == pcs;
  }

  /** A non-empty content that fits in `max` is a single chunk. */
  lemma SmallContentIsOneChunk(content: string, max: int)
    requires content != "" && |content| <= max
    ensures Chunks(content, max) == [content]
  {
    var pcs := PossibleChunks(content);
    PossibleChunksStructure(content);
    FitsInOneGroup(max, [], pcs);
    assert [] + pcs == pcs;
    ConcatSingle(content);
  }

  lemma {:induction false} FitsInOneGroup(max: int, cur: seq<string>, pcs: seq<string>)
    requires |Concat(cur)| + |Concat(pcs)| <= max
    requires Concat(cur) + Concat(pcs) != ""
    ensures PackGroups(max, cur, pcs) == [cur + pcs]
    decreases |pcs|
  {
    if pcs == [] {
      assert cur + pcs == cur;
    } else {
      assert Concat(pcs) == pcs[0] + Concat(pcs[1..]);
      ConcatAppend(cur, [pcs[0]]);
      ConcatSingle(pcs[0]);
      FitsInOneGroup(max, cur + [pcs[0]], pcs[1..]);
      assert cur + [pcs[0]] + pcs[1..] == cur + pcs;
    }
  }

  // ---------------------------------------------------------------------------
  // A worked example

  /** Three cells, each a marker line followed by one plain line. */
  lemma ThreeCellGroups(isMarker: string -> bool, m: string, l1: string, l2: string, l3: string)
    requires isMarker(m) && !isMarker(l1) && !isMarker(l2) && !isMarker(l3)
    requires m != ""
    ensures CellGroups(isMarker, [], [m, l1, m, l2, m, l3]) == [[m, l1], [m, l2], [m, l3]]
  {
    ConcatPair(m, l1);
    ConcatPair(m, l2);
    ConcatPair(m, l3);
    assert [m] + [l3] == [m, l3] && [l3][1..] == [];
    assert CellGroups(isMarker, [m], [l3]) == [[m, l3]];
    assert [m, l3][1..] == [l3];
    assert CellGroups(isMarker, [m, l2], [m, l3]) == [[m, l2], [m, l3]];
    assert [m] + [l2] == [m, l2] && [l2, m, l3][1..] == [m, l3];
    assert CellGroups(isMarker, [m], [l2, m, l3]) == [[m, l2], [m, l3]];
    assert [m, l2, m, l3][1..] == [l2, m, l3];
    assert CellGroups(isMarker, [m, l1], [m, l2, m, l3]) == [[m, l1], [m, l2], [m, l3]];
    assert [m] + [l1] == [m, l1] && [l1, m, l2, m, l3][1..] == [m, l2, m, l3];
    assert CellGroups(isMarker, [m], [l1, m, l2, m, l3]) == [[m, l1], [m, l2], [m, l3]];
    assert [m, l1, m, l2, m, l3][1..] == [l1, m, l2, m, l3];
  }

  /** Three possible chunks where the first two fit together and the third
      would overflow them. */
  lemma PackThree(max: int, c1: string, c2: string, c3: string)
    requires 0 < |c3| <= max && |c1| + |c2| <= max < |c1| + |c2| + |c3|
    ensures PackGroups(max, [], [c1, c2, c3]) == [[c1, c2], [c3]]
  {
    ConcatSingle(c1);
    ConcatPair(c1, c2);
    ConcatSingle(c3);
    assert [] + [c1] == [c1] && [c1] + [c2] == [c1, c2];
    assert [c1, c2, c3][1..] == [c2, c3] && [c2, c3][1..] == [c3] && [c3][1..] == [];
    assert PackGroups(max, [c3], []) == [[c3]];
    assert PackGroups(max, [c1, c2], [c3]) == [[c1, c2], [c3]];
    assert PackGroups(max, [c1], [c2, c3]) == [[c1, c2], [c3]];
  }

  /** The texts of those two chunks. */
  lemma PackThreeText(max: int, c1: string, c2: string, c3: string)
    requires 0 < |c3| <= max && |c1| + |c2| <= max < |c1| + |c2| + |c3|
    ensures ConcatEach(PackGroups(max, [], [c1, c2, c3])) == [c1 + c2, c3]
  {
    PackThree(max, c1, c2, c3);
    ConcatPair(c1, c2);
    ConcatSingle(c3);
  }

  lemma NotMarkerLine(line: string)
    requires line != [] && !IsSpace(line[0]) && line[0] != '#' && line[0] != '/'
    ensures !IsMarker(line)
  {
    RStripFacts(line);
    assert LStrip(line) == line;
  }

  lemma HashMarkerLine()
    ensures IsMarker("# %%\n")
  {
    assert LStrip("# %%\n") == "# %%\n";
    assert "# %%\n"[..4] == "# %%";
    assert RStrip("# %%") == "# %%";
  }

  /** Six well-formed lines split back out of their text. */
  lemma SixLines(a: string, b: string, c: string, d: string, e: string, f: string)
    requires WellFormedLines([a, b, c, d, e, f])
    ensures SplitLines(a + b + c + d + e + f) == [a, b, c, d, e, f]
  {
    var lines := [a, b, c, d, e, f];
    assert lines == [a, b] + [c, d] + [e, f];
    ConcatAppend([a, b] + [c, d], [e, f]);
    ConcatAppend([a, b], [c, d]);
    ConcatPair(a, b);
    ConcatPair(c, d);
    ConcatPair(e, f);
    AppendAssoc(a + b, c, d);
    AppendAssoc(a + b + c + d, e, f);
    SplitLinesOfConcat(lines);
  }

  /** The possible chunks of three cells, each a marker line and one plain line. */
  lemma ThreeCellsPossible(m: string, l1: string, l2: string, l3: string)
    requires IsMarker(m) && !IsMarker(l1) && !IsMarker(l2) && !IsMarker(l3)
    requires WellFormedLines([m, l1, m, l2, m, l3])
    ensures PossibleChunks(m + l1 + m + l2 + m + l3) == [m + l1, m + l2, m + l3]
  {
    SixLines(m, l1, m, l2, m, l3);
    assert IsLine([m, l1, m, l2, m, l3][0]);
    ThreeCellGroups(IsMarker, m, l1, l2, l3);
    ConcatPair(m, l1);
    ConcatPair(m, l2);
    ConcatPair(m, l3);
    assert ConcatEach([[m, l1], [m, l2], [m, l3]]) == [m + l1, m + l2, m + l3];
  }

  /** Three cells, each a marker line and one plain line, form well-formed
      lines when every line but the last ends with its break. */
  lemma ThreeCellLines(m: string, l1: string, l2: string, l3: string)
    requires IsLine(m) && IsLine(l1) && IsLine(l2) && IsLine(l3)
    requires EndsWithNewline(m) && EndsWithNewline(l1) && EndsWithNewline(l2)
    ensures WellFormedLines([m, l1, m, l2, m, l3])
  {
  }

  /** Three such cells where the first two fit in `max` together and the
      third would overflow them: the first two share a chunk. */
  lemma ThreeCells(m: string, l1: string, l2: string, l3: string, max: int)
    requires IsMarker(m) && !IsMarker(l1) && !IsMarker(l2) && !IsMarker(l3)
    requires WellFormedLines([m, l1, m, l2, m, l3])
    requires 0 < |m + l3| <= max && |m + l1| + |m + l2| <= max < |m + l1| + |m + l2| + |m + l3|
    ensures Chunks(m + l1 + m + l2 + m + l3, max) == [m + l1 + m + l2, m + l3]
  {
    var c1, c2, c3 := m + l1, m + l2, m + l3;
    ThreeCellsPossible(m, l1, l2, l3);
    PackThreeText(max, c1, c2, c3);
    AppendAssoc(m + l1, m, l2);
  }

  /** The lines of the example: a marker line and three plain lines. */
  lemma ExampleMarkers()
    ensures IsMarker("# %%\n")
    ensures !IsMarker("Chunk 1\n") && !IsMarker("Chunk 2\n") && !IsMarker("Chunk 3")
  {
    HashMarkerLine();
    NotMarkerLine("Chunk 1\n");
    NotMarkerLine("Chunk 2\n");
    NotMarkerLine("Chunk 3");
  }

  /** The lines of the example are well formed. */
  lemma ExampleLines()
    ensures WellFormedLines(["# %%\n", "Chunk 1\n", "# %%\n", "Chunk 2\n", "# %%\n", "Chunk 3"])
  {
    var m, l1, l2, l3 := "# %%\n", "Chunk 1\n", "Chunk 2\n", "Chunk 3";
    assert IsLine(m) && IsLine(l1) && IsLine(l2) && IsLine(l3);
    ThreeCellLines(m, l1, l2, l3);
  }

  /** Three marked cells of 13, 13 and 12 characters with `max` 30: the first
      two share a chunk, the third would overflow it and starts a new one.
      The texts are written as the concatenation of their lines. */
  lemma ThreeCellsExample()
    ensures Chunks("# %%\n" + "Chunk 1\n" + "# %%\n" + "Chunk 2\n" + "# %%\n" + "Chunk 3", 30)
         == ["# %%\n" + "Chunk 1\n" + "# %%\n" + "Chunk 2\n", "# %%\n" + "Chunk 3"]
  {
    ExampleMarkers();
    ExampleLines();
    ThreeCells("# %%\n", "Chunk 1\n", "Chunk 2\n", "Chunk 3", 30);
  }
}
