/** The chunk-by-chunk conversation both converters hold with a language
    model: for each chunk a user turn with the formatted chunk prompt, then
    the model's reply as an assistant turn. The model is a function from the
    model id and the whole history so far to a reply, or to None when the
    call fails (after whatever retries the transport makes). */
module Conversation {
  import opened Common

  type Provider = (string, seq<Message>) -> Option<string>

  /** The outcome of converting chunks: the history at the end, the replies
      received, and whether every chunk was converted. */
  datatype Run = Run(history: seq<Message>, replies: seq<string>, ok: bool)

  function ChunkBinding(chunk: string): map<string, string>
  {
    map["chunk" := chunk]
  }

  /** Converting `chunks` after `history`. A chunk whose prompt cannot be
      formatted stops the run before its user turn; a failed call stops it
      after its user turn. */
  function ConvertRun(provider: Provider, modelId: string, prompt: Template,
                      history: seq<Message>, chunks: seq<string>): Run
    decreases |chunks|
  {
    if chunks == [] then Run(history, [], true)
    else
      match Format(prompt, ChunkBinding(chunks[0]))
      case None => Run(history, [], false)
      case Some(u) =>
        var h := history + [Message(User, u)];
        match provider(modelId, h)
        case None => Run(h, [], false)
        case Some(a) =>
          var rest := ConvertRun(provider, modelId, prompt, h + [Message(Assistant, a)], chunks[1..]);
          Run(rest.history, [a] + rest.replies, rest.ok)
  }

  /** The turns of chunk `i` of a successful run, at their place after `base`
      turns: the formatted prompt, then the reply the provider gave when
      shown everything before it. */
  predicate ChunkTurnsAt(provider: Provider, modelId: string, prompt: Template, h: seq<Message>,
                         base: nat, chunks: seq<string>, replies: seq<string>, i: nat)
    requires i < |chunks| && i < |replies| && base + 2 * |chunks| <= |h|
  {
    && Format(prompt, ChunkBinding(chunks[i])).Some?
    && h[base + 2 * i] == Message(User, Format(prompt, ChunkBinding(chunks[i])).value)
    && h[base + 2 * i + 1] == Message(Assistant, replies[i])
    && provider(modelId, h[..base + 2 * i + 1]) == Some(replies[i])
  }

  /** The history only grows: the run starts from the given history. */
  lemma {:induction false} ConvertRunExtends(provider: Provider, modelId: string, prompt: Template,
                                             history: seq<Message>, chunks: seq<string>)
    ensures var r := ConvertRun(provider, modelId, prompt, history, chunks);
      |history| <= |r.history| && r.history[..|history|] == history
    decreases |chunks|
  {
    if chunks != [] {
      var f := Format(prompt, ChunkBinding(chunks[0]));
      if f.Some? {
        var h := history + [Message(User, f.value)];
        var a := provider(modelId, h);
        if a.Some? {
          var h2 := h + [Message(Assistant, a.value)];
          ConvertRunExtends(provider, modelId, prompt, h2, chunks[1..]);
          assert h2[..|history|] == history;
        }
      }
    }
  }

  /** A successful run has one reply per chunk and two turns per chunk after
      the given history, each pair as `ChunkTurnsAt` describes. */
  lemma {:induction false} ConvertRunSuccess(provider: Provider, modelId: string, prompt: Template,
                                             history: seq<Message>, chunks: seq<string>)
    requires ConvertRun(provider, modelId, prompt, history, chunks).ok
    ensures var r := ConvertRun(provider, modelId, prompt, history, chunks);
      && |r.replies| == |chunks|
      && |r.history| == |history| + 2 * |chunks|
      && r.history[..|history|] == history
      && forall i :: 0 <= i < |chunks| ==>
           ChunkTurnsAt(provider, modelId, prompt, r.history, |history|, chunks, r.replies, i)
    decreases |chunks|
  {
    var r := ConvertRun(provider, modelId, prompt, history, chunks);
    ConvertRunExtends(provider, modelId, prompt, history, chunks);
    if chunks != [] {
      var u := Format(prompt, ChunkBinding(chunks[0])).value;
      var h := history + [Message(User, u)];
      var a := provider(modelId, h).value;
      var h2 := h + [Message(Assistant, a)];
      var rest := ConvertRun(provider, modelId, prompt, h2, chunks[1..]);
      ConvertRunSuccess(provider, modelId, prompt, h2, chunks[1..]);
      assert r.history == rest.history && r.replies == [a] + rest.replies;
      assert r.replies[1..] == rest.replies;
      assert ChunkTurnsAt(provider, modelId, prompt, r.history, |history|, chunks, r.replies, 0) by {
        assert r.history[..|h2|] == h2;
        assert r.history[..|history| + 1] == h2[..|history| + 1] == h;
      }
      forall i | 0 < i < |chunks|
        ensures ChunkTurnsAt(provider, modelId, prompt, r.history, |history|, chunks, r.replies, i)
      {
        ChunkTurnsShift(provider, modelId, prompt, r.history, |history|, chunks, r.replies, i);
      }
    }
  }

  /** The turns of chunk `i` are those of chunk `i - 1` of the run over the
      remaining chunks, two turns further on. */
  lemma ChunkTurnsShift(provider: Provider, modelId: string, prompt: Template, h: seq<Message>,
                        base: nat, chunks: seq<string>, replies: seq<string>, i: nat)
    requires 0 < i < |chunks| && |replies| == |chunks| && base + 2 * |chunks| <= |h|
    requires ChunkTurnsAt(provider, modelId, prompt, h, base + 2, chunks[1..], replies[1..], i - 1)
    ensures ChunkTurnsAt(provider, modelId, prompt, h, base, chunks, replies, i)
  {
    assert chunks[1..][i - 1] == chunks[i];
    assert replies[1..][i - 1] == replies[i];
    assert base + 2 + 2 * (i - 1) == base + 2 * i;
  }

  /** A run fails only when some chunk fails: if every chunk prompt can be
      formatted and the provider always answers, the run succeeds. */
  lemma {:induction false} ConvertRunSucceeds(provider: Provider, modelId: string, prompt: Template,
                                              history: seq<Message>, chunks: seq<string>)
    requires forall i :: 0 <= i < |chunks| ==> Format(prompt, ChunkBinding(chunks[i])).Some?
    requires forall h :: provider(modelId, h).Some?
    ensures ConvertRun(provider, modelId, prompt, history, chunks).ok
    decreases |chunks|
  {
    if chunks != [] {
      var u := Format(prompt, ChunkBinding(chunks[0])).value;
      var h := history + [Message(User, u)];
      var a := provider(modelId, h).value;
      assert forall i :: 0 <= i < |chunks[1..]| ==> chunks[1..][i] == chunks[i + 1];
      ConvertRunSucceeds(provider, modelId, prompt, h + [Message(Assistant, a)], chunks[1..]);
    }
  }

  /** Turns alternate between user and assistant from index `from` on,
      starting with a user turn. */
  predicate AlternatesFrom(h: seq<Message>, from: nat)
  {
    forall i :: from <= i < |h| ==> h[i].role == (if (i - from) % 2 == 0 then User else Assistant)
  }

  /** After a successful run the chunk turns alternate, user first. */
  lemma ConvertRunAlternates(provider: Provider, modelId: string, prompt: Template,
                             history: seq<Message>, chunks: seq<string>)
    requires ConvertRun(provider, modelId, prompt, history, chunks).ok
    ensures AlternatesFrom(ConvertRun(provider, modelId, prompt, history, chunks).history, |history|)
  {
    var r := ConvertRun(provider, modelId, prompt, history, chunks);
    ConvertRunSuccess(provider, modelId, prompt, history, chunks);
    forall i | |history| <= i < |r.history|
      ensures r.history[i].role == (if (i - |history|) % 2 == 0 then User else Assistant)
    {
      var k := (i - |history|) / 2;
      assert ChunkTurnsAt(provider, modelId, prompt, r.history, |history|, chunks, r.replies, k);
    }
  }

  /** `rest` is what remains of the run `whole` once `done` replies were received. */
  predicate RunRest(rest: Run, done: seq<string>, whole: Run)
  {
    rest.history == whole.history && rest.ok == whole.ok && done + rest.replies == whole.replies
  }

  /** A run over chunks is its first chunk's run followed, when that one
      succeeds, by the run over the rest from where it left the history. */
  lemma ConvertRunCons(provider: Provider, modelId: string, prompt: Template,
                       history: seq<Message>, chunks: seq<string>)
    requires chunks != []
    ensures var first := ConvertRun(provider, modelId, prompt, history, [chunks[0]]);
      var rest := ConvertRun(provider, modelId, prompt, first.history, chunks[1..]);
      ConvertRun(provider, modelId, prompt, history, chunks) ==
        if first.ok then Run(rest.history, first.replies + rest.replies, rest.ok) else first
  {
    assert [chunks[0]][1..] == [];
  }

  /** One step of a loop over the chunks: given the run over chunk `i` alone,
      either the whole run stopped there, with that history, or the rest of
      it continues from that history after one more reply. */
  lemma RunRestStep(provider: Provider, modelId: string, prompt: Template, chunks: seq<string>,
                    i: nat, history: seq<Message>, done: seq<string>, whole: Run,
                    next: seq<Message>, reply: Option<string>)
    requires i < |chunks|
    requires RunRest(ConvertRun(provider, modelId, prompt, history, chunks[i..]), done, whole)
    requires ConvertRun(provider, modelId, prompt, history, [chunks[i]]) ==
      Run(next, if reply.Some? then [reply.value] else [], reply.Some?)
    ensures reply.None? ==> !whole.ok && whole.history == next && whole.replies == done
    ensures reply.Some? ==>
      RunRest(ConvertRun(provider, modelId, prompt, next, chunks[i + 1..]), done + [reply.value], whole)
  {
    ConvertRunCons(provider, modelId, prompt, history, chunks[i..]);
    assert chunks[i..][0] == chunks[i] && chunks[i..][1..] == chunks[i + 1..];
  }

  /** The run over one chunk: nothing when its prompt cannot be formatted,
      the user turn alone when the call fails, else both turns and the reply. */
  lemma ConvertRunOne(provider: Provider, modelId: string, prompt: Template,
                      history: seq<Message>, chunk: string)
    ensures var r := ConvertRun(provider, modelId, prompt, history, [chunk]);
      match Format(prompt, ChunkBinding(chunk))
      case None => r == Run(history, [], false)
      case Some(u) =>
        var h := history + [Message(User, u)];
        match provider(modelId, h)
        case None => r == Run(h, [], false)
        case Some(a) => r == Run(h + [Message(Assistant, a)], [a], true)
  {
    assert [chunk][1..] == [];
  }

  /** A recording provider that answers with the number of messages it was
      shown, as the test double of the repository does. */
  function SpyReply(n: nat): string
  {
    "Received " + NatToString(n) + " message(s)"
  }

  function Spy(modelId: string, h: seq<Message>): Option<string>
  {
    Some(SpyReply(|h|))
  }

  /** With the spy, the reply to chunk `i` counts the history before it plus
      the two turns of each earlier chunk and its own user turn. */
  lemma SpyReplies(modelId: string, prompt: Template, history: seq<Message>, chunks: seq<string>)
    requires forall i :: 0 <= i < |chunks| ==> Format(prompt, ChunkBinding(chunks[i])).Some?
    ensures var r := ConvertRun(Spy, modelId, prompt, history, chunks);
      && r.ok && |r.replies| == |chunks|
      && forall i :: 0 <= i < |chunks| ==> r.replies[i] == SpyReply(|history| + 2 * i + 1)
  {
    ConvertRunSucceeds(Spy, modelId, prompt, history, chunks);
    var r := ConvertRun(Spy, modelId, prompt, history, chunks);
    ConvertRunSuccess(Spy, modelId, prompt, history, chunks);
    forall i | 0 <= i < |chunks|
      ensures r.replies[i] == SpyReply(|history| + 2 * i + 1)
    {
      assert ChunkTurnsAt(Spy, modelId, prompt, r.history, |history|, chunks, r.replies, i);
    }
  }
}
