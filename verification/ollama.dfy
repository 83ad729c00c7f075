/** The Ollama-backed model client: construction from a configuration dict,
    the thinking-capable model check, and the streaming generator that turns
    the model's chunks into thinking/content events. The HTTP client is not
    modelled: the models already pulled and the chunks the server streams are
    inputs. */
module Ollama {
  import opened Common
  import opened Text
  import opened Json

  const DefaultHost: string := "http://localhost:11434"
  const ConfigError: string := "config must contain at least Ollama model"
  const DefaultTag: string := ":latest"

  /** What the constructor keeps from the configuration. */
  datatype Settings = Settings(
    host: JsonValue,
    model: string,
    timeout: JsonValue,
    keepAlive: JsonValue,
    options: map<string, JsonValue>,
    numCtx: JsonValue)

  /** The constructor's outcome: the settings and whether the model has to be
      pulled because the server does not list it. */
  datatype Client = Client(settings: Settings, pullModel: bool)

  /** A model name without a tag gets the `:latest` tag. */
  function NormaliseModelName(model: string): (r: string)
    ensures ':' in r
    ensures |r| >= |model| && r[..|model|] == model
  {
    if ':' in model then model else model + DefaultTag
  }

  /** Normalising twice is normalising once. */
  lemma NormaliseModelNameIdempotent(model: string)
    ensures NormaliseModelName(NormaliseModelName(model)) == NormaliseModelName(model)
  {
  }

  /** A name that already has a tag is left exactly as it is. */
  lemma NormaliseKeepsTaggedName(model: string)
    requires ':' in model
    ensures NormaliseModelName(model) == model
  {
  }

  /** `Ollama.__init__`: a missing or empty configuration, or one without a
      model, is refused; the other settings fall back to their defaults. A
      model value that is not a string is refused as a type error. */
  function Init(config: Option<map<string, JsonValue>>, pulled: seq<string>): (r: Outcome<Client>)
    ensures (config.None? || config.value == map[]) ==> r == Raised(ConfigError)
    ensures config.Some? && "model" !in config.value ==> r == Raised(ConfigError)
    ensures r.Returned? ==>
              && config.Some? && "model" in config.value && config.value["model"].JString?
              && r.value.settings.model == NormaliseModelName(config.value["model"].s)
              && r.value.settings.host == GetField(config.value, "ollama_host", JString(DefaultHost))
              && (r.value.pullModel <==> r.value.settings.model !in pulled)
  {
    if config.None? || config.value == map[] then Raised(ConfigError)
    else if "model" !in config.value then Raised(ConfigError)
    else
      var fields := config.value;
      match fields["model"]
      case JString(name) =>
        var options := GetField(fields, "options", JObject(map[]));
        if !options.JObject? then Raised("AttributeError")
        else
          var model := NormaliseModelName(name);
          var settings := Settings(
            GetField(fields, "ollama_host", JString(DefaultHost)),
            model,
            GetField(fields, "ollama_timeout", JScalar("240.0")),
            GetField(fields, "keep_alive", JScalar("None")),
            options.fields,
            GetField(options.fields, "num_ctx", JScalar("2048")));
          Returned(Client(settings, model !in pulled))
      case _ => Raised("TypeError")
  }

  /** A configuration naming a string model always yields a client for it. */
  lemma InitAcceptsStringModel(fields: map<string, JsonValue>, name: string, pulled: seq<string>)
    requires "model" in fields && fields["model"] == JString(name)
    requires "options" !in fields
    ensures Init(Some(fields), pulled).Returned?
    ensures Init(Some(fields), pulled).value.settings.model == NormaliseModelName(name)
    ensures Init(Some(fields), pulled).value.settings.numCtx == JScalar("2048")
  {
    assert fields != map[] by {
      assert "model" in fields;
    }
  }

  const ThinkingModels: seq<string> := ["qwen3:4b", "qwen3:8b"]

  /** `_supports_thinking`: one of the thinking model names occurs in the
      lower-cased model name. */
  predicate SupportsThinking(model: string) {
    exists t :: t in ThinkingModels && Contains(Lower(model), t)
  }

  /** The model names that enable thinking are matched ignoring ASCII case. */
  lemma SupportsThinkingIgnoresCase(a: string, b: string)
    requires Lower(a) == Lower(b)
    ensures SupportsThinking(a) <==> SupportsThinking(b)
  {
  }

  /** A name that came without a tag gets `:latest`, so it never names a
      thinking model, whatever its base name. */
  lemma UntaggedNameNeverThinks(name: string)
    requires ':' !in name
    ensures !SupportsThinking(NormaliseModelName(name))
  {
    var full := name + DefaultTag;
    var low := Lower(full);
    assert forall k :: 0 <= k < |low| ==> (low[k] == ':' <==> k == |name|) by {
      forall k | 0 <= k < |low| ensures low[k] == ':' <==> k == |name| {
        if k < |name| {
          assert full[k] == name[k];
          assert name[k] in name;
        } else {
          assert full[k] == DefaultTag[k - |name|];
        }
      }
    }
    forall t, p | t in ThinkingModels && 0 <= p <= |low| - |t| ensures !OccursAt(low, t, p) {
      assert t == "qwen3:4b" || t == "qwen3:8b";
      if p + 5 == |name| {
        assert low[p + 6] == LowerChar(DefaultTag[1]) == 'l';
        assert low[p..p + |t|][6] != t[6];
      } else {
        assert low[p..p + |t|][5] != t[5];
      }
    }
  }

  /** Thinking is asked of the server only when requested and supported. */
  function ThinkFlag(think: bool, model: string): (r: bool)
    ensures r ==> think
  {
    think && SupportsThinking(model)
  }

  /** The chat call `submit_prompt` makes. */
  datatype ChatRequest = ChatRequest(model: string, stream: bool, think: bool)

  /** Both paths of `submit_prompt` pass thinking on only for a thinking
      model: the blocking one through a conditional, the streaming one
      through a conjunction. */
  function SubmitPromptRequest(model: string, stream: bool, think: bool): (r: ChatRequest)
    ensures r.model == model && r.stream == stream
    ensures r.think == ThinkFlag(think, model)
  {
    if stream then ChatRequest(model, true, think && SupportsThinking(model))
    else ChatRequest(model, false, if SupportsThinking(model) then think else false)
  }

  // ---- the streaming generator ----

  /** One streamed message: its thinking and content text, `""` when the
      attribute is absent or empty. */
  datatype Chunk = Chunk(thinking: string, content: string)

  /** How the stream ended: normally, or with an exception whose text is kept. */
  datatype StreamEnd = Finished | Failed(message: string)

  datatype ChunkKind = ThinkingChunk | ThinkingEnd | ContentChunk

  /** An event as the consumer sees it when it is yielded. */
  datatype Event =
    | StreamChunk(kind: ChunkKind, thinking: Option<string>, content: Option<string>, thinkingComplete: bool)
    | Complete(fullResponse: string, thinkingComplete: bool)
    | StreamError(error: string)

  /** The loop's state between chunks. */
  datatype StreamState = StreamState(events: seq<Event>, thinkingComplete: bool, fullResponse: string)

  /** The events one chunk produces: its thinking while thinking is still
      open, then, if it has content, the end-of-thinking marker the first time
      and the content itself. */
  function ChunkEvents(c: Chunk, thinkingComplete: bool): seq<Event> {
    var showThinking := c.thinking != "" && !thinkingComplete;
    var thinking := if showThinking then Some(c.thinking) else None;
    var thinkingEvents := if showThinking then [StreamChunk(ThinkingChunk, thinking, None, thinkingComplete)] else [];
    if c.content == "" then thinkingEvents
    else
      thinkingEvents
      + (if !thinkingComplete then [StreamChunk(ThinkingEnd, thinking, None, true)] else [])
      + [StreamChunk(ContentChunk, thinking, Some(c.content), true)]
  }

  /** The `for chunk in stream` loop. */
  function RunChunks(chunks: seq<Chunk>, st: StreamState): StreamState
    decreases |chunks|
  {
    if |chunks| == 0 then st
    else
      var c := chunks[0];
      var next := StreamState(
        st.events + ChunkEvents(c, st.thinkingComplete),
        st.thinkingComplete || c.content != "",
        if c.content != "" then st.fullResponse + c.content else st.fullResponse);
      RunChunks(chunks[1..], next)
  }

  /** `_submit_prompt_stream`: the chunk events, then the completion event,
      or, when the stream fails, an error event in place of the completion. */
  function SubmitPromptStream(chunks: seq<Chunk>, end: StreamEnd): (r: seq<Event>)
    ensures |r| > 0
  {
    var st := RunChunks(chunks, StreamState([], false, ""));
    match end
    case Finished => st.events + [Complete(st.fullResponse, st.thinkingComplete)]
    case Failed(message) => st.events + [StreamError(message)]
  }

  /** All the content text of the chunks, in order. */
  function AllContent(chunks: seq<Chunk>): string {
    if |chunks| == 0 then "" else chunks[0].content + AllContent(chunks[1..])
  }

  predicate HasContent(chunks: seq<Chunk>) {
    exists i :: 0 <= i < |chunks| && chunks[i].content != ""
  }

  /** The events in the order a consumer may rely on: thinking only before the
      end-of-thinking marker, content only after it, the marker at most once,
      and no completion or error among them. */
  predicate Phased(events: seq<Event>, thinkingDone: bool) {
    if |events| == 0 then true
    else
      var e := events[0];
      e.StreamChunk? &&
      match e.kind
      case ThinkingChunk => !thinkingDone && Phased(events[1..], false)
      case ThinkingEnd => !thinkingDone && Phased(events[1..], true)
      case ContentChunk => thinkingDone && Phased(events[1..], true)
  }

  /** The content carried by content events, in order. */
  function EventContent(events: seq<Event>): string {
    if |events| == 0 then ""
    else (if events[0].StreamChunk? && events[0].content.Some? then events[0].content.value else "")
         + EventContent(events[1..])
  }

  function CountKind(events: seq<Event>, kind: ChunkKind): nat {
    if |events| == 0 then 0
    else (if events[0].StreamChunk? && events[0].kind == kind then 1 else 0) + CountKind(events[1..], kind)
  }

  lemma {:induction false} PhasedAppend(a: seq<Event>, b: seq<Event>, done: bool, mid: bool)
    requires Phased(a, done)
    requires (CountKind(a, ThinkingEnd) > 0 || done) <==> mid
    requires Phased(b, mid)
    ensures Phased(a + b, done)
    decreases |a|
  {
    if |a| > 0 {
      assert (a + b)[1..] == a[1..] + b;
      var next := a[0].kind == ThinkingEnd || done;
      PhasedAppend(a[1..], b, next, mid);
    } else {
      assert a + b == b;
    }
  }

  lemma {:induction false} EventContentAppend(a: seq<Event>, b: seq<Event>)
    ensures EventContent(a + b) == EventContent(a) + EventContent(b)
    decreases |a|
  {
    if |a| > 0 {
      assert (a + b)[1..] == a[1..] + b;
      EventContentAppend(a[1..], b);
    } else {
      assert a + b == b;
    }
  }

  lemma {:induction false} CountKindAppend(a: seq<Event>, b: seq<Event>, kind: ChunkKind)
    ensures CountKind(a + b, kind) == CountKind(a, kind) + CountKind(b, kind)
    decreases |a|
  {
    if |a| > 0 {
      assert (a + b)[1..] == a[1..] + b;
      CountKindAppend(a[1..], b, kind);
    } else {
      assert a + b == b;
    }
  }

  /** What one chunk contributes, for each of the loop's invariants. */
  lemma ChunkEventsFacts(c: Chunk, done: bool)
    ensures Phased(ChunkEvents(c, done), done)
    ensures CountKind(ChunkEvents(c, done), ThinkingEnd) == (if !done && c.content != "" then 1 else 0)
    ensures EventContent(ChunkEvents(c, done)) == c.content
  {
    var es := ChunkEvents(c, done);
    if c.content != "" {
      var showThinking := c.thinking != "" && !done;
      var thinking := if showThinking then Some(c.thinking) else None;
      var t := if showThinking then [StreamChunk(ThinkingChunk, thinking, None, done)] else [];
      var m := if !done then [StreamChunk(ThinkingEnd, thinking, None, true)] else [];
      var last := [StreamChunk(ContentChunk, thinking, Some(c.content), true)];
      assert es == t + m + last;
      PhasedAppend(m, last, done, true);
      PhasedAppend(t, m + last, done, done);
      CountKindAppend(t, m, ThinkingEnd);
      CountKindAppend(t + m, last, ThinkingEnd);
      EventContentAppend(t, m);
      EventContentAppend(t + m, last);
    }
  }

  lemma HasContentCons(chunks: seq<Chunk>)
    requires |chunks| > 0
    ensures HasContent(chunks) <==> chunks[0].content != "" || HasContent(chunks[1..])
  {
    assert forall i :: 0 <= i < |chunks[1..]| ==> chunks[1..][i] == chunks[i + 1];
  }

  /** The state after one turn of the loop. */
  function Step(c: Chunk, st: StreamState): (r: StreamState)
    ensures RunChunks([c], st) == r
  {
    StreamState(
      st.events + ChunkEvents(c, st.thinkingComplete),
      st.thinkingComplete || c.content != "",
      if c.content != "" then st.fullResponse + c.content else st.fullResponse)
  }

  /** The phase invariant: events stay in phase order, the end-of-thinking
      marker has appeared exactly when thinking is complete, and thinking
      completes with the first chunk that has content. */
  lemma {:induction false} RunChunksPhased(chunks: seq<Chunk>, st: StreamState)
    requires Phased(st.events, false)
    requires CountKind(st.events, ThinkingEnd) == (if st.thinkingComplete then 1 else 0)
    ensures var r := RunChunks(chunks, st);
            && Phased(r.events, false)
            && r.thinkingComplete == (st.thinkingComplete || HasContent(chunks))
            && CountKind(r.events, ThinkingEnd) == (if r.thinkingComplete then 1 else 0)
    decreases |chunks|
  {
    if |chunks| > 0 {
      var c := chunks[0];
      var es := ChunkEvents(c, st.thinkingComplete);
      var next := Step(c, st);
      assert RunChunks(chunks, st) == RunChunks(chunks[1..], next);
      ChunkEventsFacts(c, st.thinkingComplete);
      PhasedAppend(st.events, es, false, st.thinkingComplete);
      CountKindAppend(st.events, es, ThinkingEnd);
      RunChunksPhased(chunks[1..], next);
      HasContentCons(chunks);
    }
  }

  /** The response accumulated by the loop is all the streamed content, and
      the content events carry exactly that text. */
  lemma {:induction false} RunChunksContent(chunks: seq<Chunk>, st: StreamState)
    ensures RunChunks(chunks, st).fullResponse == st.fullResponse + AllContent(chunks)
    ensures EventContent(RunChunks(chunks, st).events) == EventContent(st.events) + AllContent(chunks)
    decreases |chunks|
  {
    if |chunks| > 0 {
      var c := chunks[0];
      var es := ChunkEvents(c, st.thinkingComplete);
      var next := Step(c, st);
      assert RunChunks(chunks, st) == RunChunks(chunks[1..], next);
      assert AllContent(chunks) == c.content + AllContent(chunks[1..]);
      ChunkEventsFacts(c, st.thinkingComplete);
      EventContentAppend(st.events, es);
      RunChunksContent(chunks[1..], next);
      ConcatAssoc(st.fullResponse, c.content, AllContent(chunks[1..]));
      ConcatAssoc(EventContent(st.events), c.content, AllContent(chunks[1..]));
    }
  }

  /** What the generator promises its consumer: the events come in phase
      order; the end-of-thinking marker appears exactly when some chunk had
      content; the completion event carries exactly the streamed content; the
      last event, and only it, is the completion or the error. */
  lemma StreamContract(chunks: seq<Chunk>, end: StreamEnd)
    ensures var r := SubmitPromptStream(chunks, end);
            && Phased(r[..|r| - 1], false)
            && (CountKind(r, ThinkingEnd) == 1 <==> HasContent(chunks))
            && CountKind(r, ThinkingEnd) <= 1
            && EventContent(r[..|r| - 1]) == AllContent(chunks)
            && (end.Finished? ==> r[|r| - 1] == Complete(AllContent(chunks), HasContent(chunks)))
            && (end.Failed? ==> r[|r| - 1] == StreamError(end.message))
  {
    var st := RunChunks(chunks, StreamState([], false, ""));
    RunChunksPhased(chunks, StreamState([], false, ""));
    RunChunksContent(chunks, StreamState([], false, ""));
    var r := SubmitPromptStream(chunks, end);
    var last := [r[|r| - 1]];
    assert r == st.events + last;
    assert r[..|r| - 1] == st.events;
    CountKindAppend(st.events, last, ThinkingEnd);
  }

  /** Chunks with no content make a stream of thinking events only, and the
      completion then reports thinking as unfinished with an empty response. */
  lemma ThinkingOnlyStream(chunks: seq<Chunk>)
    requires forall i :: 0 <= i < |chunks| ==> chunks[i].content == ""
    ensures var r := SubmitPromptStream(chunks, Finished);
            r[|r| - 1] == Complete("", false)
  {
    StreamContract(chunks, Finished);
    assert AllContent(chunks) == "" by {
      AllContentEmpty(chunks);
    }
  }

  lemma {:induction false} AllContentEmpty(chunks: seq<Chunk>)
    requires forall i :: 0 <= i < |chunks| ==> chunks[i].content == ""
    ensures AllContent(chunks) == ""
    decreases |chunks|
  {
    if |chunks| > 0 {
      AllContentEmpty(chunks[1..]);
    }
  }
}
