/** Translating agent events for the front end, which expects every run of thinking to be closed. */
module EventStream {
  import opened Text

  datatype Tool = Tool(name: string, id: string, text: string)

  datatype Event =
    | TextDelta(delta: string) | ThinkingDelta(delta: string)
    | PreToolUse(tool: Option<Tool>) | PostToolUse(tool: Option<Tool>)
    | TurnEnd(usage: Option<int>) | Retry(message: string) | Cancelled | Failed(message: string) | Compaction
    | SteerConsumed(delta: string, id: string) | Finished | MessageEnd | ToolDelta

  datatype StreamEvent =
    | Content(text: string) | Thinking(text: string) | ThinkingDone
    | ToolStart(tool: Tool) | ToolResult(tool: Tool) | Usage(usage: int)
    | Retrying(message: string) | Stopped | Error(message: string) | Compacted
    | QueueConsumed(text: string, id: string) | Done

  /** The events before which an open run of thinking is closed. */
  predicate Flushes(ev: Event) {
    ev.TextDelta? || ev.PreToolUse? || ev.TurnEnd? || ev.SteerConsumed? || ev.Finished?
  }

  /** What an event becomes, apart from closing a run of thinking. */
  function Image(ev: Event): seq<StreamEvent> {
    match ev
    case TextDelta(d) => [Content(d)]
    case ThinkingDelta(d) => [Thinking(d)]
    case PreToolUse(Some(t)) => [ToolStart(t)]
    case PreToolUse(None) => []
    case PostToolUse(Some(t)) => [ToolResult(t)]
    case PostToolUse(None) => []
    case TurnEnd(Some(u)) => [Usage(u)]
    case TurnEnd(None) => []
    case Retry(m) => [Retrying(m)]
    case Cancelled => [Stopped]
    case Failed(m) => [Error(m)]
    case Compaction => [Compacted]
    case SteerConsumed(d, id) => [QueueConsumed(d, id)]
    case Finished => [Done]
    case MessageEnd => []
    case ToolDelta => []
  }

  class EventTranslator {
    var inThinking: bool

    constructor ()
      ensures !inThinking
    {
      inThinking := false;
    }

    method FlushThinking() returns (emitted: seq<StreamEvent>)
      modifies this
      ensures !inThinking && emitted == if old(inThinking) then [ThinkingDone] else []
    {
      emitted := [];
      if inThinking {
        emitted := [ThinkingDone];
        inThinking := false;
      }
    }

    method Translate(ev: Event) returns (emitted: seq<StreamEvent>)
      modifies this
      ensures (emitted, inThinking) == Translated(ev, old(inThinking))
    {
      assert [] + Image(ev) == Image(ev) && [ThinkingDone] + [] == [ThinkingDone];
      emitted := [];
      match ev {
        case TextDelta(d) =>
          emitted := FlushThinking();
          emitted := emitted + [Content(d)];
        case ThinkingDelta(d) =>
          inThinking := true;
          emitted := [Thinking(d)];
        case PreToolUse(tool) =>
          emitted := FlushThinking();
          if tool.Some? {
            emitted := emitted + [ToolStart(tool.value)];
          }
        case PostToolUse(tool) =>
          if tool.Some? {
            emitted := [ToolResult(tool.value)];
          }
        case TurnEnd(usage) =>
          emitted := FlushThinking();
          if usage.Some? {
            emitted := emitted + [Usage(usage.value)];
          }
        case Retry(m) => emitted := [Retrying(m)];
        case Cancelled => emitted := [Stopped];
        case Failed(m) => emitted := [Error(m)];
        case Compaction => emitted := [Compacted];
        case SteerConsumed(d, id) =>
          emitted := FlushThinking();
          emitted := emitted + [QueueConsumed(d, id)];
        case Finished =>
          emitted := FlushThinking();
          emitted := emitted + [Done];
        case MessageEnd =>
        case ToolDelta =>
      }
    }
  }

  function Translated(ev: Event, open: bool): (seq<StreamEvent>, bool) {
    (if Flushes(ev) && open then [ThinkingDone] + Image(ev) else Image(ev),
     if ev.ThinkingDelta? then true else if Flushes(ev) then false else open)
  }

  /** The whole stream for a sequence of events, and whether a run of thinking is open at its end. */
  function Stream(evs: seq<Event>): (seq<StreamEvent>, bool)
    decreases |evs|
  {
    if evs == [] then ([], false)
    else
      var n := |evs| - 1;
      var (before, open) := Stream(evs[..n]);
      var (last, still) := Translated(evs[n], open);
      (before + last, still)
  }

  method TranslateAll(evs: seq<Event>) returns (emitted: seq<StreamEvent>)
    ensures emitted == Stream(evs).0
  {
    var translator := new EventTranslator();
    emitted := [];
    for i := 0 to |evs|
      invariant (emitted, translator.inThinking) == Stream(evs[..i])
    {
      assert evs[..i + 1][..i] == evs[..i];
      var more := translator.Translate(evs[i]);
      emitted := emitted + more;
    }
    assert evs[..|evs|] == evs;
  }

  // The contract with the front end

  /** How a stream leaves the front end: a run of thinking is open or closed, or the contract was broken. */
  datatype View = Closed | Open | Broken

  function Show(v: View, e: StreamEvent): View {
    if v == Broken then Broken
    else match e
         case Thinking(_) => Open
         case ThinkingDone => if v == Open then Closed else Broken
         case Content(_) => if v == Closed then Closed else Broken
         case ToolStart(_) => if v == Closed then Closed else Broken
         case Usage(_) => if v == Closed then Closed else Broken
         case QueueConsumed(_, _) => if v == Closed then Closed else Broken
         case Done => if v == Closed then Closed else Broken
         case _ => v
  }

  function ShowAll(v: View, es: seq<StreamEvent>): View {
    if es == [] then v else Show(ShowAll(v, es[..|es| - 1]), es[|es| - 1])
  }

  lemma {:induction false} ShowSplit(v: View, a: seq<StreamEvent>, b: seq<StreamEvent>)
    ensures ShowAll(v, a + b) == ShowAll(ShowAll(v, a), b)
    decreases |b|
  {
    if b == [] {
      assert a + b == a;
    } else {
      assert (a + b)[..|a + b| - 1] == a + b[..|b| - 1];
      ShowSplit(v, a, b[..|b| - 1]);
    }
  }

  lemma ShowOne(v: View, e: StreamEvent)
    ensures ShowAll(v, [e]) == Show(v, e)
  {
    assert [e][..0] == [];
  }

  /** An event whose run of thinking has been closed, or that may come while it is open. */
  lemma ShowImage(ev: Event, open: bool)
    requires Flushes(ev) ==> !open
    ensures ShowAll(if open then Open else Closed, Image(ev)) == if ev.ThinkingDelta? || open then Open else Closed
  {
    var v := if open then Open else Closed;
    if Image(ev) != [] {
      var e := Image(ev)[0];
      assert Image(ev) == [e];
      ShowOne(v, e);
    }
  }

  lemma ShowTranslated(ev: Event, open: bool)
    ensures var (es, still) := Translated(ev, open);
            ShowAll(if open then Open else Closed, es) == if still then Open else Closed
  {
    hide Image, ShowAll;
    if Flushes(ev) && open {
      ShowOne(Open, ThinkingDone);
      ShowSplit(Open, [ThinkingDone], Image(ev));
      ShowImage(ev, false);
    } else {
      ShowImage(ev, open);
    }
  }

  /** For any events: every thinking_done closes an open run, and no content, tool start, usage, queue or done event is
      sent while a run is open. */
  lemma {:induction false} ContractIsKept(evs: seq<Event>)
    ensures ShowAll(Closed, Stream(evs).0) == if Stream(evs).1 then Open else Closed
    decreases |evs|
  {
    if evs != [] {
      var n := |evs| - 1;
      ContractIsKept(evs[..n]);
      var (before, open) := Stream(evs[..n]);
      ShowTranslated(evs[n], open);
      ShowSplit(Closed, before, Translated(evs[n], open).0);
    }
  }

  /** A stream whose last event flushes leaves no run open. */
  lemma FinishedStreamIsClosed(evs: seq<Event>)
    requires evs != [] && Flushes(evs[|evs| - 1])
    ensures ShowAll(Closed, Stream(evs).0) == Closed
  {
    ContractIsKept(evs);
  }

  /** Errors, retries, results and the like pass through an open run: they neither close it nor open one. */
  lemma OthersPassThrough(evs: seq<Event>, ev: Event)
    requires ev.PostToolUse? || ev.Retry? || ev.Cancelled? || ev.Failed? || ev.Compaction? || ev.MessageEnd? || ev.ToolDelta?
    ensures var before, after := Stream(evs), Stream(evs + [ev]);
            && after.1 == before.1 && before.0 <= after.0 && ThinkingDone !in after.0[|before.0|..]
            && ShowAll(Closed, after.0) == ShowAll(Closed, before.0)
  {
    assert (evs + [ev])[..|evs|] == evs;
    ContractIsKept(evs);
    ContractIsKept(evs + [ev]);
  }

  // Nothing is lost or reordered

  function WithoutDone(es: seq<StreamEvent>): seq<StreamEvent> {
    if es == [] then []
    else WithoutDone(es[..|es| - 1]) + if es[|es| - 1].ThinkingDone? then [] else [es[|es| - 1]]
  }

  function Images(evs: seq<Event>): seq<StreamEvent> {
    if evs == [] then [] else Images(evs[..|evs| - 1]) + Image(evs[|evs| - 1])
  }

  lemma {:induction false} WithoutDoneSplit(a: seq<StreamEvent>, b: seq<StreamEvent>)
    ensures WithoutDone(a + b) == WithoutDone(a) + WithoutDone(b)
    decreases |b|
  {
    if b == [] {
      assert a + b == a;
    } else {
      assert (a + b)[..|a + b| - 1] == a + b[..|b| - 1];
      WithoutDoneSplit(a, b[..|b| - 1]);
    }
  }

  lemma WithoutDoneOne(e: StreamEvent)
    ensures WithoutDone([e]) == if e == ThinkingDone then [] else [e]
  {
    assert [e][..0] == [];
  }

  lemma ImageIsNoDone(ev: Event)
    ensures Image(ev) == [] || exists e :: Image(ev) == [e] && e != ThinkingDone
  {
  }

  lemma WithoutDoneImage(ev: Event, open: bool)
    ensures WithoutDone(Translated(ev, open).0) == Image(ev)
  {
    hide WithoutDone, Image;
    var image := Image(ev);
    ImageIsNoDone(ev);
    NothingHasNoDone();
    if e :| image == [e] && e != ThinkingDone {
      WithoutDoneOne(e);
    }
    WithoutDoneOne(ThinkingDone);
    WithoutDoneSplit([ThinkingDone], image);
    assert [] + image == image;
  }

  /** Apart from the inserted thinking_done, the stream is the images of the events in order: all text and thinking,
      every tool call and result. */
  lemma {:induction false} NothingElseIsAdded(evs: seq<Event>)
    ensures WithoutDone(Stream(evs).0) == Images(evs)
    decreases |evs|
  {
    hide Image, WithoutDone, Translated;
    if evs == [] {
      assert WithoutDone([]) == [] by { NothingHasNoDone(); }
    } else {
      var n := |evs| - 1;
      NothingElseIsAdded(evs[..n]);
      var (before, open) := Stream(evs[..n]);
      WithoutDoneImage(evs[n], open);
      WithoutDoneSplit(before, Translated(evs[n], open).0);
    }
  }

  lemma NothingHasNoDone()
    ensures WithoutDone([]) == []
  {
  }

  function Contents(es: seq<StreamEvent>): string {
    if es == [] then "" else Contents(es[..|es| - 1]) + if es[|es| - 1].Content? then es[|es| - 1].text else ""
  }

  function Thoughts(es: seq<StreamEvent>): string {
    if es == [] then "" else Thoughts(es[..|es| - 1]) + if es[|es| - 1].Thinking? then es[|es| - 1].text else ""
  }

  function TextOf(evs: seq<Event>): string {
    if evs == [] then "" else TextOf(evs[..|evs| - 1]) + if evs[|evs| - 1].TextDelta? then evs[|evs| - 1].delta else ""
  }

  function ThoughtsOf(evs: seq<Event>): string {
    if evs == [] then ""
    else ThoughtsOf(evs[..|evs| - 1]) + if evs[|evs| - 1].ThinkingDelta? then evs[|evs| - 1].delta else ""
  }

  lemma ContentsOfImage(es: seq<StreamEvent>, ev: Event)
    ensures Contents(es + Image(ev)) == Contents(es) + if ev.TextDelta? then ev.delta else ""
    ensures Thoughts(es + Image(ev)) == Thoughts(es) + if ev.ThinkingDelta? then ev.delta else ""
  {
    var image := Image(ev);
    if image == [] {
      assert es + image == es;
    } else {
      assert (es + image)[..|es + image| - 1] == es;
    }
  }

  lemma {:induction false} DoneHasNoText(es: seq<StreamEvent>)
    ensures Contents(WithoutDone(es)) == Contents(es) && Thoughts(WithoutDone(es)) == Thoughts(es)
  {
    if es != [] {
      var n := |es| - 1;
      DoneHasNoText(es[..n]);
      var kept := WithoutDone(es[..n]);
      if es[n].ThinkingDone? {
        assert kept + [] == kept;
      } else {
        assert (kept + [es[n]])[..|kept + [es[n]]| - 1] == kept;
      }
    }
  }

  lemma {:induction false} TextOfImages(evs: seq<Event>)
    ensures Contents(Images(evs)) == TextOf(evs) && Thoughts(Images(evs)) == ThoughtsOf(evs)
  {
    if evs != [] {
      var n := |evs| - 1;
      TextOfImages(evs[..n]);
      ContentsOfImage(Images(evs[..n]), evs[n]);
    }
  }

  /** The front end shows exactly the agent's text and the agent's thinking. */
  lemma TextIsKept(evs: seq<Event>)
    ensures Contents(Stream(evs).0) == TextOf(evs) && Thoughts(Stream(evs).0) == ThoughtsOf(evs)
  {
    NothingElseIsAdded(evs);
    DoneHasNoText(Stream(evs).0);
    TextOfImages(evs);
  }

  // The events can be read off the stream

  /** The agent's event behind an event of the stream. */
  function Source(e: StreamEvent): Event
    requires !e.ThinkingDone?
  {
    match e
    case Content(text) => TextDelta(text)
    case Thinking(text) => ThinkingDelta(text)
    case ToolStart(tool) => PreToolUse(Some(tool))
    case ToolResult(tool) => PostToolUse(Some(tool))
    case Usage(usage) => TurnEnd(Some(usage))
    case Retrying(message) => Retry(message)
    case Stopped => Cancelled
    case Error(message) => Failed(message)
    case Compacted => Compaction
    case QueueConsumed(text, id) => SteerConsumed(text, id)
    case Done => Finished
  }

  function Sources(es: seq<StreamEvent>): seq<Event> {
    if es == [] then []
    else Sources(es[..|es| - 1]) + if es[|es| - 1].ThinkingDone? then [] else [Source(es[|es| - 1])]
  }

  /** Events without a tool or usage, and the two that say nothing new, leave no trace. */
  predicate IsShown(ev: Event) {
    && ev != PreToolUse(None) && ev != PostToolUse(None) && ev != TurnEnd(None)
    && !ev.MessageEnd? && !ev.ToolDelta?
  }

  function Shown(evs: seq<Event>): seq<Event> {
    if evs == [] then [] else Shown(evs[..|evs| - 1]) + if IsShown(evs[|evs| - 1]) then [evs[|evs| - 1]] else []
  }

  lemma {:induction false} SourcesSplit(a: seq<StreamEvent>, b: seq<StreamEvent>)
    ensures Sources(a + b) == Sources(a) + Sources(b)
    decreases |b|
  {
    if b == [] {
      assert a + b == a;
    } else {
      assert (a + b)[..|a + b| - 1] == a + b[..|b| - 1];
      SourcesSplit(a, b[..|b| - 1]);
    }
  }

  lemma SourcesOne(e: StreamEvent)
    ensures Sources([e]) == if e.ThinkingDone? then [] else [Source(e)]
  {
    assert [e][..0] == [];
  }

  lemma SourcesOfTranslated(ev: Event, open: bool)
    ensures Sources(Translated(ev, open).0) == if IsShown(ev) then [ev] else []
  {
    hide Sources;
    var image := Image(ev);
    assert Sources([]) == [] by { NothingHasNoSource(); }
    if image != [] {
      SourcesOne(image[0]);
      assert image == [image[0]];
    }
    SourcesOne(ThinkingDone);
    SourcesSplit([ThinkingDone], image);
  }

  lemma NothingHasNoSource()
    ensures Sources([]) == []
  {
  }

  /** From the stream of any events, the events come back: all that are shown, in order, as they were. */
  lemma {:induction false} EventsComeBack(evs: seq<Event>)
    ensures Sources(Stream(evs).0) == Shown(evs)
    decreases |evs|
  {
    hide Translated, IsShown;
    if evs != [] {
      var n := |evs| - 1;
      EventsComeBack(evs[..n]);
      var (before, open) := Stream(evs[..n]);
      SourcesOfTranslated(evs[n], open);
      SourcesSplit(before, Translated(evs[n], open).0);
    }
  }
}
