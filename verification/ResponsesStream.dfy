/** The Responses-API event ladder, and the client that folds it back into the response. */
module ResponsesStream {
  import opened Wrappers
  import opened Strings
  import opened WordChunker
  import opened ArgumentPieces

  datatype Part = OutputText(text: string, annotations: seq<string>) | Refusal(text: string)

  datatype Item =
    | Message(id: string, status: string, role: string, content: seq<Part>)
    | FunctionCall(id: string, callId: string, name: string, arguments: string, status: string)

  /** `rest` stands for the response fields that streaming only copies. */
  datatype Response = Response(status: string, output: seq<Item>, rest: string)

  datatype Body =
    | Created(snapshot: Response)
    | InProgress(snapshot: Response)
    | ItemAdded(idx: nat, item: Item)
    | PartAdded(idx: nat, part: Part)
    | TextDelta(idx: nat, delta: string)
    | TextDone(idx: nat, text: string)
    | RefusalDelta(idx: nat, delta: string)
    | RefusalDone(idx: nat, text: string)
    | PartDone(idx: nat, part: Part)
    | ArgumentsDelta(idx: nat, bytes: seq<Byte>)
    | ArgumentsDone(idx: nat, arguments: string)
    | ItemDone(idx: nat, item: Item)
    | Completed(response: Response)
    | Incomplete(response: Response)

  datatype Event = Event(sequenceNumber: nat, body: Body)

  // ----- the ladder

  function Deltas<T>(chunks: seq<T>, kind: T -> Body): seq<Body> {
    if chunks == [] then [] else [kind(chunks[0])] + Deltas(chunks[1..], kind)
  }

  /** Only the first content part is streamed. */
  function PartEvents(idx: nat, content: seq<Part>, size: ChunkSize): seq<Body> {
    if content == [] then []
    else match content[0]
      case OutputText(text, _) =>
        [PartAdded(idx, OutputText("", []))] + Deltas(Chunks(text, size), d => TextDelta(idx, d))
        + [TextDone(idx, text), PartDone(idx, content[0])]
      case Refusal(text) =>
        [PartAdded(idx, Refusal(""))] + [RefusalDelta(idx, text)] + [RefusalDone(idx, text), PartDone(idx, content[0])]
  }

  function ItemEvents(idx: nat, item: Item, size: ChunkSize): seq<Body> {
    match item
    case Message(id, _, role, content) =>
      [ItemAdded(idx, Message(id, "in_progress", role, []))] + PartEvents(idx, content, size) + [ItemDone(idx, item)]
    case FunctionCall(id, callId, name, arguments, _) =>
      [ItemAdded(idx, FunctionCall(id, callId, name, "", "in_progress"))]
      + Deltas(Chunked(Utf8(arguments), ARGUMENT_CHUNK), d => ArgumentsDelta(idx, d))
      + [ArgumentsDone(idx, arguments), ItemDone(idx, item)]
  }

  function OutputEvents(output: seq<Item>, n: nat, size: ChunkSize): seq<Body>
    requires n <= |output|
  {
    if n == 0 then [] else OutputEvents(output, n - 1, size) + ItemEvents(n - 1, output[n - 1], size)
  }

  function Ladder(out: Response, size: ChunkSize): seq<Body> {
    var pending := Response("in_progress", [], out.rest);
    [Created(pending), InProgress(pending)] + OutputEvents(out.output, |out.output|, size)
    + [if out.status == "incomplete" then Incomplete(out) else Completed(out)]
  }

  /** Events in emission order carry consecutive numbers from zero. */
  ghost predicate Numbered(events: seq<Event>, bodies: seq<Body>) {
    |events| == |bodies| && forall i :: 0 <= i < |events| ==> events[i] == Event(i, bodies[i])
  }

  /** The emit closure with its counter. */
  class Emitter {
    var next: nat
    var events: seq<Event>
    ghost var bodies: seq<Body>

    ghost predicate Valid()
      reads this
    {
      next == |events| && Numbered(events, bodies)
    }

    constructor ()
      ensures Valid() && bodies == []
    {
      next, events, bodies := 0, [], [];
    }

    method Emit(body: Body)
      requires Valid()
      modifies this
      ensures Valid() && bodies == old(bodies) + [body]
    {
      events, bodies := events + [Event(next, body)], bodies + [body];
      next := next + 1;
    }

    method EmitDeltas<T>(chunks: seq<T>, kind: T -> Body)
      requires Valid()
      modifies this
      ensures Valid() && bodies == old(bodies) + Deltas(chunks, kind)
    {
      assert chunks[0..] == chunks;
      for i := 0 to |chunks|
        invariant Valid()
        invariant bodies + Deltas(chunks[i..], kind) == old(bodies) + Deltas(chunks, kind)
      {
        assert chunks[i..][1..] == chunks[i + 1..];
        ghost var rest := Deltas(chunks[i + 1..], kind);
        assert bodies + ([kind(chunks[i])] + rest) == bodies + [kind(chunks[i])] + rest;
        Emit(kind(chunks[i]));
      }
      assert chunks[|chunks|..] == [];
    }

    method StreamMessage(idx: nat, item: Item, size: ChunkSize)
      requires Valid() && item.Message?
      modifies this
      ensures Valid() && bodies == old(bodies) + ItemEvents(idx, item, size)
    {
      Emit(ItemAdded(idx, Message(item.id, "in_progress", item.role, [])));
      StreamPart(idx, item.content, size);
      Emit(ItemDone(idx, item));
    }

    method StreamPart(idx: nat, content: seq<Part>, size: ChunkSize)
      requires Valid()
      modifies this
      ensures Valid() && bodies == old(bodies) + PartEvents(idx, content, size)
    {
      if content == [] {
        return;
      }
      match content[0] {
        case OutputText(text, _) =>
          Emit(PartAdded(idx, OutputText("", [])));
          var chunks := Chunk(text, size);
          EmitDeltas(chunks, d => TextDelta(idx, d));
          Emit(TextDone(idx, text));
          Emit(PartDone(idx, content[0]));
          FourSteps(old(bodies), PartAdded(idx, OutputText("", [])), Deltas(Chunks(text, size), d => TextDelta(idx, d)),
                    TextDone(idx, text), PartDone(idx, content[0]));
        case Refusal(text) =>
          Emit(PartAdded(idx, Refusal("")));
          Emit(RefusalDelta(idx, text));
          Emit(RefusalDone(idx, text));
          Emit(PartDone(idx, content[0]));
          FourSteps(old(bodies), PartAdded(idx, Refusal("")), [RefusalDelta(idx, text)],
                    RefusalDone(idx, text), PartDone(idx, content[0]));
      }
    }

    method StreamFunctionCall(idx: nat, item: Item, ghost size: ChunkSize)
      requires Valid() && item.FunctionCall?
      modifies this
      ensures Valid() && bodies == old(bodies) + ItemEvents(idx, item, size)
    {
      Emit(ItemAdded(idx, FunctionCall(item.id, item.callId, item.name, "", "in_progress")));
      var chunks := ChunkArguments(Utf8(item.arguments), ARGUMENT_CHUNK);
      EmitDeltas(chunks, d => ArgumentsDelta(idx, d));
      Emit(ArgumentsDone(idx, item.arguments));
      Emit(ItemDone(idx, item));
    }

    method StreamOutput(output: seq<Item>, size: ChunkSize)
      requires Valid()
      modifies this
      ensures Valid() && bodies == old(bodies) + OutputEvents(output, |output|, size)
    {
      for i := 0 to |output|
        invariant Valid() && bodies == old(bodies) + OutputEvents(output, i, size)
      {
        Reassociate(old(bodies), OutputEvents(output, i, size), ItemEvents(i, output[i], size));
        match output[i] {
          case Message(_, _, _, _) => StreamMessage(i, output[i], size);
          case FunctionCall(_, _, _, _, _) => StreamFunctionCall(i, output[i], size);
        }
      }
    }
  }

  lemma FourSteps(before: seq<Body>, a: Body, mid: seq<Body>, b: Body, c: Body)
    ensures before + [a] + mid + [b] + [c] == before + ([a] + mid + [b, c])
  {
  }

  lemma Reassociate(a: seq<Body>, b: seq<Body>, c: seq<Body>)
    ensures a + b + c == a + (b + c)
  {
  }

  method Emitted(out: Response, size: ChunkSize) returns (events: seq<Event>)
    ensures Numbered(events, Ladder(out, size))
  {
    var e := new Emitter();
    var pending := Response("in_progress", [], out.rest);
    e.Emit(Created(pending));
    e.Emit(InProgress(pending));
    e.StreamOutput(out.output, size);
    e.Emit(if out.status == "incomplete" then Incomplete(out) else Completed(out));
    events := e.events;
    assert e.bodies == Ladder(out, size) by {
      assert [] + [Created(pending)] + [InProgress(pending)] == [Created(pending), InProgress(pending)];
    }
  }

  /** The whole stream of a response whose client stays connected; `configured` is the agent's own chunk size. */
  method StreamResponses(out: Response, configured: Option<int>) returns (events: seq<Event>)
    ensures Numbered(events, Ladder(out, EffectiveSize(if configured.Some? then configured.value else 0)))
  {
    var size := DEFAULT_CHUNK_SIZE;
    if configured.Some? && configured.value > 0 {
      size := configured.value;
    }
    events := Emitted(out, size);
  }

  // ----- the client

  function AddText(p: Part, delta: string): Part { p.(text := p.text + delta) }

  ghost function OnItem(item: Item, b: Body): Item {
    match b
    case PartAdded(_, part) => if item.Message? then item.(content := item.content + [part]) else item
    case TextDelta(_, d) =>
      if item.Message? && item.content != []
      then item.(content := item.content[0 := AddText(item.content[0], d)]) else item
    case RefusalDelta(_, d) =>
      if item.Message? && item.content != []
      then item.(content := item.content[0 := AddText(item.content[0], d)]) else item
    case PartDone(_, part) =>
      if item.Message? && item.content != [] && item.content[0].OutputText? && part.OutputText?
      then item.(content := item.content[0 := item.content[0].(annotations := part.annotations)]) else item
    case ArgumentsDelta(_, d) =>
      if item.FunctionCall? then item.(arguments := item.arguments + Decode(CharOf, d)) else item
    case ItemDone(_, done) => item.(status := done.status)
    case _ => item
  }

  /** A client that uses openings, deltas and closing status only, never the repeated full texts. */
  ghost function OnEvent(items: seq<Item>, b: Body): seq<Item> {
    match b
    case ItemAdded(_, item) => items + [item]
    case Created(_) => items
    case InProgress(_) => items
    case Completed(_) => items
    case Incomplete(_) => items
    case _ => if b.idx < |items| then items[b.idx := OnItem(items[b.idx], b)] else items
  }

  ghost function Fold(items: seq<Item>, bodies: seq<Body>): seq<Item>
    decreases |bodies|
  {
    if bodies == [] then items else Fold(OnEvent(items, bodies[0]), bodies[1..])
  }

  lemma {:induction false} FoldConcat(items: seq<Item>, xs: seq<Body>, ys: seq<Body>)
    ensures Fold(items, xs + ys) == Fold(Fold(items, xs), ys)
    decreases |xs|
  {
    if xs == [] {
      assert xs + ys == ys;
    } else {
      assert (xs + ys)[1..] == xs[1..] + ys;
      FoldConcat(OnEvent(items, xs[0]), xs[1..], ys);
    }
  }

  ghost function FoldItem(item: Item, bodies: seq<Body>): Item
    decreases |bodies|
  {
    if bodies == [] then item else FoldItem(OnItem(item, bodies[0]), bodies[1..])
  }

  /** Events about position `idx` other than its opening. */
  predicate About(idx: nat, b: Body) {
    && !b.ItemAdded? && !b.Created? && !b.InProgress? && !b.Completed? && !b.Incomplete?
    && b.idx == idx
  }

  lemma {:induction false} FoldLast(items: seq<Item>, bodies: seq<Body>)
    requires items != [] && forall i :: 0 <= i < |bodies| ==> About(|items| - 1, bodies[i])
    ensures Fold(items, bodies) == items[|items| - 1 := FoldItem(items[|items| - 1], bodies)]
    decreases |bodies|
  {
    if bodies != [] {
      var last := |items| - 1;
      var next := OnEvent(items, bodies[0]);
      assert next == items[last := OnItem(items[last], bodies[0])];
      FoldLast(next, bodies[1..]);
    }
  }

  lemma {:induction false} FoldItemConcat(item: Item, xs: seq<Body>, ys: seq<Body>)
    ensures FoldItem(item, xs + ys) == FoldItem(FoldItem(item, xs), ys)
    decreases |xs|
  {
    if xs == [] {
      assert xs + ys == ys;
    } else {
      assert (xs + ys)[1..] == xs[1..] + ys;
      FoldItemConcat(OnItem(item, xs[0]), xs[1..], ys);
    }
  }

  lemma {:induction false} FoldTextDeltas(item: Item, idx: nat, chunks: seq<string>)
    requires item.Message? && |item.content| == 1
    ensures FoldItem(item, Deltas(chunks, d => TextDelta(idx, d)))
         == item.(content := [AddText(item.content[0], Concat(chunks))])
    decreases |chunks|
  {
    var kind := d => TextDelta(idx, d);
    if chunks == [] {
      assert item.content[0].text + "" == item.content[0].text;
      assert item.content == [AddText(item.content[0], "")];
    } else {
      var next := OnItem(item, kind(chunks[0]));
      assert next.content == [AddText(item.content[0], chunks[0])];
      assert Deltas(chunks, kind)[1..] == Deltas(chunks[1..], kind);
      FoldTextDeltas(next, idx, chunks[1..]);
      assert item.content[0].text + chunks[0] + Concat(chunks[1..])
          == item.content[0].text + (chunks[0] + Concat(chunks[1..]));
    }
  }

  lemma {:induction false} FoldArgumentDeltas(item: Item, idx: nat, chunks: seq<seq<Byte>>)
    requires item.FunctionCall?
    ensures FoldItem(item, Deltas(chunks, d => ArgumentsDelta(idx, d)))
         == item.(arguments := item.arguments + DecodeAll(CharOf, chunks))
    decreases |chunks|
  {
    var kind := d => ArgumentsDelta(idx, d);
    if chunks == [] {
      assert item.arguments + "" == item.arguments;
    } else {
      var next := OnItem(item, kind(chunks[0]));
      assert Deltas(chunks, kind)[1..] == Deltas(chunks[1..], kind);
      FoldArgumentDeltas(next, idx, chunks[1..]);
      Regroup(item.arguments, Decode(CharOf, chunks[0]), DecodeAll(CharOf, chunks[1..]));
    }
  }

  /** What of a content part reaches the client: text comes with its white space normalised. */
  function Arrived(part: Part): Part {
    if part.OutputText? then part.(text := Respaced(part.text)) else part
  }

  /** What of an item reaches the client: a message keeps its first content part, a call its received arguments. */
  ghost function Streamed(item: Item): Item {
    match item
    case Message(_, _, _, content) => if content == [] then item else item.(content := [Arrived(content[0])])
    case FunctionCall(_, _, _, arguments, _) => item.(arguments := Received(arguments))
  }

  /** What follows an item's opening event. */
  function Rest(idx: nat, item: Item, size: ChunkSize): seq<Body> {
    match item
    case Message(_, _, _, content) => PartEvents(idx, content, size) + [ItemDone(idx, item)]
    case FunctionCall(_, _, _, arguments, _) =>
      Deltas(Chunked(Utf8(arguments), ARGUMENT_CHUNK), d => ArgumentsDelta(idx, d))
      + [ArgumentsDone(idx, arguments), ItemDone(idx, item)]
  }

  function Opening(item: Item): Item {
    match item
    case Message(id, _, role, _) => Message(id, "in_progress", role, [])
    case FunctionCall(id, callId, name, _, _) => FunctionCall(id, callId, name, "", "in_progress")
  }

  lemma ItemEventsSplit(idx: nat, item: Item, size: ChunkSize)
    ensures ItemEvents(idx, item, size) == [ItemAdded(idx, Opening(item))] + Rest(idx, item, size)
  {
  }

  lemma {:induction false} DeltasAbout<T>(idx: nat, chunks: seq<T>, kind: T -> Body)
    requires forall d :: About(idx, kind(d))
    ensures forall i :: 0 <= i < |Deltas(chunks, kind)| ==> About(idx, Deltas(chunks, kind)[i])
  {
    if chunks != [] {
      DeltasAbout(idx, chunks[1..], kind);
    }
  }

  lemma RestAbout(idx: nat, item: Item, size: ChunkSize)
    ensures forall i :: 0 <= i < |Rest(idx, item, size)| ==> About(idx, Rest(idx, item, size)[i])
  {
    match item
    case Message(_, _, _, content) =>
      if content != [] && content[0].OutputText? {
        DeltasAbout(idx, Chunks(content[0].text, size), d => TextDelta(idx, d));
      }
    case FunctionCall(_, _, _, arguments, _) =>
      DeltasAbout(idx, Chunked(Utf8(arguments), ARGUMENT_CHUNK), d => ArgumentsDelta(idx, d));
  }

  lemma FoldTextPart(idx: nat, item: Item, part: Part, size: ChunkSize)
    requires item.Message? && item.content == [] && part.OutputText?
    ensures FoldItem(item, PartEvents(idx, [part], size)) == item.(content := [Arrived(part)])
  {
    var added := item.(content := [OutputText("", [])]);
    var deltas := Deltas(Chunks(part.text, size), d => TextDelta(idx, d));
    var closing := [TextDone(idx, part.text), PartDone(idx, part)];
    var texted := item.(content := [OutputText(Respaced(part.text), [])]);
    assert PartEvents(idx, [part], size) == [PartAdded(idx, OutputText("", []))] + (deltas + closing);
    FoldItemConcat(item, [PartAdded(idx, OutputText("", []))], deltas + closing);
    FoldItemOne(item, PartAdded(idx, OutputText("", [])));
    assert OnItem(item, PartAdded(idx, OutputText("", []))) == added;
    FoldItemConcat(added, deltas, closing);
    FoldTextDeltas(added, idx, Chunks(part.text, size));
    ChunksRespace(part.text, size);
    assert "" + Respaced(part.text) == Respaced(part.text);
    assert FoldItem(added, deltas) == texted;
    FoldItemTwo(texted, closing[0], closing[1]);
    assert OnItem(texted, closing[1]).content == [Arrived(part)];
  }

  lemma FoldItemOne(item: Item, b: Body)
    ensures FoldItem(item, [b]) == OnItem(item, b)
  {
    assert [b][1..] == [];
  }

  lemma FoldItemTwo(item: Item, a: Body, b: Body)
    ensures FoldItem(item, [a, b]) == OnItem(OnItem(item, a), b)
  {
    assert [a, b] == [a] + [b];
    FoldItemConcat(item, [a], [b]);
    FoldItemOne(item, a);
    FoldItemOne(OnItem(item, a), b);
  }

  lemma FoldRefusalPart(idx: nat, item: Item, part: Part, size: ChunkSize)
    requires item.Message? && item.content == [] && part.Refusal?
    ensures FoldItem(item, PartEvents(idx, [part], size)) == item.(content := [part])
  {
    var evs := [PartAdded(idx, Refusal("")), RefusalDelta(idx, part.text)];
    var closing := [RefusalDone(idx, part.text), PartDone(idx, part)];
    assert PartEvents(idx, [part], size) == evs + closing;
    FoldItemConcat(item, evs, closing);
    FoldItemTwo(item, evs[0], evs[1]);
    assert "" + part.text == part.text;
    assert OnItem(OnItem(item, evs[0]), evs[1]).content == [part];
    FoldItemTwo(item.(content := [part]), closing[0], closing[1]);
  }

  lemma FoldRest(idx: nat, item: Item, size: ChunkSize)
    ensures FoldItem(Opening(item), Rest(idx, item, size)) == Streamed(item)
  {
    match item
    case Message(_, _, _, content) =>
      FoldItemConcat(Opening(item), PartEvents(idx, content, size), [ItemDone(idx, item)]);
      if content != [] {
        assert PartEvents(idx, content, size) == PartEvents(idx, [content[0]], size);
        if content[0].OutputText? {
          FoldTextPart(idx, Opening(item), content[0], size);
        } else {
          FoldRefusalPart(idx, Opening(item), content[0], size);
        }
      }
      FoldItemOne(FoldItem(Opening(item), PartEvents(idx, content, size)), ItemDone(idx, item));
    case FunctionCall(_, _, _, arguments, _) =>
      var chunks, received := Chunked(Utf8(arguments), ARGUMENT_CHUNK), Received(arguments);
      var deltas := Deltas(chunks, d => ArgumentsDelta(idx, d));
      FoldItemConcat(Opening(item), deltas, [ArgumentsDone(idx, arguments), ItemDone(idx, item)]);
      FoldArgumentDeltas(Opening(item), idx, chunks);
      assert "" + received == received;
      FoldItemTwo(Opening(item).(arguments := received), ArgumentsDone(idx, arguments), ItemDone(idx, item));
  }

  lemma FoldOneItem(items: seq<Item>, item: Item, size: ChunkSize)
    ensures Fold(items, ItemEvents(|items|, item, size)) == items + [Streamed(item)]
  {
    ItemEventsSplit(|items|, item, size);
    RestAbout(|items|, item, size);
    FoldRest(|items|, item, size);
    FoldOpened(items, Opening(item), Rest(|items|, item, size), Streamed(item));
  }

  lemma FoldOpened(items: seq<Item>, opening: Item, rest: seq<Body>, closed: Item)
    requires (forall i :: 0 <= i < |rest| ==> About(|items|, rest[i])) && FoldItem(opening, rest) == closed
    ensures Fold(items, [ItemAdded(|items|, opening)] + rest) == items + [closed]
  {
    var grown := items + [opening];
    FoldConcat(items, [ItemAdded(|items|, opening)], rest);
    FoldOpening(items, opening);
    FoldLast(grown, rest);
    assert grown[|items| := closed] == items + [closed];
  }

  lemma FoldOpening(items: seq<Item>, item: Item)
    ensures Fold(items, [ItemAdded(|items|, item)]) == items + [item]
  {
    assert [ItemAdded(|items|, item)][1..] == [];
  }

  ghost function StreamedAll(output: seq<Item>): (r: seq<Item>)
    ensures |r| == |output| && forall i :: 0 <= i < |r| ==> r[i] == Streamed(output[i])
  {
    seq(|output|, i requires 0 <= i < |output| => Streamed(output[i]))
  }

  ghost function StreamedTo(output: seq<Item>, n: nat): (r: seq<Item>)
    requires n <= |output|
    ensures |r| == n
  {
    if n == 0 then [] else StreamedTo(output, n - 1) + [Streamed(output[n - 1])]
  }

  lemma {:induction false} StreamedToAt(output: seq<Item>, n: nat, i: nat)
    requires i < n <= |output|
    ensures StreamedTo(output, n)[i] == Streamed(output[i])
  {
    if i < n - 1 {
      StreamedToAt(output, n - 1, i);
    }
  }

  lemma StreamedToEnd(output: seq<Item>)
    ensures StreamedTo(output, |output|) == StreamedAll(output)
  {
    forall i | 0 <= i < |output| ensures StreamedTo(output, |output|)[i] == Streamed(output[i]) {
      StreamedToAt(output, |output|, i);
    }
  }

  lemma FoldOneMore(before: seq<Body>, seen: seq<Item>, item: Item, size: ChunkSize)
    requires Fold([], before) == seen
    ensures Fold([], before + ItemEvents(|seen|, item, size)) == seen + [Streamed(item)]
  {
    FoldConcat([], before, ItemEvents(|seen|, item, size));
    FoldOneItem(seen, item, size);
  }

  lemma {:induction false} FoldOutput(output: seq<Item>, n: nat, size: ChunkSize)
    requires n <= |output|
    ensures Fold([], OutputEvents(output, n, size)) == StreamedTo(output, n)
  {
    if n > 0 {
      FoldOutput(output, n - 1, size);
      FoldOneMore(OutputEvents(output, n - 1, size), StreamedTo(output, n - 1), output[n - 1], size);
    }
  }

  /** Folding the whole ladder rebuilds the output, each item as far as it reaches the client. */
  lemma LadderRebuildsOutput(out: Response, size: ChunkSize)
    ensures Fold([], Ladder(out, size)) == StreamedAll(out.output)
  {
    var pending := Response("in_progress", [], out.rest);
    var head := [Created(pending), InProgress(pending)];
    var middle := OutputEvents(out.output, |out.output|, size);
    var tail := [if out.status == "incomplete" then Incomplete(out) else Completed(out)];
    assert Ladder(out, size) == head + (middle + tail);
    FoldConcat([], head, middle + tail);
    FoldHead([], head[0], head[1]);
    FoldConcat([], middle, tail);
    FoldOutput(out.output, |out.output|, size);
    StreamedToEnd(out.output);
    FoldFinal(StreamedAll(out.output), tail[0]);
  }

  lemma FoldFinal(items: seq<Item>, b: Body)
    requires b.Completed? || b.Incomplete?
    ensures Fold(items, [b]) == items
  {
    assert [b][1..] == [];
  }

  lemma FoldHead(items: seq<Item>, a: Body, b: Body)
    requires a.Created? && b.InProgress?
    ensures Fold(items, [a, b]) == items
  {
    assert [a, b][1..] == [b] && [b][1..] == [];
    assert Fold(items, [a, b]) == Fold(items, [b]);
    assert Fold(items, [b]) == Fold(items, []);
  }

  /** A part whose text, if it is streamed in words, is blank or has single spaces between its words. */
  predicate PartKept(part: Part) {
    part.OutputText? ==> Blank(part.text) || SingleSpaced(part.text)
  }

  /**
   Nothing of the item is lost: a message has at most one content part and its text survives the word chunker, and
   no piece of a call's arguments ends inside a character.
   */
  ghost predicate Kept(item: Item) {
    match item
    case Message(_, _, _, content) => |content| <= 1 && (content != [] ==> PartKept(content[0]))
    case FunctionCall(_, _, _, arguments, _) => CleanCuts(Utf8(arguments), ARGUMENT_CHUNK)
  }

  lemma KeptIff(item: Item)
    ensures Streamed(item) == item <==> Kept(item)
  {
    match item
    case FunctionCall(_, _, _, arguments, _) => ReceivedIff(arguments);
    case Message(id, status, role, content) =>
      if content != [] {
        ArrivedIff(content[0]);
        assert Streamed(item).content == [Arrived(content[0])];
        if |content| == 1 {
          assert content == [content[0]];
        }
      }
  }

  lemma ArrivedIff(part: Part)
    ensures Arrived(part) == part <==> PartKept(part)
  {
    if part.OutputText? {
      ChunksConcatIff(part.text, DEFAULT_CHUNK_SIZE);
      ChunksRespace(part.text, DEFAULT_CHUNK_SIZE);
    }
  }

  /** The client ends up with exactly the response's output if and only if nothing of any item is lost. */
  lemma ClientSeesOutputIff(out: Response, size: ChunkSize)
    ensures Fold([], Ladder(out, size)) == out.output <==> forall i :: 0 <= i < |out.output| ==> Kept(out.output[i])
  {
    LadderRebuildsOutput(out, size);
    var seen := StreamedAll(out.output);
    forall i | 0 <= i < |out.output| ensures seen[i] == out.output[i] <==> Kept(out.output[i]) {
      KeptIff(out.output[i]);
    }
    if seen == out.output {
      assert forall i :: 0 <= i < |out.output| ==> seen[i] == out.output[i];
    }
  }

  /** A one-part message with a line break arrives with a space instead. */
  lemma LineBreakReachesClientAsSpace(id: string, role: string, rest: string, size: ChunkSize)
    ensures var said := text => Message(id, "completed", role, [OutputText(text, [])]);
            Fold([], Ladder(Response("completed", [said("a\nb")], rest), size)) == [said("a b")]
  {
    var item := Message(id, "completed", role, [OutputText("a\nb", [])]);
    LadderRebuildsOutput(Response("completed", [item], rest), size);
    LineBreakIsLost(size);
    ChunksRespace("a\nb", size);
    assert Arrived(item.content[0]) == OutputText("a b", []);
    assert StreamedAll([item]) == [Streamed(item)];
  }

  /** A call whose twentieth and twenty-first argument bytes are one character does not arrive. */
  lemma SplitCharacterDoesNotReachClient(call: Item, out: Response, s: string, size: ChunkSize)
    requires call.FunctionCall? && |s| == 19 && Ascii(s) && call.arguments == s + "\U{E9}" && out.output == [call]
    ensures Fold([], Ladder(out, size)) != out.output
  {
    SplitCharacterIsLost(s);
    ReceivedIff(call.arguments);
    ClientSeesOutputIff(out, size);
    assert !Kept(out.output[0]);
  }
}
