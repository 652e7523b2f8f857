/** `frontend/lib/api.ts`, `streamAgentTurn`: the client's incremental event parser, and the server
    encoder it reads (`strategy_generation/api.py`). The text is what the streaming decoder yields. */
module EventStream {
  import opened Wrappers
  import opened Sequences
  import opened JsonText

  /** What `onEvent` receives: the parsed JSON, or the text itself when it does not parse. */
  datatype Payload<J> = Parsed(value: J) | Raw(text: string)

  datatype Event<J> = Event(name: string, payload: Payload<J>)

  /** The fields collected from one block of lines. */
  datatype Block = Block(name: string, data: string)

  const EVENT_PREFIX := "event: "
  const DATA_PREFIX := "data: "
  const SEPARATOR := "\n\n"

  // ---------- JavaScript string operations ----------

  predicate SeparatorAt(s: string, i: int) {
    0 <= i && i + 1 < |s| && s[i] == '\n' && s[i + 1] == '\n'
  }

  /** `s.indexOf("\n\n")`; -1 is `None`. */
  function IndexOf(s: string): (r: Option<nat>)
    ensures r.Some? ==> SeparatorAt(s, r.value)
  {
    if |s| < 2 then None
    else if SeparatorAt(s, 0) then Some(0)
    else
      var rest := IndexOf(s[1..]);
      if rest.None? then None else Some(rest.value + 1)
  }

  /** The index is that of the first separator, and there is none only without separators. */
  lemma {:induction false} IndexOfIsFirst(s: string, j: int)
    requires SeparatorAt(s, j)
    ensures IndexOf(s).Some? && IndexOf(s).value <= j
  {
    if j > 0 {
      IndexOfIsFirst(s[1..], j - 1);
    }
  }

  lemma {:induction false} IndexOfIs(s: string, i: nat)
    requires SeparatorAt(s, i) && forall j :: 0 <= j < i ==> !SeparatorAt(s, j)
    ensures IndexOf(s) == Some(i)
  {
    IndexOfIsFirst(s, i);
  }

  /** `s.split("\n")` */
  function Lines(s: string): (ls: seq<string>)
    ensures ls != []
  {
    if s == [] then [[]]
    else
      var rest := Lines(s[1..]);
      if s[0] == '\n' then [[]] + rest else [[s[0]] + rest[0]] + rest[1..]
  }

  /** The characters `String.prototype.trim` removes: white space and line terminators. */
  predicate IsTrimmed(c: char) {
    || '\t' <= c <= '\r' || c == ' ' || c == '\U{A0}' || c == '\U{1680}' || '\U{2000}' <= c <= '\U{200A}'
    || c == '\U{2028}' || c == '\U{2029}' || c == '\U{202F}' || c == '\U{205F}' || c == '\U{3000}' || c == '\U{FEFF}'
  }

  function TrimStart(s: string): string {
    if s != [] && IsTrimmed(s[0]) then TrimStart(s[1..]) else s
  }

  function TrimEnd(s: string): string {
    if s != [] && IsTrimmed(s[|s| - 1]) then TrimEnd(s[..|s| - 1]) else s
  }

  function Trim(s: string): string {
    TrimEnd(TrimStart(s))
  }

  // ---------- one block ----------

  function ReadLine(b: Block, line: string): Block {
    if EVENT_PREFIX <= line then b.(name := Trim(line[7..]))
    else if DATA_PREFIX <= line then b.(data := b.data + line[6..])
    else b
  }

  /** The fields after reading some lines of a block. */
  function ReadLines(lines: seq<string>): Block {
    if lines == [] then Block("message", "") else ReadLine(ReadLines(lines[..|lines| - 1]), lines[|lines| - 1])
  }

  function PayloadOf<J>(parse: string -> Option<J>, data: string): Payload<J> {
    var parsed := parse(data);
    if parsed.Some? then Parsed(parsed.value) else Raw(data)
  }

  /** The event a block dispatches, if it carries data. */
  function Dispatch<J>(parse: string -> Option<J>, b: Block): seq<Event<J>> {
    if b.data == "" then [] else [Event(b.name, PayloadOf(parse, b.data))]
  }

  // ---------- the specification: the whole text at once ----------

  /** The blocks of a text: what stands before each separator, taken from the left. */
  function Blocks(text: string): seq<string>
    decreases |text|
  {
    var i := IndexOf(text);
    if i.None? then [] else [text[..i.value]] + Blocks(text[i.value + 2..])
  }

  /** What is left after the last separator. */
  function Rest(text: string): (r: string)
    ensures IndexOf(r).None?
    decreases |text|
  {
    var i := IndexOf(text);
    if i.None? then text else Rest(text[i.value + 2..])
  }

  function EventsOf<J>(parse: string -> Option<J>, blocks: seq<string>): seq<Event<J>> {
    if blocks == [] then []
    else EventsOf(parse, blocks[..|blocks| - 1]) + Dispatch(parse, ReadLines(Lines(blocks[|blocks| - 1])))
  }

  function Events<J>(parse: string -> Option<J>, text: string): seq<Event<J>> {
    EventsOf(parse, Blocks(text))
  }

  function Concat(chunks: seq<string>): string {
    if chunks == [] then "" else Concat(chunks[..|chunks| - 1]) + chunks[|chunks| - 1]
  }

  // ---------- the implementation ----------

  /** The read loop, over the decoded chunks in arrival order. However the text is cut, the events are those
      of the whole text, and the buffer left over holds no separator. */
  method StreamAgentTurn<J>(chunks: seq<string>, parse: string -> Option<J>) returns (events: seq<Event<J>>, buffer: string)
    ensures events == Events(parse, Concat(chunks))
    ensures buffer == Rest(Concat(chunks)) && IndexOf(buffer).None?
  {
    events, buffer := [], "";
    for n := 0 to |chunks|
      invariant events == Events(parse, Concat(chunks[..n]))
      invariant buffer == Rest(Concat(chunks[..n]))
    {
      ConcatStep(chunks, n);
      AppendChunk(parse, Concat(chunks[..n]), chunks[n]);
      var more, rest := Drain(buffer + chunks[n], parse);
      events, buffer := events + more, rest;
    }
    assert chunks[..|chunks|] == chunks;
  }

  /** The inner loop: consumes every complete block of the buffer. */
  method Drain<J>(text: string, parse: string -> Option<J>) returns (events: seq<Event<J>>, buffer: string)
    ensures events == Events(parse, text) && buffer == Rest(text)
  {
    events, buffer := [], text;
    ghost var consumed := [];
    var boundary := IndexOf(buffer);
    while boundary.Some?
      invariant boundary == IndexOf(buffer)
      invariant Blocks(text) == consumed + Blocks(buffer) && Rest(text) == Rest(buffer)
      invariant events == EventsOf(parse, consumed)
      decreases |buffer|
    {
      var raw := buffer[..boundary.value];
      buffer := buffer[boundary.value + 2..];
      var block := ReadBlock(raw);
      if block.data != "" {
        events := events + [Event(block.name, PayloadOf(parse, block.data))];
      }
      ConsumeStep(parse, consumed, raw, Blocks(buffer));
      consumed := consumed + [raw];
      boundary := IndexOf(buffer);
    }
    assert consumed + [] == consumed;
  }

  lemma {:induction false} ConsumeStep<J>(parse: string -> Option<J>, consumed: seq<string>, raw: string, more: seq<string>)
    ensures consumed + ([raw] + more) == (consumed + [raw]) + more
    ensures EventsOf(parse, consumed + [raw]) == EventsOf(parse, consumed) + Dispatch(parse, ReadLines(Lines(raw)))
  {
    assert (consumed + [raw])[..|consumed|] == consumed;
  }

  /** The loop over the lines of one block. */
  method ReadBlock(raw: string) returns (block: Block)
    ensures block == ReadLines(Lines(raw))
  {
    var eventName, data := "message", "";
    var lines := Lines(raw);
    for k := 0 to |lines|
      invariant Block(eventName, data) == ReadLines(lines[..k])
    {
      var line := lines[k];
      assert lines[..k + 1][..k] == lines[..k];
      if EVENT_PREFIX <= line {
        eventName := Trim(line[7..]);
      } else if DATA_PREFIX <= line {
        data := data + line[6..];
      }
    }
    assert lines[..|lines|] == lines;
    block := Block(eventName, data);
  }

  lemma {:induction false} ConcatStep(chunks: seq<string>, n: nat)
    requires n < |chunks|
    ensures Concat(chunks[..n + 1]) == Concat(chunks[..n]) + chunks[n]
  {
    assert chunks[..n + 1][..n] == chunks[..n];
  }

  // ---------- chunk independence ----------

  /** A separator found in a text stays the first one when more text arrives. */
  lemma {:induction false} FirstSeparatorStays(a: string, b: string)
    requires IndexOf(a).Some?
    ensures IndexOf(a + b) == IndexOf(a)
    ensures (a + b)[..IndexOf(a).value] == a[..IndexOf(a).value]
    ensures (a + b)[IndexOf(a).value + 2..] == a[IndexOf(a).value + 2..] + b
  {
    var i := IndexOf(a).value;
    assert SeparatorAt(a + b, i);
    forall j | 0 <= j < i ensures !SeparatorAt(a + b, j) {
      if SeparatorAt(a + b, j) {
        IndexOfIsFirst(a, j);
      }
    }
    IndexOfIs(a + b, i);
  }

  lemma {:induction false} BlocksStep(text: string, block: string, tail: string)
    requires IndexOf(text) == Some(|block|)
    requires text[..|block|] == block && text[|block| + 2..] == tail
    ensures Blocks(text) == [block] + Blocks(tail) && Rest(text) == Rest(tail)
  {
  }

  /** Parsing what has arrived and continuing from the buffer is parsing everything. */
  lemma {:induction false} BlocksAppend(a: string, b: string)
    ensures Blocks(a + b) == Blocks(a) + Blocks(Rest(a) + b)
    ensures Rest(a + b) == Rest(Rest(a) + b)
    decreases |a|
  {
    if IndexOf(a).Some? {
      var i := IndexOf(a).value;
      var block, tail := a[..i], a[i + 2..];
      FirstSeparatorStays(a, b);
      BlocksAppend(tail, b);
      BlocksStep(a, block, tail);
      BlocksStep(a + b, block, tail + b);
      Regroup(block, Blocks(tail), Blocks(Rest(tail) + b));
    }
  }

  lemma {:induction false} Regroup(block: string, xs: seq<string>, ys: seq<string>)
    ensures [block] + (xs + ys) == ([block] + xs) + ys
  {
  }

  lemma {:induction false} EventsOfAppend<J>(parse: string -> Option<J>, xs: seq<string>, ys: seq<string>)
    ensures EventsOf(parse, xs + ys) == EventsOf(parse, xs) + EventsOf(parse, ys)
  {
    if ys == [] {
      assert xs + ys == xs;
    } else {
      var front := ys[..|ys| - 1];
      assert (xs + ys)[..|xs + ys| - 1] == xs + front;
      EventsOfAppend(parse, xs, front);
    }
  }

  lemma {:induction false} AppendChunk<J>(parse: string -> Option<J>, seen: string, chunk: string)
    ensures Events(parse, seen + chunk) == Events(parse, seen) + Events(parse, Rest(seen) + chunk)
    ensures Rest(seen + chunk) == Rest(Rest(seen) + chunk)
  {
    BlocksAppend(seen, chunk);
    EventsOfAppend(parse, Blocks(seen), Blocks(Rest(seen) + chunk));
  }

  // ---------- what was consumed ----------

  function Terminated(blocks: seq<string>): string {
    if blocks == [] then "" else blocks[0] + SEPARATOR + Terminated(blocks[1..])
  }

  /** The first separator after the block is its own terminator. */
  ghost predicate Clean(block: string) {
    IndexOf(block + SEPARATOR) == Some(|block|)
  }

  /** Nothing is lost: consumed blocks, their separators and the buffer rebuild the text. */
  lemma {:induction false} ConsumedRebuildsText(text: string)
    ensures Terminated(Blocks(text)) + Rest(text) == text
    ensures forall b :: b in Blocks(text) ==> Clean(b)
    decreases |text|
  {
    if IndexOf(text).Some? {
      var i := IndexOf(text).value;
      var first, tail := text[..i], text[i + 2..];
      ConsumedRebuildsText(tail);
      assert text == first + SEPARATOR + tail;
      assert first + SEPARATOR == text[..i + 2];
      PrefixIsClean(text, i);
      assert Blocks(text)[1..] == Blocks(tail);
    }
  }

  lemma {:induction false} PrefixIsClean(text: string, i: nat)
    requires IndexOf(text) == Some(i)
    ensures Clean(text[..i])
  {
    var block := text[..i];
    assert SeparatorAt(block + SEPARATOR, i);
    forall j | 0 <= j < i ensures !SeparatorAt(block + SEPARATOR, j) {
      if SeparatorAt(block + SEPARATOR, j) {
        IndexOfIsFirst(text, j);
      }
    }
    IndexOfIs(block + SEPARATOR, i);
  }

  lemma {:induction false} CleanHead(block: string, more: string)
    requires Clean(block)
    ensures Blocks(block + SEPARATOR + more) == [block] + Blocks(more) && Rest(block + SEPARATOR + more) == Rest(more)
  {
    var text := block + SEPARATOR + more;
    FirstSeparatorStays(block + SEPARATOR, more);
    assert text[..|block|] == block && text[|block| + 2..] == more;
  }

  /** The decomposition is the only one: terminated clean blocks and an unfinished tail are parsed back. */
  lemma {:induction false} BlocksAreUnique(blocks: seq<string>, tail: string)
    requires (forall b :: b in blocks ==> Clean(b)) && IndexOf(tail).None?
    ensures Blocks(Terminated(blocks) + tail) == blocks && Rest(Terminated(blocks) + tail) == tail
  {
    if blocks == [] {
      assert Terminated(blocks) + tail == tail;
    } else {
      var more := Terminated(blocks[1..]) + tail;
      BlocksAreUnique(blocks[1..], tail);
      assert Terminated(blocks) + tail == blocks[0] + SEPARATOR + more;
      assert blocks[0] in blocks;
      CleanHead(blocks[0], more);
      assert blocks == [blocks[0]] + blocks[1..];
    }
  }

  // ---------- the server's encoding ----------

  /** One message: an event name and one line of JSON text. */
  datatype Message = Message(name: string, json: string)

  /** The events the server sends. */
  datatype Kind = Stage | Token | Draft | Failure

  function NameOf(k: Kind): string {
    match k
    case Stage => "stage"
    case Token => "token"
    case Draft => "draft"
    case Failure => "error"
  }

  function BlockOf(m: Message): string {
    EVENT_PREFIX + m.name + "\n" + DATA_PREFIX + m.json
  }

  function Encode(messages: seq<Message>): string {
    if messages == [] then "" else Encode(messages[..|messages| - 1]) + BlockOf(messages[|messages| - 1]) + SEPARATOR
  }

  function Sent<J>(parse: string -> Option<J>, messages: seq<Message>): (es: seq<Event<J>>)
    ensures |es| == |messages|
    ensures forall k :: 0 <= k < |messages| ==> es[k] == Event(messages[k].name, PayloadOf(parse, messages[k].json))
  {
    seq(|messages|, k requires 0 <= k < |messages| => Event(messages[k].name, PayloadOf(parse, messages[k].json)))
  }

  ghost predicate SingleLine(m: Message) {
    '\n' !in m.name && '\n' !in m.json
  }

  lemma {:induction false} LinesOfSingle(a: string)
    requires '\n' !in a
    ensures Lines(a) == [a]
  {
    if a != [] {
      LinesOfSingle(a[1..]);
      assert [a[0]] + a[1..] == a;
    }
  }

  lemma {:induction false} LinesAppend(a: string, b: string)
    requires '\n' !in a
    ensures Lines(a + "\n" + b) == [a] + Lines(b)
  {
    var s := a + "\n" + b;
    if a == [] {
      assert s[1..] == b;
    } else {
      LinesAppend(a[1..], b);
      assert s[1..] == a[1..] + "\n" + b;
      assert [a[0]] + a[1..] == a;
    }
  }

  /** A single-line message occupies one clean block. */
  lemma {:induction false} MessageBlockIsClean(m: Message)
    requires SingleLine(m)
    ensures Clean(BlockOf(m))
  {
    var block := BlockOf(m);
    var s := block + SEPARATOR;
    var at := 7 + |m.name|;
    assert EVENT_PREFIX[0] != '\n' && '\n' !in EVENT_PREFIX && '\n' !in DATA_PREFIX;
    forall k | 0 <= k < |block| && k != at ensures block[k] != '\n' {
      if k < 7 {
        assert block[k] == EVENT_PREFIX[k];
      } else if k < at {
        assert block[k] == m.name[k - 7];
      } else if k < at + 7 {
        assert block[k] == DATA_PREFIX[k - at - 1];
      } else {
        assert block[k] == m.json[k - at - 7];
      }
    }
    assert block[at + 1] == DATA_PREFIX[0];
    assert block[|block| - 1] != '\n';
    IndexOfIs(s, |block|);
  }

  lemma {:induction false} MessageFields(m: Message)
    requires SingleLine(m)
    ensures ReadLines(Lines(BlockOf(m))) == Block(Trim(m.name), m.json)
  {
    var first, second := EVENT_PREFIX + m.name, DATA_PREFIX + m.json;
    assert '\n' !in EVENT_PREFIX && '\n' !in DATA_PREFIX;
    LinesAppend(first, second);
    assert first + "\n" + second == BlockOf(m);
    LinesOfSingle(second);
    assert first[7..] == m.name && second[6..] == m.json;
    assert EVENT_PREFIX[0] == 'e' && second[0] == 'd';
    assert !(EVENT_PREFIX <= second);
    assert [first, second][..1] == [first] && [first][..0] == [];
    assert ReadLines([first]) == ReadLine(ReadLines([]), first);
    assert ReadLines([first, second]) == ReadLine(ReadLines([first]), second);
  }

  lemma {:induction false} OneMessage(m: Message)
    requires SingleLine(m)
    ensures Blocks(BlockOf(m) + SEPARATOR) == [BlockOf(m)] && Rest(BlockOf(m) + SEPARATOR) == ""
  {
    MessageBlockIsClean(m);
    CleanHead(BlockOf(m), "");
    assert BlockOf(m) + SEPARATOR + "" == BlockOf(m) + SEPARATOR;
  }

  lemma {:induction false} NextMessage(before: string, m: Message)
    requires SingleLine(m) && Rest(before) == ""
    ensures Blocks(before + BlockOf(m) + SEPARATOR) == Blocks(before) + [BlockOf(m)]
    ensures Rest(before + BlockOf(m) + SEPARATOR) == ""
  {
    var next := BlockOf(m) + SEPARATOR;
    OneMessage(m);
    BlocksAppend(before, next);
    Regroup3(before, BlockOf(m));
    assert Rest(before) + next == next;
  }

  lemma {:induction false} Regroup3(before: string, block: string)
    ensures before + block + SEPARATOR == before + (block + SEPARATOR)
  {
  }

  /** What one encoded message makes the client dispatch, and when that is the message itself. */
  lemma {:induction false} MessageRoundTripsIff<J>(parse: string -> Option<J>, m: Message)
    requires SingleLine(m)
    ensures Events(parse, BlockOf(m) + SEPARATOR) == Dispatch(parse, Block(Trim(m.name), m.json))
    ensures Events(parse, BlockOf(m) + SEPARATOR) == Sent(parse, [m]) <==> m.json != "" && Trim(m.name) == m.name
  {
    OneMessage(m);
    MessageFields(m);
    var block := Block(Trim(m.name), m.json);
    assert EventsOf(parse, [BlockOf(m)]) == EventsOf(parse, []) + Dispatch(parse, block);
    assert EventsOf(parse, [BlockOf(m)]) == Dispatch(parse, block);
    assert Sent(parse, [m]) == [Event(m.name, PayloadOf(parse, m.json))];
    if m.json != "" {
      assert Dispatch(parse, block) == [Event(Trim(m.name), PayloadOf(parse, m.json))];
    }
  }

  ghost predicate WellFormed(m: Message) {
    SingleLine(m) && m.json != "" && Trim(m.name) == m.name
  }

  function BlocksOf(messages: seq<Message>): seq<string> {
    if messages == [] then [] else BlocksOf(messages[..|messages| - 1]) + [BlockOf(messages[|messages| - 1])]
  }

  lemma {:induction false} EncodedBlocks(messages: seq<Message>)
    requires forall m :: m in messages ==> SingleLine(m)
    ensures Blocks(Encode(messages)) == BlocksOf(messages) && Rest(Encode(messages)) == ""
  {
    if messages != [] {
      EncodedBlocks(messages[..|messages| - 1]);
      NextMessage(Encode(messages[..|messages| - 1]), messages[|messages| - 1]);
    }
  }

  lemma {:induction false} MessagesDispatch<J>(parse: string -> Option<J>, messages: seq<Message>)
    requires forall k :: 0 <= k < |messages| ==> WellFormed(messages[k])
    ensures EventsOf(parse, BlocksOf(messages)) == Sent(parse, messages)
  {
    if messages != [] {
      var front, m := messages[..|messages| - 1], messages[|messages| - 1];
      MessagesDispatch(parse, front);
      SplitLast(messages);
      DispatchStep(parse, front, m);
    }
  }

  lemma {:induction false} DispatchStep<J>(parse: string -> Option<J>, messages: seq<Message>, m: Message)
    requires WellFormed(m) && EventsOf(parse, BlocksOf(messages)) == Sent(parse, messages)
    ensures EventsOf(parse, BlocksOf(messages + [m])) == Sent(parse, messages + [m])
  {
    assert (messages + [m])[..|messages|] == messages;
    ConsumeStep(parse, BlocksOf(messages), BlockOf(m), []);
    MessageFields(m);
  }

  /** However a stream of well-formed messages is cut, the client dispatches exactly those messages, in order,
      and keeps nothing back. */
  lemma {:induction false} StreamRoundTrips<J>(parse: string -> Option<J>, messages: seq<Message>, chunks: seq<string>)
    requires Concat(chunks) == Encode(messages) && forall k :: 0 <= k < |messages| ==> WellFormed(messages[k])
    ensures Events(parse, Concat(chunks)) == Sent(parse, messages) && Rest(Concat(chunks)) == ""
  {
    assert forall m :: m in messages ==> SingleLine(m);
    EncodedBlocks(messages);
    MessagesDispatch(parse, messages);
  }

  // ---------- the server's messages ----------

  /** One item of the server's queue: `json.dumps` writes its payload with the default separators. */
  datatype Item = Item(kind: Kind, payload: Json)

  function MessageOf(item: Item): Message {
    Message(NameOf(item.kind), Dumps(Spaced, item.payload))
  }

  function MessagesOf(items: seq<Item>): (ms: seq<Message>)
    ensures |ms| == |items| && forall k :: 0 <= k < |items| ==> ms[k] == MessageOf(items[k])
  {
    seq(|items|, k requires 0 <= k < |items| => MessageOf(items[k]))
  }

  /** The server's event names survive the client's trimming. */
  lemma {:induction false} KindNamesSurvive(k: Kind)
    ensures '\n' !in NameOf(k) && Trim(NameOf(k)) == NameOf(k)
  {
    var name := NameOf(k);
    assert |name| == 5;
    assert 'a' <= name[0] <= 'z' && 'a' <= name[4] <= 'z';
    assert TrimStart(name) == name && TrimEnd(name) == name;
  }

  /** Whatever the payload, its JSON text is one non-empty line, so every server message is well-formed. */
  lemma {:induction false} ServerMessageWellFormed(item: Item)
    ensures WellFormed(MessageOf(item))
  {
    KindNamesSurvive(item.kind);
    var json := Dumps(Spaced, item.payload);
    DumpsPrintable(Spaced, item.payload);
    forall i | 0 <= i < |json| ensures json[i] != '\n' {
      assert ' ' <= json[i];
    }
  }

  /** End to end: whatever the server sends and however the network cuts it, the client dispatches exactly the
      messages sent, in order, and keeps nothing back. */
  lemma {:induction false} ServerStreamRoundTrips<J>(parse: string -> Option<J>, items: seq<Item>, chunks: seq<string>)
    requires Concat(chunks) == Encode(MessagesOf(items))
    ensures Events(parse, Concat(chunks)) == Sent(parse, MessagesOf(items)) && Rest(Concat(chunks)) == ""
  {
    forall k | 0 <= k < |items| ensures WellFormed(MessagesOf(items)[k]) {
      ServerMessageWellFormed(items[k]);
    }
    StreamRoundTrips(parse, MessagesOf(items), chunks);
  }
}
