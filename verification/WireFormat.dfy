/** The wire format that the server writes and the browser client reads, spelled out. */
module WireFormat {
  import opened Wrappers
  import opened Sequences
  import opened JsonText
  import opened EventStream

  // ---------- what the client reads ----------

  /** Adding a line to a block: an event line names the event, a data line adds to the data, others say nothing. */
  lemma {:induction false} LineMeans(lines: seq<string>, line: string)
    ensures var before, after := ReadLines(lines), ReadLines(lines + [line]);
            && ReadLines([]) == Block("message", "")
            && ("event: " <= line ==> after.name == Trim(line[7..]) && after.data == before.data)
            && ("data: " <= line ==> after.name == before.name && after.data == before.data + line[6..])
            && (!("event: " <= line) && !("data: " <= line) ==> after == before)
  {
    assert (lines + [line])[..|lines|] == lines;
    if "data: " <= line {
      assert line[0] == 'd';
    }
  }

  /** JavaScript's white space and line terminators. */
  predicate White(c: char) {
    || c as int in {9, 10, 11, 12, 13, 32, 0xA0, 0x1680, 0x2028, 0x2029, 0x202F, 0x205F, 0x3000, 0xFEFF}
    || 0x2000 <= c as int <= 0x200A
  }

  lemma {:induction false} TrimStartStrips(s: string) returns (k: nat)
    ensures k <= |s| && TrimStart(s) == s[k..] && forall i | 0 <= i < k :: White(s[i])
    ensures TrimStart(s) != "" ==> !White(TrimStart(s)[0])
  {
    if s != [] && IsTrimmed(s[0]) {
      var rest := TrimStartStrips(s[1..]);
      k := rest + 1;
      forall i | 0 <= i < k ensures White(s[i]) {
        assert i > 0 ==> s[i] == s[1..][i - 1];
      }
    } else {
      k := 0;
    }
  }

  lemma {:induction false} TrimEndStrips(s: string) returns (k: nat)
    ensures k <= |s| && TrimEnd(s) == s[..k] && forall i | k <= i < |s| :: White(s[i])
    ensures TrimEnd(s) != "" ==> !White(TrimEnd(s)[|TrimEnd(s)| - 1])
  {
    if s != [] && IsTrimmed(s[|s| - 1]) {
      k := TrimEndStrips(s[..|s| - 1]);
      assert s[..|s| - 1][..k] == s[..k];
      forall i | k <= i < |s| ensures White(s[i]) {
        assert i < |s| - 1 ==> s[i] == s[..|s| - 1][i];
      }
    } else {
      k := |s|;
      assert s[..k] == s;
    }
  }

  /** Trimming cuts off white space at both ends, and all of it. */
  lemma {:induction false} TrimStrips(s: string) returns (a: nat, b: nat)
    ensures a <= b <= |s| && Trim(s) == s[a..b]
    ensures forall i | (0 <= i < a || b <= i < |s|) :: White(s[i])
    ensures a < b ==> !White(s[a]) && !White(s[b - 1])
  {
    a := TrimStartStrips(s);
    var t := TrimStart(s);
    var k := TrimEndStrips(t);
    b := a + k;
    assert t[..k] == s[a..b];
    forall i | b <= i < |s| ensures White(s[i]) {
      assert s[i] == t[i - a];
    }
    if a < b {
      assert Trim(s)[0] == t[0] && Trim(s)[|Trim(s)| - 1] == s[b - 1];
    }
  }

  lemma {:induction false} WireBlock(name: string, json: string)
    ensures "event: " + name + "\ndata: " + json + "\n\n" == BlockOf(Message(name, json)) + SEPARATOR
  {
    assert "\ndata: " == "\n" + "data: ";
    Regrouped("event: " + name, "\n", "data: ", json);
  }

  /** The text of one message: its event is dispatched as sent when the name has no outer white space. */
  lemma {:induction false} WireMessage<J>(parse: string -> Option<J>, name: string, json: string)
    requires '\n' !in name && Trim(name) == name && '\n' !in json && json != ""
    ensures Events(parse, "event: " + name + "\ndata: " + json + "\n\n") == [Event(name, PayloadOf(parse, json))]
    ensures Rest("event: " + name + "\ndata: " + json + "\n\n") == ""
  {
    var m := Message(name, json);
    WireBlock(name, json);
    MessageRoundTripsIff(parse, m);
    OneMessage(m);
    assert Sent(parse, [m]) == [Event(name, PayloadOf(parse, json))];
  }

  /** What is dispatched is the parsed JSON, or the text itself where it does not parse. */
  lemma {:induction false} PayloadMeans<J>(parse: string -> Option<J>, data: string, value: J)
    ensures parse(data) == Some(value) ==> PayloadOf(parse, data) == Parsed(value)
    ensures parse(data) == None ==> PayloadOf(parse, data) == Raw(data)
  {
  }

  /** A block without data dispatches nothing; one without an event line is called "message". */
  lemma {:induction false} WireDefaults<J>(parse: string -> Option<J>, name: string, json: string)
    requires '\n' !in name && '\n' !in json
    ensures Events(parse, "event: " + name + "\n\n") == []
    ensures json != "" ==> Events(parse, "data: " + json + "\n\n") == [Event("message", PayloadOf(parse, json))]
  {
    LineBlock(parse, "event: " + name);
    LineBlock(parse, "data: " + json);
    LineMeans([], "event: " + name);
    LineMeans([], "data: " + json);
    assert ("data: " + json)[6..] == json;
    assert "" + json == json;
    assert [] + ["event: " + name] == ["event: " + name] && [] + ["data: " + json] == ["data: " + json];
  }

  lemma {:induction false} LineBlock<J>(parse: string -> Option<J>, line: string)
    requires '\n' !in line && line != ""
    ensures Events(parse, line + "\n\n") == Dispatch(parse, ReadLines([line]))
  {
    var text := line + "\n\n";
    assert forall k :: 0 <= k < |line| ==> text[k] == line[k];
    IndexOfIs(text, |line|);
    BlocksStep(text, line, "");
    assert Blocks(text) == [line];
    LinesOfSingle(line);
    assert EventsOf(parse, [line]) == EventsOf(parse, []) + Dispatch(parse, ReadLines([line]));
  }

  // ---------- what the server writes ----------

  lemma {:induction false} EncodeOne(items: seq<Item>, item: Item)
    ensures Encode(MessagesOf(items + [item])) == Encode(MessagesOf(items)) + (BlockOf(MessageOf(item)) + SEPARATOR)
  {
    var ms := MessagesOf(items + [item]);
    assert ms[..|ms| - 1] == MessagesOf(items);
    Regroup3(Encode(MessagesOf(items)), BlockOf(MessageOf(item)));
  }

  /** The events of the stream and the names they go by. */
  predicate Named(kind: Kind, name: string) {
    || (kind == Stage && name == "stage") || (kind == Token && name == "token")
    || (kind == Draft && name == "draft") || (kind == Failure && name == "error")
  }

  lemma {:induction false} NamedIsNameOf(kind: Kind, name: string)
    ensures Named(kind, name) <==> NameOf(kind) == name
  {
    assert "stage"[0] != "token"[0] && "stage"[0] != "draft"[0] && "stage"[0] != "error"[0];
    assert "token"[0] != "draft"[0] && "token"[0] != "error"[0] && "draft"[0] != "error"[0];
  }

  /** Every message is appended, in this text, to what was sent before. */
  lemma {:induction false} ServerWrites(items: seq<Item>, kind: Kind, name: string, payload: Json)
    requires Named(kind, name)
    ensures Encode(MessagesOf([])) == ""
    ensures Encode(MessagesOf(items + [Item(kind, payload)]))
         == Encode(MessagesOf(items)) + ("event: " + name + "\ndata: " + Dumps(Spaced, payload) + "\n\n")
  {
    NamedIsNameOf(kind, name);
    EncodeOne(items, Item(kind, payload));
    WireBlock(name, Dumps(Spaced, payload));
  }

  /** And the client dispatches it under its own name. */
  lemma {:induction false} ServerMessageArrives<J>(parse: string -> Option<J>, kind: Kind, name: string, payload: Json)
    requires Named(kind, name)
    ensures var json := Dumps(Spaced, payload);
            Events(parse, "event: " + name + "\ndata: " + json + "\n\n") == [Event(name, PayloadOf(parse, json))]
  {
    NamedIsNameOf(kind, name);
    ServerMessageWellFormed(Item(kind, payload));
    WireMessage(parse, name, Dumps(Spaced, payload));
  }
}
