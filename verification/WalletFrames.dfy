/**
 * Frames written out and read back, and the event each frame is shown as: what
 * pins down how the wallet stream reads a line and names an event.
 */
module WalletFrames {
  import opened Text
  import opened WalletStream

  // ------------------------------------------------- lines

  predicate Trimmed(s: string) { TrimSpace(s) == s }

  /** A field written with or without a space after its colon reads back. */
  lemma FieldReads(x: string)
    requires Trimmed(x)
    ensures Classify("event: " + x) == Event(x) && Classify("id: " + x) == Id(x)
    ensures Classify("event:" + x) == Event(x) && Classify("id:" + x) == Id(x)
  {
    hide Classify, TrimSpace;
    SpaceTrims(x);
    assert "event: " + x == "event:" + (" " + x) && "id: " + x == "id:" + (" " + x);
    EventReads(" " + x);
    EventReads(x);
    IdReads(" " + x);
    IdReads(x);
  }

  lemma EventReads(rest: string)
    ensures Classify("event:" + rest) == Event(TrimSpace(rest))
  {
    PrefixOff("event:", rest);
    OtherPrefix("event:" + rest);
    hide TrimSpace, TrimPrefix, HasPrefix;
  }

  lemma IdReads(rest: string)
    ensures Classify("id:" + rest) == Id(TrimSpace(rest))
  {
    PrefixOff("id:", rest);
    OtherPrefix("id:" + rest);
    hide TrimSpace, TrimPrefix, HasPrefix;
  }

  lemma SpaceTrims(x: string)
    requires Trimmed(x)
    ensures TrimSpace(" " + x) == x
  {
    assert (" " + x)[1..] == x;
  }

  lemma PrefixOff(p: string, x: string)
    ensures HasPrefix(p + x, p) && TrimPrefix(p + x, p) == x
  {
    assert (p + x)[|p|..] == x;
  }

  /** A line is told by its first characters: no field name is a prefix of another. */
  lemma OtherPrefix(s: string)
    ensures HasPrefix(s, "event:") ==> s != "" && !HasPrefix(s, ":") && !HasPrefix(s, "id:") && !HasPrefix(s, "data:")
    ensures HasPrefix(s, "id:") ==> s != "" && !HasPrefix(s, ":") && !HasPrefix(s, "event:") && !HasPrefix(s, "data:")
    ensures HasPrefix(s, "data:") ==> s != "" && !HasPrefix(s, ":") && !HasPrefix(s, "event:") && !HasPrefix(s, "id:")
    ensures HasPrefix(s, ":") ==> s != ""
  {
    if HasPrefix(s, "event:") { assert s[0] == 'e'; }
    if HasPrefix(s, "id:") { assert s[0] == 'i'; }
    if HasPrefix(s, "data:") { assert s[0] == 'd'; }
    if HasPrefix(s, ":") { assert s[0] == ':'; }
  }

  /** Data loses its field name and one leading space, and nothing more. */
  lemma DataReads(x: string)
    ensures Classify("data: " + x) == Data(x)
    ensures !HasPrefix(x, " ") ==> Classify("data:" + x) == Data(x)
  {
    PrefixOff("data:", " " + x);
    PrefixOff("data:", x);
    PrefixOff(" ", x);
    assert "data: " + x == "data:" + (" " + x);
    OtherPrefix("data:" + (" " + x));
    OtherPrefix("data:" + x);
    assert !HasPrefix(x, " ") ==> TrimPrefix(x, " ") == x;
    hide TrimSpace, TrimPrefix, HasPrefix;
  }

  /** The two comments that are notices. */
  lemma NoticeReads(x: string)
    requires Trimmed(x)
    ensures Classify(": " + x) == Comment(x) && (IsNotice(Comment(x)) <==> x == "connected" || x == "heartbeat")
  {
    SpaceTrims(x);
    PrefixOff(":", " " + x);
    assert ": " + x == ":" + (" " + x);
    OtherPrefix(":" + (" " + x));
    hide TrimSpace, TrimPrefix, HasPrefix;
  }

  // ------------------------------------------------- frames

  /** A frame as a server writes it. */
  function FrameLines(d: Delivery): seq<string> {
    ["event: " + d.event, "id: " + d.id, "data: " + d.payload, ""]
  }

  function Written(ds: seq<Delivery>): seq<string> {
    if ds == [] then [] else Written(ds[..|ds| - 1]) + FrameLines(ds[|ds| - 1])
  }

  predicate Writable(d: Delivery) { Trimmed(d.event) && Trimmed(d.id) }

  lemma OneFrame(before: seq<string>, d: Delivery)
    requires Block(before) == [] && Writable(d)
    ensures Deliveries(before + FrameLines(d)) == Deliveries(before) + [d] && Block(before + FrameLines(d)) == []
  {
    hide Classify, Deliveries, Block;
    FieldReads(d.event);
    FieldReads(d.id);
    DataReads(d.payload);
    Regroup(before, "event: " + d.event, "id: " + d.id, "data: " + d.payload, "");
    FourLines(before, "event: " + d.event, "id: " + d.id, "data: " + d.payload, d);
  }

  /** What has been delivered and what the open block holds. */
  ghost predicate Holds(lines: seq<string>, out: seq<Delivery>, event: string, id: string, data: seq<string>) {
    && Deliveries(lines) == out
    && EventOf(Block(lines)) == event && IdOf(Block(lines)) == id && DataOf(Block(lines)) == data
  }

  lemma FieldHolds(lines: seq<string>, line: string, out: seq<Delivery>, event: string, id: string, data: seq<string>)
    requires Holds(lines, out, event, id, data)
    ensures Classify(line).Event? ==> Holds(lines + [line], out, Classify(line).text, id, data)
    ensures Classify(line).Id? ==> Holds(lines + [line], out, event, Classify(line).text, data)
    ensures Classify(line).Data? ==> Holds(lines + [line], out, event, id, data + [Classify(line).text])
  {
    hide Classify, Block, EventOf, IdOf, DataOf, SizeOf, Deliveries, Completes;
    LineStep(lines, line);
    if Classify(line).Event? || Classify(line).Id? || Classify(line).Data? {
      FieldCompletesNothing(lines, line);
    }
  }

  lemma BlankHolds(lines: seq<string>, out: seq<Delivery>, d: Delivery)
    requires Holds(lines, out, d.event, d.id, [d.payload])
    ensures Deliveries(lines + [""]) == out + [d]
  {
    hide Classify, Block, EventOf, IdOf, DataOf, SizeOf, Deliveries, Completes;
    LineStep(lines, "");
    BlankCompletes(lines, d);
  }

  lemma Regroup(before: seq<string>, a: string, b: string, c: string, d: string)
    ensures before + [a, b, c, d] == before + [a] + [b] + [c] + [d]
  {
  }

  lemma FourLines(before: seq<string>, event: string, id: string, data: string, d: Delivery)
    requires Block(before) == []
    requires Classify(event) == Event(d.event) && Classify(id) == Id(d.id) && Classify(data) == Data(d.payload)
    ensures Deliveries(before + [event] + [id] + [data] + [""]) == Deliveries(before) + [d]
    ensures Block(before + [event] + [id] + [data] + [""]) == []
  {
    EmptyBlock();
    var out := Deliveries(before);
    assert Holds(before, out, "", "", []);
    hide Holds, Classify, Deliveries, Block;
    FieldHolds(before, event, out, "", "", []);
    FieldHolds(before + [event], id, out, d.event, "", []);
    FieldHolds(before + [event] + [id], data, out, d.event, d.id, []);
    assert [] + [d.payload] == [d.payload];
    BlankHolds(before + [event] + [id] + [data], out, d);
    BlankEnds(before + [event] + [id] + [data]);
  }

  lemma FieldCompletesNothing(before: seq<string>, line: string)
    requires Classify(line).Event? || Classify(line).Id? || Classify(line).Data?
    ensures Completes(before, line) == []
  {
    hide Classify, Block;
  }

  lemma BlankCompletes(before: seq<string>, d: Delivery)
    requires EventOf(Block(before)) == d.event && IdOf(Block(before)) == d.id && DataOf(Block(before)) == [d.payload]
    ensures Completes(before, "") == [d]
  {
    BlankLine("");
    hide Classify, Block, EventOf, IdOf, DataOf;
    assert Join([d.payload]) == d.payload;
  }

  lemma BlankEnds(lines: seq<string>)
    ensures Block(lines + [""]) == []
  {
  }

  /** Any frames, written one after the other, are delivered as they are, in order. */
  lemma {:induction false} WrittenFramesRead(ds: seq<Delivery>)
    requires forall i :: 0 <= i < |ds| ==> Writable(ds[i])
    ensures Deliveries(Written(ds)) == ds && Block(Written(ds)) == []
  {
    hide FrameLines, Deliveries, Block, Writable;
    if ds == [] {
      EmptyReading(true, "", _ => true);
    } else {
      WrittenFramesRead(ds[..|ds| - 1]);
      OneFrame(Written(ds[..|ds| - 1]), ds[|ds| - 1]);
      assert ds == ds[..|ds| - 1] + [ds[|ds| - 1]];
    }
  }

  // ------------------------------------------------- kinds

  /** Which frame is shown as what, by its event's name; anything else is passed over unseen. */
  lemma KindShown(transport: bool, dec: Decoder, d: Delivery)
    ensures var v := Interpret(transport, dec, d);
            && (d.event == ":connected" ==> v == if transport then Show(Transport("connected")) else Ignore)
            && (d.event == ":heartbeat" ==> v == if transport then Show(Transport("heartbeat")) else Ignore)
            && (d.event == "wallet" ==> v == if dec.walletSchema(d.payload) == Some(2) then Show(Wallet(d.payload)) else Bad)
            && (d.event == "wallet_error" ==> v == if dec.errorReads(d.payload) then Show(WalletError(d.payload)) else Bad)
            && (d.event == "caught_up" ==> v == if dec.caughtUpReads(d.payload) then Show(CaughtUp(d.payload)) else Bad)
            && (d.event == "position" ==>
                  match dec.sequence(d.payload)
                  case Some(n) => v == (if n > 0 then Show(Position(n)) else Bad)
                  case None => v == Bad)
            && (d.event !in {":connected", ":heartbeat", "wallet", "wallet_error", "caught_up", "position"} ==> v == Ignore)
  {
  }

  /** A wallet error ends the stream whatever the consumer answers. */
  lemma WalletErrorEnds(transport: bool, dec: Decoder, consumer: seq<WalletsEvent> -> bool, ds: seq<Delivery>)
    requires ds != [] && ds[|ds| - 1].event == "wallet_error"
    ensures !Accepts(transport, dec, consumer, ds)
  {
    KindShown(transport, dec, ds[|ds| - 1]);
    hide Interpret, Shown;
  }
}
