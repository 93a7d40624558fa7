/**
 * The wallet event stream of funding_v9.go: a line loop that assembles frames
 * and hands them to a callback, and the resume position it leaves behind. The
 * reference reading follows the event-stream format of section 9.2.6 of the
 * HTML Living Standard: blank lines end blocks, the last field of a name wins,
 * data lines add up.
 */
module WalletStream {
  import opened Text

  const FRAME_LIMIT: int := 0x80_0000

  /** What the callback is given: a named frame, or a notice such as ":heartbeat". */
  datatype Delivery = Delivery(event: string, id: string, payload: string)

  datatype Stop = Ended | Refused | PositionMismatch | TooLarge

  // ------------------------------------------------- reading a line

  datatype Line = Blank | Comment(text: string) | Id(text: string) | Event(text: string) | Data(text: string) | Other

  function Classify(line: string): Line {
    if line == "" then Blank
    else if HasPrefix(line, ":") then Comment(TrimSpace(TrimPrefix(line, ":")))
    else if HasPrefix(line, "id:") then Id(TrimSpace(TrimPrefix(line, "id:")))
    else if HasPrefix(line, "event:") then Event(TrimSpace(TrimPrefix(line, "event:")))
    else if HasPrefix(line, "data:") then Data(TrimPrefix(TrimPrefix(line, "data:"), " "))
    else Other
  }

  predicate IsNotice(l: Line) { l.Comment? && (l.text == "connected" || l.text == "heartbeat") }

  // ------------------------------------------------- the reference reading

  /** The lines since the last blank one. */
  function Block(lines: seq<string>): seq<string> {
    if lines == [] || lines[|lines| - 1] == "" then []
    else Block(lines[..|lines| - 1]) + [lines[|lines| - 1]]
  }

  function IdOf(block: seq<string>): string {
    if block == [] then ""
    else
      var l := Classify(block[|block| - 1]);
      if l.Id? then l.text else IdOf(block[..|block| - 1])
  }

  function EventOf(block: seq<string>): string {
    if block == [] then ""
    else
      var l := Classify(block[|block| - 1]);
      if l.Event? then l.text else EventOf(block[..|block| - 1])
  }

  function DataOf(block: seq<string>): seq<string> {
    if block == [] then []
    else
      var l := Classify(block[|block| - 1]);
      DataOf(block[..|block| - 1]) + if l.Data? then [l.text] else []
  }

  /** The length of a block's data lines, field names included. */
  function SizeOf(block: seq<string>): nat {
    if block == [] then 0
    else SizeOf(block[..|block| - 1]) + if Classify(block[|block| - 1]).Data? then |block[|block| - 1]| else 0
  }

  function Join(parts: seq<string>): string {
    if parts == [] then ""
    else if |parts| == 1 then parts[0]
    else Join(parts[..|parts| - 1]) + "\n" + parts[|parts| - 1]
  }

  /** What a line completes: a frame with data, a notice, or nothing. */
  function Completes(before: seq<string>, line: string): seq<Delivery> {
    var l, block := Classify(line), Block(before);
    if l.Blank? && DataOf(block) != [] then [Delivery(EventOf(block), IdOf(block), Join(DataOf(block)))]
    else if IsNotice(l) then [Delivery(":" + l.text, "", "")]
    else []
  }

  /** Everything the lines deliver, in order. */
  function Deliveries(lines: seq<string>): seq<Delivery> {
    if lines == [] then []
    else Deliveries(lines[..|lines| - 1]) + Completes(lines[..|lines| - 1], lines[|lines| - 1])
  }

  /** The id a delivered frame leaves behind, if any: on the realm stream only position frames do. */
  predicate Marks(realm: bool, d: Delivery) { d.id != "" && (realm ==> d.event == "position") }

  function ResumeId(realm: bool, initial: string, ds: seq<Delivery>): string {
    if ds == [] then initial
    else if Marks(realm, ds[|ds| - 1]) then ds[|ds| - 1].id
    else ResumeId(realm, initial, ds[..|ds| - 1])
  }

  /** Every delivery in order was accepted; what the callback says may depend on everything it has seen. */
  ghost predicate AllAccepted(accept: seq<Delivery> -> bool, ds: seq<Delivery>) {
    forall k :: 0 < k <= |ds| ==> accept(ds[..k])
  }

  /** A position frame carries its own sequence as its id. */
  predicate PositionMatches(sequenceOf: string -> Option<nat>, d: Delivery) {
    d.event == "position" ==> sequenceOf(d.payload).Some? && d.id == Numeral(sequenceOf(d.payload).value)
  }

  // ------------------------------------------------- the loop

  lemma {:induction false} JoinFits(block: seq<string>)
    ensures |Join(DataOf(block))| + (if DataOf(block) == [] then 0 else 1) <= SizeOf(block)
  {
    if block != [] {
      var n := |block| - 1;
      JoinFits(block[..n]);
      var l := Classify(block[n]);
      if l.Data? {
        var was, now := DataOf(block[..n]), DataOf(block);
        assert now[..|now| - 1] == was && now[|now| - 1] == l.text;
        assert |l.text| + 5 <= |block[n]|;
      } else {
        assert DataOf(block) == DataOf(block[..n]);
      }
    }
  }

  /** What one more line does to the block being read. */
  lemma LineStep(before: seq<string>, line: string)
    ensures var l, was, now := Classify(line), Block(before), Block(before + [line]);
            && EventOf(now) == (if l.Blank? then "" else if l.Event? then l.text else EventOf(was))
            && IdOf(now) == (if l.Blank? then "" else if l.Id? then l.text else IdOf(was))
            && DataOf(now) == (if l.Blank? then [] else if l.Data? then DataOf(was) + [l.text] else DataOf(was))
            && SizeOf(now) == (if l.Blank? then 0 else if l.Data? then SizeOf(was) + |line| else SizeOf(was))
    ensures Deliveries(before + [line]) == Deliveries(before) + Completes(before, line)
  {
    hide Completes, Classify, EventOf, IdOf, DataOf, SizeOf;
    assert (before + [line])[..|before|] == before;
    BlankLine(line);
    FieldStep(Block(before), line);
    EmptyBlock();
    hide Block;
  }

  lemma BlankLine(line: string)
    ensures Classify(line).Blank? <==> line == ""
  {
    hide TrimSpace, TrimPrefix;
  }

  lemma EmptyBlock()
    ensures EventOf([]) == "" && IdOf([]) == "" && DataOf([]) == [] && SizeOf([]) == 0
  {
  }

  lemma FieldStep(was: seq<string>, line: string)
    ensures var l, now := Classify(line), was + [line];
            && EventOf(now) == (if l.Event? then l.text else EventOf(was))
            && IdOf(now) == (if l.Id? then l.text else IdOf(was))
            && DataOf(now) == (if l.Data? then DataOf(was) + [l.text] else DataOf(was))
            && SizeOf(now) == SizeOf(was) + (if l.Data? then |line| else 0)
  {
    hide Classify;
    assert (was + [line])[..|was|] == was;
  }

  /** One delivery, added to those already accepted. */
  lemma DeliveryStep(realm: bool, initial: string, accept: seq<Delivery> -> bool, ds: seq<Delivery>, d: Delivery)
    requires AllAccepted(accept, ds)
    ensures accept(ds + [d]) ==> AllAccepted(accept, ds + [d])
    ensures ResumeId(realm, initial, ds + [d]) == if Marks(realm, d) then d.id else ResumeId(realm, initial, ds)
    ensures (ds + [d])[..|ds|] == ds
  {
    assert (ds + [d])[..|ds|] == ds;
    forall k | 0 < k <= |ds| + 1 && accept(ds + [d])
      ensures accept((ds + [d])[..k])
    {
      if k <= |ds| {
        assert (ds + [d])[..k] == ds[..k];
      } else {
        assert (ds + [d])[..k] == ds + [d];
      }
    }
  }

  ghost predicate FramesSound(realm: bool, sequenceOf: string -> Option<nat>, ds: seq<Delivery>) {
    forall k :: 0 <= k < |ds| ==> |ds[k].payload| <= FRAME_LIMIT && (realm ==> PositionMatches(sequenceOf, ds[k]))
  }

  /** The next line is a data line that takes its block past the limit. */
  ghost predicate Overflows(lines: seq<string>, n: nat) {
    n < |lines| && Classify(lines[n]).Data? && SizeOf(Block(lines[..n + 1])) > 8 * 1024 * 1024
  }

  /** The next line completes a position frame whose id is not its own sequence. */
  ghost predicate Mismatches(sequenceOf: string -> Option<nat>, lines: seq<string>, n: nat) {
    && n < |lines| && Classify(lines[n]).Blank? && Completes(lines[..n], lines[n]) != []
    && !PositionMatches(sequenceOf, Completes(lines[..n], lines[n])[0])
  }

  /** No block read so far is past the limit. */
  ghost predicate WithinLimit(lines: seq<string>, n: nat)
    requires n <= |lines|
  {
    forall k :: 0 <= k <= n ==> SizeOf(Block(lines[..k])) <= 8 * 1024 * 1024
  }

  /**
   * Why reading stopped: the end of the lines, a refusal by the callback, a
   * data line past the limit, or a position frame that does not match its id.
   */
  ghost predicate StopsFor(
    realm: bool, accept: seq<Delivery> -> bool, sequenceOf: string -> Option<nat>, lines: seq<string>, delivered: seq<Delivery>,
    stop: Stop, consumed: nat)
    requires consumed <= |lines|
  {
    match stop
    case Ended => consumed == |lines|
    case Refused => delivered != [] && consumed > 0 && delivered != Deliveries(lines[..consumed - 1]) && !accept(delivered)
    case TooLarge => Overflows(lines, consumed)
    case PositionMismatch => realm && Mismatches(sequenceOf, lines, consumed)
  }

  /**
   * readFundingWalletSSE. `consumed` counts the lines read up to the stop. The
   * callback has been given exactly what those lines deliver, in order; it
   * accepted all of it, except the last delivery when it refused that one. The
   * resume id is that of the last accepted frame that marks a position. No
   * block ever held more than 8 MiB of data lines, and reading stops early only
   * for the stated reasons.
   */
  method ReadFundingWalletSSE(
    realm: bool, initial: string, lines: seq<string>, accept: seq<Delivery> -> bool, sequenceOf: string -> Option<nat>)
    returns (resume: string, delivered: seq<Delivery>, stop: Stop, ghost consumed: nat)
    ensures consumed <= |lines| && StopsFor(realm, accept, sequenceOf, lines, delivered, stop, consumed)
    ensures delivered == Deliveries(lines[..consumed]) && WithinLimit(lines, consumed)
    ensures var accepted := if stop.Refused? then delivered[..|delivered| - 1] else delivered;
            AllAccepted(accept, accepted) && resume == ResumeId(realm, initial, accepted)
    ensures FramesSound(realm, sequenceOf, delivered)
  {
    hide Classify, Block, EventOf, IdOf, DataOf, SizeOf, Join, Deliveries;
    hide ResumeId, AllAccepted, PositionMatches, Numeral, WithinLimit, FramesSound;
    resume, delivered := initial, [];
    var event, id, data, frameBytes := "", "", [], 0;
    var i := 0;
    EmptyBlock();
    EmptyReading(realm, initial, accept);
    assert lines[..0] == [];
    WithinStart(lines);
    NoFrames(realm, sequenceOf);
    while i < |lines|
      invariant i <= |lines| && delivered == Deliveries(lines[..i])
      invariant event == EventOf(Block(lines[..i])) && id == IdOf(Block(lines[..i]))
      invariant data == DataOf(Block(lines[..i])) && frameBytes == SizeOf(Block(lines[..i])) <= FRAME_LIMIT
      invariant AllAccepted(accept, delivered) && resume == ResumeId(realm, initial, delivered)
      invariant FramesSound(realm, sequenceOf, delivered) && WithinLimit(lines, i)
    {
      var line := lines[i];
      var l := Classify(line);
      LineStep(lines[..i], line);
      WithinStep(lines, i);
      assert lines[..i + 1] == lines[..i] + [line];
      if l.Blank? {
        if |data| > 0 {
          var d := Delivery(event, id, Join(data));
          JoinFits(Block(lines[..i]));
          Matches(sequenceOf, d);
          if realm && event == "position" {
            var position := sequenceOf(d.payload);
            if position.None? || id != Numeral(position.value) {
              return resume, delivered, PositionMismatch, i;
            }
          }
          DeliveryStep(realm, initial, accept, delivered, d);
          FramesStep(realm, sequenceOf, delivered, d);
          delivered := delivered + [d];
          if !accept(delivered) {
            return resume, delivered, Refused, i + 1;
          }
          if id != "" && (!realm || event == "position") {
            resume := id;
          }
        }
        event, id, data, frameBytes := "", "", [], 0;
      } else if IsNotice(l) {
        var d := Delivery(":" + l.text, "", "");
        Matches(sequenceOf, d);
        DeliveryStep(realm, initial, accept, delivered, d);
        FramesStep(realm, sequenceOf, delivered, d);
        delivered := delivered + [d];
        if !accept(delivered) {
          return resume, delivered, Refused, i + 1;
        }
      } else if l.Id? {
        id := l.text;
      } else if l.Event? {
        event := l.text;
      } else if l.Data? {
        frameBytes := frameBytes + |line|;
        if frameBytes > FRAME_LIMIT {
          return resume, delivered, TooLarge, i;
        }
        data := data + [l.text];
      }
      i := i + 1;
    }
    assert lines[..i] == lines;
    return resume, delivered, Ended, i;
  }

  lemma NoFrames(realm: bool, sequenceOf: string -> Option<nat>)
    ensures FramesSound(realm, sequenceOf, [])
  {
  }

  lemma FramesStep(realm: bool, sequenceOf: string -> Option<nat>, ds: seq<Delivery>, d: Delivery)
    requires FramesSound(realm, sequenceOf, ds) && |d.payload| <= FRAME_LIMIT && (realm ==> PositionMatches(sequenceOf, d))
    ensures FramesSound(realm, sequenceOf, ds + [d])
  {
    hide PositionMatches;
  }

  lemma WithinStart(lines: seq<string>)
    ensures WithinLimit(lines, 0)
  {
    assert lines[..0] == [];
  }

  lemma WithinStep(lines: seq<string>, n: nat)
    requires n < |lines| && WithinLimit(lines, n)
    ensures SizeOf(Block(lines[..n + 1])) <= FRAME_LIMIT ==> WithinLimit(lines, n + 1)
  {
    hide SizeOf, Block;
  }

  lemma Matches(sequenceOf: string -> Option<nat>, d: Delivery)
    ensures PositionMatches(sequenceOf, d) <==>
              d.event != "position" || (sequenceOf(d.payload).Some? && d.id == Numeral(sequenceOf(d.payload).value))
  {
    hide Numeral;
  }

  lemma EmptyReading(realm: bool, initial: string, accept: seq<Delivery> -> bool)
    ensures Block([]) == [] && Deliveries([]) == [] && AllAccepted(accept, []) && ResumeId(realm, initial, []) == initial
  {
  }

  // ------------------------------------------------- the realm stream's callback

  const SNAPSHOT_SCHEMA: nat := 2

  datatype WalletsEvent =
    | Transport(kind: string)
    | Wallet(frame: string)
    | WalletError(frame: string)
    | CaughtUp(frame: string)
    | Position(sequence: nat)

  /** Decoding a payload: the schema of a wallet snapshot, whether the others read, the sequence of a position. */
  datatype Decoder = Decoder(
    walletSchema: string -> Option<nat>,
    errorReads: string -> bool,
    caughtUpReads: string -> bool,
    sequence: string -> Option<nat>)

  datatype Verdict = Ignore | Bad | Show(event: WalletsEvent)

  function Interpret(transport: bool, dec: Decoder, d: Delivery): Verdict {
    match d.event
    case ":connected" => if transport then Show(Transport("connected")) else Ignore
    case ":heartbeat" => if transport then Show(Transport("heartbeat")) else Ignore
    case "wallet" => if dec.walletSchema(d.payload) == Some(SNAPSHOT_SCHEMA) then Show(Wallet(d.payload)) else Bad
    case "wallet_error" => if dec.errorReads(d.payload) then Show(WalletError(d.payload)) else Bad
    case "caught_up" => if dec.caughtUpReads(d.payload) then Show(CaughtUp(d.payload)) else Bad
    case "position" =>
      var p := dec.sequence(d.payload);
      if p.None? || p.value == 0 then Bad else Show(Position(p.value))
    case _ => Ignore
  }

  /** The events the consumer is shown for a run of deliveries. */
  function Shown(transport: bool, dec: Decoder, ds: seq<Delivery>): seq<WalletsEvent> {
    if ds == [] then []
    else
      var v := Interpret(transport, dec, ds[|ds| - 1]);
      Shown(transport, dec, ds[..|ds| - 1]) + if v.Show? then [v.event] else []
  }

  /** The callback: the consumer's own answer, and a wallet error always ends the stream after it was shown. */
  predicate Accepts(transport: bool, dec: Decoder, consumer: seq<WalletsEvent> -> bool, ds: seq<Delivery>) {
    ds != [] ==>
      match Interpret(transport, dec, ds[|ds| - 1])
      case Ignore => true
      case Bad => false
      case Show(e) => consumer(Shown(transport, dec, ds)) && !e.WalletError?
  }

  /** The numeral of the last position among some events. */
  function LastPosition(initial: string, events: seq<WalletsEvent>): string {
    if events == [] then initial
    else if events[|events| - 1].Position? then Numeral(events[|events| - 1].sequence)
    else LastPosition(initial, events[..|events| - 1])
  }

  ghost predicate ConsumerAccepted(consumer: seq<WalletsEvent> -> bool, events: seq<WalletsEvent>) {
    forall k :: 0 < k <= |events| ==> consumer(events[..k]) && !events[k - 1].WalletError?
  }

  lemma InterpretPosition(transport: bool, dec: Decoder, d: Delivery)
    requires PositionMatches(dec.sequence, d) && !Interpret(transport, dec, d).Bad?
    ensures Marks(true, d) <==> Interpret(transport, dec, d).Show? && Interpret(transport, dec, d).event.Position?
    ensures Marks(true, d) ==>
              var sequence := Interpret(transport, dec, d).event.sequence;
              sequence > 0 && d.id == Numeral(sequence)
  {
    hide Numeral;
  }

  /**
   * Accepted deliveries and what they show: the resume id is the last position
   * shown, and the consumer accepted everything shown.
   */
  lemma {:induction false} AcceptedShows(
    transport: bool, dec: Decoder, consumer: seq<WalletsEvent> -> bool, initial: string, ds: seq<Delivery>)
    requires FramesSound(true, dec.sequence, ds)
    requires forall k :: 0 < k <= |ds| ==> Accepts(transport, dec, consumer, ds[..k])
    ensures ResumeId(true, initial, ds) == LastPosition(initial, Shown(transport, dec, ds))
    ensures ConsumerAccepted(consumer, Shown(transport, dec, ds))
    ensures forall e :: e in Shown(transport, dec, ds) && e.Position? ==> e.sequence > 0
  {
    if ds != [] {
      var n := |ds| - 1;
      var was, d := ds[..n], ds[n];
      forall k | 0 < k <= n
        ensures Accepts(transport, dec, consumer, was[..k])
      {
        assert was[..k] == ds[..k];
      }
      AcceptedShows(transport, dec, consumer, initial, was);
      assert ds[..|ds|] == ds && Accepts(transport, dec, consumer, ds);
      InterpretPosition(transport, dec, d);
      var before, now := Shown(transport, dec, was), Shown(transport, dec, ds);
      hide Interpret, Numeral, PositionMatches;
      if Interpret(transport, dec, d).Show? {
        assert now[..|now| - 1] == before;
        ShowsOneMore(consumer, before, Interpret(transport, dec, d).event);
      } else {
        assert now == before;
      }
    }
  }

  lemma ShowsOneMore(consumer: seq<WalletsEvent> -> bool, before: seq<WalletsEvent>, e: WalletsEvent)
    requires ConsumerAccepted(consumer, before) && consumer(before + [e]) && !e.WalletError?
    ensures ConsumerAccepted(consumer, before + [e])
  {
    var now := before + [e];
    forall k | 0 < k <= |now|
      ensures consumer(now[..k]) && !now[k - 1].WalletError?
    {
      if k <= |before| {
        assert now[..k] == before[..k];
      } else {
        assert now[..k] == now;
      }
    }
  }

  /** The consumer's last word on what it was shown: it refused the last event, or that event ends the stream. */
  predicate EndsWithRefusal(consumer: seq<WalletsEvent> -> bool, shown: seq<WalletsEvent>) {
    shown != [] && (!consumer(shown) || shown[|shown| - 1].WalletError?)
  }

  /** What the consumer accepted: everything shown, but a last event it refused or that ends the stream. */
  function AcceptedOf(consumer: seq<WalletsEvent> -> bool, shown: seq<WalletsEvent>): seq<WalletsEvent> {
    if EndsWithRefusal(consumer, shown) then shown[..|shown| - 1] else shown
  }

  /** Every delivery reads: none is a frame the callback refuses unseen. */
  ghost predicate AllRead(transport: bool, dec: Decoder, ds: seq<Delivery>) {
    forall k :: 0 <= k < |ds| ==> !Interpret(transport, dec, ds[k]).Bad?
  }

  lemma AcceptedRead(transport: bool, dec: Decoder, consumer: seq<WalletsEvent> -> bool, ds: seq<Delivery>)
    requires forall k :: 0 < k <= |ds| ==> Accepts(transport, dec, consumer, ds[..k])
    ensures AllRead(transport, dec, ds)
  {
    hide Interpret, Shown;
    forall k | 0 <= k < |ds|
      ensures !Interpret(transport, dec, ds[k]).Bad?
    {
      assert Accepts(transport, dec, consumer, ds[..k + 1]);
      assert ds[..k + 1][k] == ds[k];
    }
  }

  /** Why the realm stream stopped; a refusal is the consumer's, or a frame that does not read. */
  ghost predicate StreamStopsFor(
    transport: bool, dec: Decoder, consumer: seq<WalletsEvent> -> bool, lines: seq<string>, stop: Stop, consumed: nat)
    requires consumed <= |lines|
  {
    var ds := Deliveries(lines[..consumed]);
    match stop
    case Ended => consumed == |lines|
    case Refused =>
      && ds != []
      && (Interpret(transport, dec, ds[|ds| - 1]).Bad? || EndsWithRefusal(consumer, Shown(transport, dec, ds)))
    case TooLarge => Overflows(lines, consumed)
    case PositionMismatch => Mismatches(dec.sequence, lines, consumed)
  }

  /** After accepted deliveries the consumer has refused nothing. */
  lemma NothingRefused(consumer: seq<WalletsEvent> -> bool, shown: seq<WalletsEvent>)
    requires ConsumerAccepted(consumer, shown)
    ensures !EndsWithRefusal(consumer, shown) && AcceptedOf(consumer, shown) == shown
  {
    assert shown[..|shown|] == shown;
  }

  /** The refused last delivery: unreadable and not shown, or shown and refused by the consumer or for its error. */
  lemma RefusedShows(transport: bool, dec: Decoder, consumer: seq<WalletsEvent> -> bool, ds: seq<Delivery>)
    requires ds != [] && !Accepts(transport, dec, consumer, ds)
    requires ConsumerAccepted(consumer, Shown(transport, dec, ds[..|ds| - 1]))
    ensures var shown := Shown(transport, dec, ds);
            && AcceptedOf(consumer, shown) == Shown(transport, dec, ds[..|ds| - 1])
            && (Interpret(transport, dec, ds[|ds| - 1]).Bad? || EndsWithRefusal(consumer, shown))
  {
    hide Interpret;
    var before := Shown(transport, dec, ds[..|ds| - 1]);
    var shown := Shown(transport, dec, ds);
    NothingRefused(consumer, before);
    if Interpret(transport, dec, ds[|ds| - 1]).Show? {
      assert shown[..|shown| - 1] == before;
    } else {
      assert shown == before;
    }
  }

  /**
   * The realm wallet stream, for every line sequence and every answer of the
   * consumer: the resume id is the initial one or the sequence of the last
   * position the consumer accepted; it accepted everything it was shown, in
   * order, but possibly the last; no frame that does not read or carries
   * another position's id is passed over; and the stream stops only at the end of the
   * lines, at a refusal, or at a frame that does not read, does not match its
   * position or is too large.
   */
  method StreamFundingV9Wallets(
    after: nat, transport: bool, lines: seq<string>, dec: Decoder, consumer: seq<WalletsEvent> -> bool)
    returns (resume: string, shown: seq<WalletsEvent>, stop: Stop, ghost consumed: nat)
    ensures consumed <= |lines| && StreamStopsFor(transport, dec, consumer, lines, stop, consumed)
    ensures shown == Shown(transport, dec, Deliveries(lines[..consumed])) && WithinLimit(lines, consumed)
    ensures FramesSound(true, dec.sequence, Deliveries(lines[..consumed]))
    ensures var ds := Deliveries(lines[..consumed]);
            AllRead(transport, dec, if stop.Refused? then ds[..|ds| - 1] else ds)
    ensures ConsumerAccepted(consumer, AcceptedOf(consumer, shown)) && (!stop.Refused? ==> AcceptedOf(consumer, shown) == shown)
    ensures resume == LastPosition(if after > 0 then Numeral(after) else "", AcceptedOf(consumer, shown))
  {
    hide Interpret, Numeral, Deliveries, WithinLimit, Overflows, Mismatches, FramesSound;
    var initial := if after > 0 then Numeral(after) else "";
    var delivered;
    resume, delivered, stop, consumed :=
      ReadFundingWalletSSE(true, initial, lines, ds => Accepts(transport, dec, consumer, ds), dec.sequence);
    shown := Shown(transport, dec, delivered);
    ghost var accepted := if stop.Refused? then delivered[..|delivered| - 1] else delivered;
    FramesPrefix(true, dec.sequence, delivered, |accepted|);
    AcceptedShows(transport, dec, consumer, initial, accepted);
    AcceptedRead(transport, dec, consumer, accepted);
    if stop.Refused? {
      RefusedShows(transport, dec, consumer, delivered);
    } else {
      NothingRefused(consumer, shown);
    }
  }

  lemma FramesPrefix(realm: bool, sequenceOf: string -> Option<nat>, ds: seq<Delivery>, n: nat)
    requires n <= |ds| && FramesSound(realm, sequenceOf, ds)
    ensures FramesSound(realm, sequenceOf, ds[..n])
  {
  }
}
