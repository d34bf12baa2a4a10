/**
 The ESP32-P4 ROM releases the reply to a command only when the next command arrives. The SYNC poke
 of internal/espflash/command_p4.go makes it answer as a ROM that replies at once.
 */
module PipelineLag {
  import opened Wrappers
  import opened Bytes
  import opened Slip
  import opened Serial
  import opened Command

  /** A ROM that has executed what it received but still holds its last replies back. */
  datatype LaggingRom<S> = LaggingRom(core: S, held: seq<seq<byte>>)

  function Lag<S>(h: Reaction<S>): Reaction<LaggingRom<S>> {
    (rom: LaggingRom<S>, p: seq<byte>) => (LaggingRom(h(rom.core, p).0, h(rom.core, p).1), rom.held)
  }

  ghost predicate AllReplies(frames: seq<seq<byte>>, opcode: byte) {
    forall i :: 0 <= i < |frames| ==> IsReply(frames[i], opcode)
  }

  /**
   What every bootloader does: a command gets one reply with its opcode; SYNC changes nothing and gets
   at most `syncs` replies.
   */
  ghost predicate AnswersCommands<S(!new)>(h: Reaction<S>, syncs: nat) {
    forall s: S, opcode: byte, data: seq<byte>, checksum: nat ::
      AnswersRequest(h, syncs, s, opcode, Request(opcode, data, checksum))
  }

  ghost predicate AnswersRequest<S>(h: Reaction<S>, syncs: nat, s: S, opcode: byte, request: seq<byte>) {
    && AllReplies(h(s, request).1, opcode)
    && (opcode == CMD_SYNC ==> h(s, request).0 == s && |h(s, request).1| <= syncs)
    && (opcode != CMD_SYNC ==> |h(s, request).1| == 1)
  }

  datatype Order = Order(opcode: byte, data: seq<byte>, checksum: nat) {
    function Packet(): (p: seq<byte>)
      ensures p != []
    {
      Request(opcode, data, checksum)
    }
  }

  function AnswerIn(frame: seq<byte>): Answer
    requires |frame| >= 8
  {
    Reply(GetU32Le(frame[4..8]), frame[8..])
  }

  /** One call of `command`, with `line` the whole stream of bytes not yet read. */
  function Exchange<M>(react: Reaction<M>, poke: bool, wire: Wire<M>, o: Order, tries: nat): (Answer, Wire<M>) {
    var w := Ask(react, wire, o.Packet(), poke);
    match Await(w.line, o.opcode, 0, tries)
    case Answered(v, d, rest) => (Reply(v, d), w.(line := rest))
    case GaveUp(rest) => (NoReply, w.(line := rest))
    case Noise => (NoReply, w)
  }

  function Converse<M>(react: Reaction<M>, poke: bool, wire: Wire<M>, orders: seq<Order>, tries: nat): seq<Answer>
    decreases |orders|
  {
    if orders == [] then []
    else
      var (a, w) := Exchange(react, poke, wire, orders[0], tries);
      [a] + Converse(react, poke, w, orders[1..], tries)
  }

  ghost predicate NoSync(orders: seq<Order>) {
    forall i :: 0 <= i < |orders| ==> orders[i].opcode != CMD_SYNC
  }

  /** The replies the command handler itself computes, one per command. */
  ghost function OwnReplies<S(!new)>(h: Reaction<S>, syncs: nat, s: S, orders: seq<Order>): seq<Answer>
    requires AnswersCommands(h, syncs) && NoSync(orders)
    decreases |orders|
  {
    if orders == [] then []
    else
      var o := orders[0];
      assert AnswersRequest(h, syncs, s, o.opcode, Request(o.opcode, o.data, o.checksum));
      var (s', out) := h(s, o.Packet());
      [AnswerIn(out[0])] + OwnReplies(h, syncs, s', orders[1..])
  }

  // ------------------------------------------------------------- stale frames

  /** A frame the read loop counts and passes over while it waits for `opcode`. */
  predicate StaleFor(frame: seq<byte>, opcode: byte) {
    frame != [] && !IsReply(frame, opcode) && (|frame| < 8 || frame[0] == RESPONSE)
  }

  /** A reply is found behind stale frames exactly when there are at most 256 of them. */
  lemma {:induction false} AwaitBehindStale(stale: seq<seq<byte>>, reply: seq<byte>, opcode: byte, count: nat,
                                            tries: nat)
    requires forall i :: 0 <= i < |stale| ==> StaleFor(stale[i], opcode)
    requires IsReply(reply, opcode) && count <= MAX_STALE_FRAMES && tries > |stale|
    ensures var w := Await(EncodeAll(stale + [reply]), opcode, count, tries);
            if count + |stale| <= 256 then w == Answered(GetU32Le(reply[4..8]), reply[8..], [])
            else w.GaveUp?
    decreases |stale|
  {
    var frames := stale + [reply];
    FeedFrame(START, frames[0], EncodeAll(frames[1..]));
    if stale == [] {
      assert frames[1..] == [];
    } else {
      assert frames[1..] == stale[1..] + [reply];
      if count + 1 <= MAX_STALE_FRAMES {
        AwaitBehindStale(stale[1..], reply, opcode, count + 1, tries - 1);
      }
    }
  }

  // -------------------------------------------------------------- one exchange

  lemma TransmitFrame<M>(react: Reaction<M>, wire: Wire<M>, packet: seq<byte>)
    requires Idle(wire.rx) && packet != []
    ensures Transmit(react, wire, Encode(packet))
         == Wire(START, react(wire.device, packet).0, wire.line + EncodeAll(react(wire.device, packet).1))
  {
    ServeFrame(react, wire.rx, wire.device, packet);
  }

  function Poke(): seq<byte> {
    Request(CMD_SYNC, SyncPayload(), 0)
  }

  lemma OwnReply<S(!new)>(h: Reaction<S>, syncs: nat, s: S, o: Order)
    requires AnswersCommands(h, syncs) && o.opcode != CMD_SYNC
    ensures var out := h(s, o.Packet()).1; |out| == 1 && out == [out[0]] && IsReply(out[0], o.opcode)
  {
    assert AnswersRequest(h, syncs, s, o.opcode, Request(o.opcode, o.data, o.checksum));
  }

  lemma PokeReplies<S(!new)>(h: Reaction<S>, syncs: nat, s: S)
    requires AnswersCommands(h, syncs)
    ensures var (s', next) := h(s, Poke()); s' == s && AllReplies(next, CMD_SYNC) && |next| <= syncs
  {
    assert AnswersRequest(h, syncs, s, CMD_SYNC, Request(CMD_SYNC, SyncPayload(), 0));
  }

  /** The stream of a lagging ROM after a command and a poke: backlog, held replies, the command's own reply. */
  lemma LaggingStream<S(!new)>(h: Reaction<S>, syncs: nat, wire: Wire<LaggingRom<S>>, backlog: seq<seq<byte>>, o: Order)
    requires AnswersCommands(h, syncs) && Idle(wire.rx) && wire.line == EncodeAll(backlog)
    ensures var (s, out) := h(wire.device.core, o.Packet());
            Ask(Lag(h), wire, o.Packet(), true)
            == Wire(START, LaggingRom(s, h(s, Poke()).1), EncodeAll(backlog + wire.device.held + out))
  {
    var s, out := h(wire.device.core, o.Packet()).0, h(wire.device.core, o.Packet()).1;
    TransmitFrame(Lag(h), wire, o.Packet());
    var asked := Wire(START, LaggingRom(s, out), wire.line + EncodeAll(wire.device.held));
    PokeReplies(h, syncs, s);
    TransmitFrame(Lag(h), asked, Poke());
    EncodeAllAppend(backlog, wire.device.held);
    EncodeAllAppend(backlog + wire.device.held, out);
  }

  lemma AwaitBehindSyncs(syncs: seq<seq<byte>>, reply: seq<byte>, opcode: byte, tries: nat)
    requires AllReplies(syncs, CMD_SYNC) && IsReply(reply, opcode) && opcode != CMD_SYNC && tries > |syncs|
    ensures var w := Await(EncodeAll(syncs + [reply]), opcode, 0, tries);
            if |syncs| <= MAX_STALE_FRAMES then w == Answered(GetU32Le(reply[4..8]), reply[8..], [])
            else w.GaveUp?
  {
    AwaitBehindStale(syncs, reply, opcode, 0, tries);
  }

  /**
   The poked ROM's reply is returned to its own command exactly when at most 256 frames are ahead of it,
   whatever those SYNC frames are.
   */
  lemma LaggingReply<S(!new)>(h: Reaction<S>, syncs: nat, wire: Wire<LaggingRom<S>>, backlog: seq<seq<byte>>,
                              o: Order, tries: nat)
    requires AnswersCommands(h, syncs) && Idle(wire.rx) && wire.line == EncodeAll(backlog) && o.opcode != CMD_SYNC
    requires AllReplies(backlog + wire.device.held, CMD_SYNC) && tries > |backlog + wire.device.held|
    ensures var out := h(wire.device.core, o.Packet()).1;
            var (a, w) := Exchange(Lag(h), true, wire, o, tries);
            && |out| == 1 && IsReply(out[0], o.opcode)
            && a == (if |backlog + wire.device.held| <= MAX_STALE_FRAMES then AnswerIn(out[0]) else NoReply)
            && (a.Reply? ==> w.line == [])
  {
    OwnReply(h, syncs, wire.device.core, o);
    LaggingStream(h, syncs, wire, backlog, o);
    AwaitBehindSyncs(backlog + wire.device.held, h(wire.device.core, o.Packet()).1[0], o.opcode, tries);
  }

  /** One exchange leaves an idle ROM that has executed the command and holds replies to the poke. */
  lemma LaggingRest<S(!new)>(h: Reaction<S>, syncs: nat, wire: Wire<LaggingRom<S>>, backlog: seq<seq<byte>>,
                             o: Order, tries: nat)
    requires AnswersCommands(h, syncs) && Idle(wire.rx) && wire.line == EncodeAll(backlog)
    ensures var w := Exchange(Lag(h), true, wire, o, tries).1;
            && Idle(w.rx) && w.device.core == h(wire.device.core, o.Packet()).0
            && AllReplies(w.device.held, CMD_SYNC) && |w.device.held| <= syncs
  {
    LaggingStream(h, syncs, wire, backlog, o);
    PokeReplies(h, syncs, h(wire.device.core, o.Packet()).0);
  }

  lemma LaggingExchange<S(!new)>(h: Reaction<S>, syncs: nat, wire: Wire<LaggingRom<S>>, backlog: seq<seq<byte>>,
                                 o: Order, tries: nat)
    requires AnswersCommands(h, syncs) && Idle(wire.rx) && wire.line == EncodeAll(backlog) && o.opcode != CMD_SYNC
    requires AllReplies(backlog, CMD_SYNC) && AllReplies(wire.device.held, CMD_SYNC)
    requires tries > |backlog| + |wire.device.held|
    ensures var (s, out) := h(wire.device.core, o.Packet());
            var (a, w) := Exchange(Lag(h), true, wire, o, tries);
            && |out| == 1 && IsReply(out[0], o.opcode)
            && (a == AnswerIn(out[0]) <==> |backlog| + |wire.device.held| <= 256)
            && (a != AnswerIn(out[0]) ==> a == NoReply)
            && Idle(w.rx) && w.device.core == s && AllReplies(w.device.held, CMD_SYNC) && |w.device.held| <= syncs
            && (a.Reply? ==> w.line == [])
  {
    LaggingReply(h, syncs, wire, backlog, o, tries);
    LaggingRest(h, syncs, wire, backlog, o, tries);
  }

  /** A ROM that answers at once needs no poke. */
  lemma PromptExchange<S(!new)>(h: Reaction<S>, syncs: nat, wire: Wire<S>, o: Order, tries: nat)
    requires AnswersCommands(h, syncs) && Idle(wire.rx) && wire.line == [] && o.opcode != CMD_SYNC && tries > 0
    ensures var (s, out) := h(wire.device, o.Packet());
            && |out| == 1 && IsReply(out[0], o.opcode)
            && Exchange(h, false, wire, o, tries) == (AnswerIn(out[0]), Wire(START, s, []))
  {
    OwnReply(h, syncs, wire.device, o);
    TransmitFrame(h, wire, o.Packet());
    var out := h(wire.device, o.Packet()).1;
    assert out == [] + [out[0]] && wire.line + EncodeAll(out) == EncodeAll(out);
    AwaitBehindStale([], out[0], o.opcode, 0, tries);
  }

  // ------------------------------------------------------------------ whole runs

  lemma {:induction false} LaggingRunReturnsOwnReplies<S(!new)>(h: Reaction<S>, syncs: nat, wire: Wire<LaggingRom<S>>,
                                                              backlog: seq<seq<byte>>, orders: seq<Order>, tries: nat)
    requires AnswersCommands(h, syncs) && NoSync(orders) && Idle(wire.rx) && wire.line == EncodeAll(backlog)
    requires AllReplies(backlog, CMD_SYNC) && AllReplies(wire.device.held, CMD_SYNC)
    requires |backlog| + |wire.device.held| <= MAX_STALE_FRAMES && syncs <= MAX_STALE_FRAMES < tries
    ensures Converse(Lag(h), true, wire, orders, tries) == OwnReplies(h, syncs, wire.device.core, orders)
    decreases |orders|
  {
    if orders != [] {
      LaggingExchange(h, syncs, wire, backlog, orders[0], tries);
      var next := Exchange(Lag(h), true, wire, orders[0], tries).1;
      LaggingRunReturnsOwnReplies(h, syncs, next, [], orders[1..], tries);
    }
  }

  lemma {:induction false} PromptRunReturnsOwnReplies<S(!new)>(h: Reaction<S>, syncs: nat, wire: Wire<S>,
                                                             orders: seq<Order>, tries: nat)
    requires AnswersCommands(h, syncs) && NoSync(orders) && Idle(wire.rx) && wire.line == [] && tries > 0
    ensures Converse(h, false, wire, orders, tries) == OwnReplies(h, syncs, wire.device, orders)
    decreases |orders|
  {
    if orders != [] {
      PromptExchange(h, syncs, wire, orders[0], tries);
      PromptRunReturnsOwnReplies(h, syncs, Exchange(h, false, wire, orders[0], tries).1, orders[1..], tries);
    }
  }

  /**
   Over any list of commands, repeated opcodes included, the poked lagging ROM gives the replies of a ROM
   that answers at once, after any backlog of SYNC replies the read loop tolerates.
   */
  lemma LaggingRomEqualsPromptRom<S(!new)>(h: Reaction<S>, syncs: nat, wire: Wire<LaggingRom<S>>,
                                           backlog: seq<seq<byte>>, orders: seq<Order>, tries: nat)
    requires AnswersCommands(h, syncs) && NoSync(orders) && Idle(wire.rx) && wire.line == EncodeAll(backlog)
    requires AllReplies(backlog, CMD_SYNC) && AllReplies(wire.device.held, CMD_SYNC)
    requires |backlog| + |wire.device.held| <= MAX_STALE_FRAMES && syncs <= MAX_STALE_FRAMES < tries
    ensures Converse(Lag(h), true, wire, orders, tries)
         == Converse(h, false, Wire(START, wire.device.core, []), orders, tries)
  {
    LaggingRunReturnsOwnReplies(h, syncs, wire, backlog, orders, tries);
    PromptRunReturnsOwnReplies(h, syncs, Wire(START, wire.device.core, []), orders, tries);
  }

  /**
   Without the poke the lagging ROM is misread: a command whose predecessor had the same opcode is given
   the predecessor's reply, and its own reply stays in the chip.
   */
  lemma UnpokedReplyIsThePreviousOne<S(!new)>(h: Reaction<S>, syncs: nat, wire: Wire<LaggingRom<S>>, o: Order,
                                              tries: nat)
    requires AnswersCommands(h, syncs) && o.opcode != CMD_SYNC && Idle(wire.rx) && wire.line == [] && tries > 0
    requires |wire.device.held| == 1 && IsReply(wire.device.held[0], o.opcode)
    ensures var (s, out) := h(wire.device.core, o.Packet());
            Exchange(Lag(h), false, wire, o, tries)
            == (AnswerIn(wire.device.held[0]), Wire(START, LaggingRom(s, out), []))
  {
    TransmitFrame(Lag(h), wire, o.Packet());
    var held := wire.device.held;
    assert held == [] + [held[0]] && wire.line + EncodeAll(held) == EncodeAll(held);
    AwaitBehindStale([], held[0], o.opcode, 0, tries);
  }

  // ------------------------------------------------------------ the connection

  /** `command` on a connection is one exchange over its whole unread stream, unless noise ends the stream. */
  method Exchanged<M(!new)>(c: Conn<M>, o: Order, polls: nat, tries: nat) returns (a: Answer)
    requires c.Valid() && polls >= |Ask(c.port.react, StateOf(c), o.Packet(), c.Pokes()).line|
    requires !Await(Ask(c.port.react, StateOf(c), o.Packet(), c.Pokes()).line, o.opcode, 0, tries).Noise?
    modifies c.port, c.reader
    ensures (a, StateOf(c)) == Exchange(c.port.react, c.Pokes(), old(StateOf(c)), o, tries)
  {
    AskBehind(c.port.react, c.port.State(), c.reader.leftover, o.Packet(), c.Pokes());
    a := c.Command(o.opcode, o.data, o.checksum, polls, tries, true);
  }

  /** No answer of the command handler is longer than this on the line. */
  ghost predicate AnswersWithin<S(!new)>(h: Reaction<S>, bound: nat) {
    forall s: S, p: seq<byte> :: |EncodeAll(h(s, p).1)| <= bound
  }

  /** A poked connection to a lagging ROM between two commands: only SYNC replies are on the line or held. */
  ghost predicate Ready<S(!new)>(wire: Wire<LaggingRom<S>>, backlog: seq<seq<byte>>, bound: nat, polls: nat) {
    && Idle(wire.rx) && wire.line == EncodeAll(backlog)
    && AllReplies(backlog, CMD_SYNC) && AllReplies(wire.device.held, CMD_SYNC)
    && |backlog| + |wire.device.held| <= MAX_STALE_FRAMES
    && polls >= |wire.line| + |EncodeAll(wire.device.held)| + bound
  }

  /** The command's reply is on the line, in time, once the poke is sent. */
  lemma ReplyComes<S(!new)>(h: Reaction<S>, syncs: nat, wire: Wire<LaggingRom<S>>, backlog: seq<seq<byte>>, o: Order,
                            bound: nat, polls: nat, tries: nat)
    requires AnswersCommands(h, syncs) && AnswersWithin(h, bound) && o.opcode != CMD_SYNC
    requires Ready(wire, backlog, bound, polls) && tries > MAX_STALE_FRAMES
    ensures var line := Ask(Lag(h), wire, o.Packet(), true).line;
            polls >= |line| && !Await(line, o.opcode, 0, tries).Noise?
  {
    var out := h(wire.device.core, o.Packet()).1;
    OwnReply(h, syncs, wire.device.core, o);
    LaggingStream(h, syncs, wire, backlog, o);
    AwaitBehindSyncs(backlog + wire.device.held, out[0], o.opcode, tries);
    EncodeAllAppend(backlog, wire.device.held);
    EncodeAllAppend(backlog + wire.device.held, out);
  }

  /** After one command the connection is ready for the next, with an empty line. */
  lemma ReadyAgain<S(!new)>(h: Reaction<S>, syncs: nat, wire: Wire<LaggingRom<S>>, backlog: seq<seq<byte>>, o: Order,
                            bound: nat, polls: nat, tries: nat)
    requires AnswersCommands(h, syncs) && AnswersWithin(h, bound) && o.opcode != CMD_SYNC
    requires Ready(wire, backlog, bound, polls) && syncs <= MAX_STALE_FRAMES < tries && polls >= 2 * bound
    ensures var (s, out) := h(wire.device.core, o.Packet());
            var (a, w) := Exchange(Lag(h), true, wire, o, tries);
            && |out| == 1 && IsReply(out[0], o.opcode) && a == AnswerIn(out[0])
            && w.device.core == s && Ready(w, [], bound, polls)
  {
    LaggingReply(h, syncs, wire, backlog, o, tries);
    LaggingRest(h, syncs, wire, backlog, o, tries);
    LaggingStream(h, syncs, wire, backlog, o);
    var w := Exchange(Lag(h), true, wire, o, tries).1;
    assert [] + w.device.held == w.device.held;
  }

  /** One command over a poked connection: its own reply, and a connection ready for the next command. */
  method OwnAnswer<S(!new)>(c: Conn<LaggingRom<S>>, o: Order, polls: nat, tries: nat, ghost h: Reaction<S>,
                            ghost syncs: nat, ghost bound: nat, ghost backlog: seq<seq<byte>>) returns (a: Answer)
    requires c.Valid() && c.Pokes() && c.port.react == Lag(h) && o.opcode != CMD_SYNC
    requires AnswersCommands(h, syncs) && AnswersWithin(h, bound)
    requires Ready(StateOf(c), backlog, bound, polls) && syncs <= MAX_STALE_FRAMES < tries && polls >= 2 * bound
    modifies c.port, c.reader
    ensures Ready(StateOf(c), [], bound, polls)
    ensures var (s, out) := h(old(c.port.device.core), o.Packet());
            |out| == 1 && IsReply(out[0], o.opcode) && a == AnswerIn(out[0]) && c.port.device.core == s
    ensures (a, StateOf(c)) == Exchange(Lag(h), true, old(StateOf(c)), o, tries)
  {
    ReplyComes(h, syncs, StateOf(c), backlog, o, bound, polls, tries);
    ReadyAgain(h, syncs, StateOf(c), backlog, o, bound, polls, tries);
    a := Exchanged(c, o, polls, tries);
  }

  /**
   A list of commands sent one after the other over a poked connection: each call returns its own command's reply,
   as the conversation of the whole streams says.
   */
  method Converses<S(!new)>(c: Conn<LaggingRom<S>>, orders: seq<Order>, polls: nat, tries: nat, ghost h: Reaction<S>,
                            ghost syncs: nat, ghost bound: nat, ghost backlog: seq<seq<byte>>)
    returns (answers: seq<Answer>)
    requires c.Valid() && c.Pokes() && c.port.react == Lag(h) && NoSync(orders)
    requires AnswersCommands(h, syncs) && AnswersWithin(h, bound)
    requires Ready(StateOf(c), backlog, bound, polls) && syncs <= MAX_STALE_FRAMES < tries && polls >= 2 * bound
    modifies c.port, c.reader
    ensures answers == OwnReplies(h, syncs, old(c.port.device.core), orders)
    ensures answers == Converse(Lag(h), true, old(StateOf(c)), orders, tries)
    ensures orders != [] ==> c.reader.Stream() == []
  {
    LaggingRunReturnsOwnReplies(h, syncs, StateOf(c), backlog, orders, tries);
    ghost var all, left := OwnReplies(h, syncs, c.port.device.core, orders), backlog;
    answers := [];
    for k := 0 to |orders|
      invariant Ready(StateOf(c), left, bound, polls) && (k > 0 ==> left == [])
      invariant answers + OwnReplies(h, syncs, c.port.device.core, orders[k..]) == all
    {
      OneReplyFewer(h, syncs, c.port.device.core, orders, k);
      ghost var rest := OwnReplies(h, syncs, c.port.device.core, orders[k..]);
      var a := OwnAnswer(c, orders[k], polls, tries, h, syncs, bound, left);
      Regrouped(answers, [a], rest[1..]);
      answers, left := answers + [a], [];
    }
  }

  lemma OneReplyFewer<S(!new)>(h: Reaction<S>, syncs: nat, s: S, orders: seq<Order>, k: nat)
    requires AnswersCommands(h, syncs) && NoSync(orders) && k < |orders|
    ensures var (s', out) := h(s, orders[k].Packet());
            && |out| == 1 && IsReply(out[0], orders[k].opcode)
            && OwnReplies(h, syncs, s, orders[k..]) == [AnswerIn(out[0])] + OwnReplies(h, syncs, s', orders[k + 1..])
  {
    OwnReply(h, syncs, s, orders[k]);
    assert orders[k..][0] == orders[k] && orders[k..][1..] == orders[k + 1..];
  }
}
