/**
 Whose acknowledgement is it? Replies are matched by opcode only (internal/espflash/protocol.go), and a block of
 flash data that is not acknowledged in time is sent again (internal/espflash/flasher.go). A reply that comes after
 its attempt has ended is then taken for the reply to a later block.
 */
module LateReplies {
  import opened Wrappers
  import opened Bytes
  import opened Blocks
  import opened Slip
  import opened Command

  const CMD_FLASH_DATA: byte := 0x03

  /** A reply, and the block it answers. */
  datatype Ack = Ack(frame: seq<byte>, block: nat)

  predicate Proper(a: Ack) { IsReply(a.frame, CMD_FLASH_DATA) }

  /** The status of the reply lets the command succeed. */
  predicate Accepting(a: Ack) {
    Proper(a) && CheckReply(Reply(GetU32Le(a.frame[4..8]), a.frame[8..]), 0).Accepted?
  }

  function Frames(acks: seq<Ack>): seq<seq<byte>> {
    seq(|acks|, i requires 0 <= i < |acks| => acks[i].frame)
  }

  /** Replies on the line and not read, replies the chip will still send, and the blocks the chip has received. */
  datatype Link = Link(arrived: seq<Ack>, pending: seq<Ack>, received: set<nat>) {
    function Outstanding(): seq<Ack> { arrived + pending }
  }

  /** What becomes of one send: what the chip replies if it gets the block, and how many replies arrive in time. */
  datatype Fate = Lost(inTime: nat) | Processed(reply: Option<seq<byte>>, inTime: nat)

  function Replies(f: Fate, block: nat): seq<Ack> {
    if f.Processed? && f.reply.Some? then [Ack(f.reply.value, block)] else []
  }

  /** The link at the end of the wait that follows a send. */
  function Waited(l: Link, block: nat, f: Fate): Link {
    var pending := l.pending + Replies(f, block);
    var n := Smaller(f.inTime, |pending|);
    Link(l.arrived + pending[..n], pending[n..], if f.Processed? then l.received + {block} else l.received)
  }

  /**
   One attempt at a block: the link afterwards, and the reply that was taken for the block's, if it lets the command
   succeed. After any other outcome the input is flushed.
   */
  function Attempt(l: Link, block: nat, f: Fate, tries: nat): (Link, Option<Ack>) {
    var w := Waited(l, block, f);
    match Await(EncodeAll(Frames(w.arrived)), CMD_FLASH_DATA, 0, tries)
    case Answered(value, data, rest) =>
      if w.arrived != [] && CheckReply(Reply(value, data), 0).Accepted? then
        (w.(arrived := w.arrived[1..]), Some(w.arrived[0]))
      else (w.(arrived := []), None)
    case _ => (w.(arrived := []), None)
  }

  /** The attempts at one block, up to the first that succeeds. */
  function Attempts(l: Link, block: nat, fates: seq<Fate>, tries: nat): (Link, Option<Ack>)
    decreases |fates|
  {
    if fates == [] then (l, None)
    else
      var (l', ack) := Attempt(l, block, fates[0], tries);
      if ack.Some? then (l', ack) else Attempts(l', block, fates[1..], tries)
  }

  /** The blocks from `first` on, each with its attempts, up to the first that fails; what was taken for each. */
  function AllAcks(l: Link, first: nat, plans: seq<seq<Fate>>, tries: nat): (Link, seq<Ack>)
    decreases |plans|
  {
    if plans == [] then (l, [])
    else
      var (l', ack) := Attempts(l, first, plans[0], tries);
      if ack.None? then (l', [])
      else
        var (end, acks) := AllAcks(l', first + 1, plans[1..], tries);
        (end, [ack.value] + acks)
  }

  class Sender {
    var link: Link
    const tries: nat

    constructor (link: Link, tries: nat)
      ensures this.link == link && this.tries == tries
    {
      this.link, this.tries := link, tries;
    }

    method SendBlock(block: nat, fates: seq<Fate>) returns (ack: Option<Ack>)
      requires |fates| == BLOCK_ATTEMPTS
      modifies this
      ensures (link, ack) == Attempts(old(link), block, fates, tries)
    {
      ack := None;
      var attempt := 0;
      assert fates[0..] == fates;
      while attempt < BLOCK_ATTEMPTS && ack.None?
        invariant attempt <= BLOCK_ATTEMPTS
        invariant Attempts(old(link), block, fates, tries)
               == if ack.Some? then (link, ack) else Attempts(link, block, fates[attempt..], tries)
        decreases BLOCK_ATTEMPTS - attempt
      {
        assert fates[attempt..][0] == fates[attempt] && fates[attempt..][1..] == fates[attempt + 1..];
        var (after, taken) := Attempt(link, block, fates[attempt], tries);
        link, ack := after, taken;
        attempt := attempt + 1;
      }
      assert ack.None? ==> fates[attempt..] == [];
    }

    /** Block after block, until one is given up. */
    method SendBlocks(plans: seq<seq<Fate>>) returns (acks: seq<Ack>)
      requires forall p :: p in plans ==> |p| == BLOCK_ATTEMPTS
      modifies this
      ensures (link, acks) == AllAcks(old(link), 0, plans, tries)
    {
      acks := [];
      assert plans[0..] == plans;
      assert [] + AllAcks(link, 0, plans, tries).1 == AllAcks(link, 0, plans, tries).1;
      for k := 0 to |plans|
        invariant AllAcks(old(link), 0, plans, tries) == After(acks, AllAcks(link, k, plans[k..], tries))
      {
        OneMoreAck(acks, link, k, plans, tries);
        var ack := SendBlock(k, plans[k]);
        if ack.None? {
          return;
        }
        acks := acks + [ack.value];
      }
      assert plans[|plans|..] == [] && acks + [] == acks;
    }
  }

  function After(acks: seq<Ack>, rest: (Link, seq<Ack>)): (Link, seq<Ack>) {
    (rest.0, acks + rest.1)
  }

  lemma OneMoreAck(acks: seq<Ack>, l: Link, k: nat, plans: seq<seq<Fate>>, tries: nat)
    requires k < |plans|
    ensures var (l', ack) := Attempts(l, k, plans[k], tries);
            After(acks, AllAcks(l, k, plans[k..], tries))
            == if ack.None? then (l', acks)
               else After(acks + [ack.value], AllAcks(l', k + 1, plans[k + 1..], tries))
  {
    var (l', ack) := Attempts(l, k, plans[k], tries);
    assert plans[k..][0] == plans[k] && plans[k..][1..] == plans[k + 1..];
    if ack.Some? {
      Regrouped(acks, [ack.value], AllAcks(l', k + 1, plans[k + 1..], tries).1);
    } else {
      assert acks + [] == acks;
    }
  }

  // One attempt.

  ghost predicate AllProper(acks: seq<Ack>) {
    forall a :: a in acks ==> Proper(a)
  }

  ghost predicate AllAccepting(acks: seq<Ack>) {
    forall a :: a in acks ==> Accepting(a)
  }

  predicate ProperFate(f: Fate) { f.Processed? && f.reply.Some? ==> IsReply(f.reply.value, CMD_FLASH_DATA) }

  predicate AcceptingFate(f: Fate) { f.Processed? && f.reply.Some? ==> Accepting(Ack(f.reply.value, 0)) }

  ghost predicate ProperFates(fates: seq<Fate>) {
    forall f :: f in fates ==> ProperFate(f)
  }

  ghost predicate AcceptingFates(fates: seq<Fate>) {
    forall f :: f in fates ==> AcceptingFate(f)
  }

  lemma AcceptingReplies(f: Fate, block: nat)
    requires AcceptingFate(f)
    ensures ProperFate(f) && AllAccepting(Replies(f, block))
  {
  }

  lemma {:induction false} NothingToAwait(stale: nat, tries: nat)
    ensures Await([], CMD_FLASH_DATA, stale, tries).GaveUp?
    decreases tries
  {
    if tries > 0 && stale < MAX_STALE_FRAMES {
      NothingToAwait(stale + 1, tries - 1);
    }
  }

  /** Every reply has the opcode that is awaited, so the first one on the line is taken. */
  lemma FirstIsAwaited(acks: seq<Ack>, tries: nat)
    requires acks != [] && Proper(acks[0]) && tries > 0
    ensures Await(EncodeAll(Frames(acks)), CMD_FLASH_DATA, 0, tries)
         == Answered(GetU32Le(acks[0].frame[4..8]), acks[0].frame[8..], EncodeAll(Frames(acks[1..])))
  {
    assert Frames(acks)[0] == acks[0].frame && Frames(acks)[1..] == Frames(acks[1..]);
    FeedFrame(START, acks[0].frame, EncodeAll(Frames(acks[1..])));
  }

  lemma WaitedKeeps(l: Link, block: nat, f: Fate)
    ensures Waited(l, block, f).Outstanding() == l.Outstanding() + Replies(f, block)
  {
    var pending := l.pending + Replies(f, block);
    var n := Smaller(f.inTime, |pending|);
    assert pending[..n] + pending[n..] == pending;
  }

  /** The attempt in terms of replies instead of bytes. */
  lemma AttemptTakesFirst(l: Link, block: nat, f: Fate, tries: nat)
    requires AllProper(l.Outstanding()) && ProperFate(f) && tries > 0
    ensures var w := Waited(l, block, f);
            Attempt(l, block, f, tries)
            == if w.arrived == [] then (w, None)
               else if Accepting(w.arrived[0]) then (w.(arrived := w.arrived[1..]), Some(w.arrived[0]))
               else (w.(arrived := []), None)
  {
    var w := Waited(l, block, f);
    WaitedKeeps(l, block, f);
    if w.arrived == [] {
      assert Frames(w.arrived) == [];
      NothingToAwait(0, tries);
    } else {
      assert w.arrived[0] in w.Outstanding();
      FirstIsAwaited(w.arrived, tries);
    }
  }

  /** The replies outstanding after an attempt, and the one that was taken, were outstanding or are the block's own. */
  lemma AttemptOutstanding(l: Link, block: nat, f: Fate, tries: nat)
    requires AllProper(l.Outstanding()) && ProperFate(f) && tries > 0
    ensures var (l', ack) := Attempt(l, block, f, tries);
            var all := l.Outstanding() + Replies(f, block);
            && (forall a :: a in l'.Outstanding() ==> a in all) && (ack.Some? ==> all != [] && ack.value == all[0])
            && (AllAccepting(all) ==> l'.Outstanding() == if ack.Some? then all[1..] else all)
            && l.received <= l'.received && (f.Processed? ==> block in l'.received)
  {
    var w := Waited(l, block, f);
    WaitedKeeps(l, block, f);
    AttemptTakesFirst(l, block, f, tries);
    if w.arrived != [] {
      assert w.arrived[0] == w.Outstanding()[0] && w.arrived[0] in w.Outstanding();
      assert w.(arrived := w.arrived[1..]).Outstanding() == w.Outstanding()[1..];
      assert w.(arrived := []).Outstanding() == w.pending;
    }
  }

  /** With accepting replies only, an attempt takes the first reply outstanding, or none comes. */
  lemma AcceptingAttempt(l: Link, block: nat, f: Fate, tries: nat)
    requires AllAccepting(l.Outstanding()) && AcceptingFate(f) && tries > 0
    ensures var (l', ack) := Attempt(l, block, f, tries);
            var all := l.Outstanding() + Replies(f, block);
            && AllAccepting(l'.Outstanding()) && l'.Outstanding() == (if ack.Some? then all[1..] else all)
            && (ack.Some? ==> all != [] && ack.value == all[0])
  {
    AcceptingReplies(f, block);
    AttemptOutstanding(l, block, f, tries);
  }

  // The attempts at one block.

  /** Every outstanding reply is to a block that has been received, this one or an earlier one. */
  ghost predicate Known(l: Link, block: nat) {
    forall a :: a in l.Outstanding() ==> Proper(a) && a.block in l.received && a.block <= block
  }

  lemma AttemptKnown(l: Link, block: nat, f: Fate, tries: nat)
    requires Known(l, block) && ProperFate(f) && tries > 0
    ensures var (l', ack) := Attempt(l, block, f, tries);
            Known(l', block) && l.received <= l'.received && (ack.Some? ==> ack.value.block in l'.received)
  {
    AttemptOutstanding(l, block, f, tries);
  }

  lemma {:induction false} AttemptsKnown(l: Link, block: nat, fates: seq<Fate>, tries: nat)
    requires Known(l, block) && ProperFates(fates) && tries > 0
    ensures var (l', ack) := Attempts(l, block, fates, tries);
            Known(l', block) && l.received <= l'.received && (ack.Some? ==> ack.value.block in l'.received)
    decreases |fates|
  {
    if fates != [] {
      AttemptKnown(l, block, fates[0], tries);
      AttemptsKnown(Attempt(l, block, fates[0], tries).0, block, fates[1..], tries);
    }
  }

  ghost predicate OnlyOf(acks: seq<Ack>, block: nat) {
    forall a :: a in acks ==> Proper(a) && a.block == block
  }

  /** With no reply to an earlier block outstanding, the reply that is taken is the block's own, resends or not. */
  lemma {:induction false} OwnWhenNoneIsLate(l: Link, block: nat, fates: seq<Fate>, tries: nat)
    requires OnlyOf(l.Outstanding(), block) && ProperFates(fates) && tries > 0
    ensures var ack := Attempts(l, block, fates, tries).1; ack.Some? ==> ack.value.block == block
    decreases |fates|
  {
    if fates != [] {
      AttemptOutstanding(l, block, fates[0], tries);
      OwnWhenNoneIsLate(Attempt(l, block, fates[0], tries).0, block, fates[1..], tries);
    }
  }

  /** A late reply that the chip sent for an earlier block is taken first. */
  lemma {:induction false} LateIsTakenFirst(l: Link, block: nat, fates: seq<Fate>, tries: nat)
    requires l.Outstanding() != [] && AllAccepting(l.Outstanding()) && AcceptingFates(fates) && tries > 0
    ensures var ack := Attempts(l, block, fates, tries).1; ack.Some? ==> ack.value == l.Outstanding()[0]
    decreases |fates|
  {
    if fates != [] {
      AcceptingAttempt(l, block, fates[0], tries);
      var (l', ack) := Attempt(l, block, fates[0], tries);
      if ack.None? {
        LateIsTakenFirst(l', block, fates[1..], tries);
      }
    }
  }

  lemma {:induction false} StillAccepting(l: Link, block: nat, fates: seq<Fate>, tries: nat)
    requires AllAccepting(l.Outstanding()) && AcceptingFates(fates) && tries > 0
    ensures AllAccepting(Attempts(l, block, fates, tries).0.Outstanding())
    decreases |fates|
  {
    if fates != [] {
      AcceptingAttempt(l, block, fates[0], tries);
      StillAccepting(Attempt(l, block, fates[0], tries).0, block, fates[1..], tries);
    }
  }

  /** The acknowledgement that ends the attempts at a block is its own exactly when no earlier reply is outstanding. */
  lemma AckIsOwnIff(l: Link, block: nat, fates: seq<Fate>, tries: nat)
    requires AllAccepting(l.Outstanding()) && AcceptingFates(fates) && tries > 0
    requires forall a :: a in l.Outstanding() ==> a.block < block
    ensures var ack := Attempts(l, block, fates, tries).1;
            ack.Some? ==> (ack.value.block == block <==> l.Outstanding() == [])
  {
    if l.Outstanding() == [] {
      OwnWhenNoneIsLate(l, block, fates, tries);
    } else {
      LateIsTakenFirst(l, block, fates, tries);
      assert l.Outstanding()[0] in l.Outstanding();
    }
  }

  // The block loop.

  ghost predicate Own(acks: seq<Ack>, first: nat) {
    forall k :: 0 <= k < |acks| ==> acks[k].block == first + k
  }

  /** No reply is outstanding when the attempts at a block begin that is then acknowledged. */
  predicate NoneIsLate(l: Link, first: nat, plans: seq<seq<Fate>>, tries: nat)
    decreases |plans|
  {
    plans == [] ||
    var (l', ack) := Attempts(l, first, plans[0], tries);
    ack.Some? ==> l.Outstanding() == [] && NoneIsLate(l', first + 1, plans[1..], tries)
  }

  ghost predicate AcceptingPlans(plans: seq<seq<Fate>>) {
    forall p :: p in plans ==> AcceptingFates(p)
  }

  ghost predicate ProperPlans(plans: seq<seq<Fate>>) {
    forall p :: p in plans ==> ProperFates(p)
  }

  /** Every acknowledgement of the loop belongs to its own block exactly when no reply is late. */
  lemma {:induction false} AcksAreOwnIff(l: Link, first: nat, plans: seq<seq<Fate>>, tries: nat)
    requires Known(l, first) && AllAccepting(l.Outstanding()) && AcceptingPlans(plans) && tries > 0
    requires forall a :: a in l.Outstanding() ==> a.block < first
    ensures Own(AllAcks(l, first, plans, tries).1, first) <==> NoneIsLate(l, first, plans, tries)
    decreases |plans|
  {
    if plans != [] {
      var (l', ack) := Attempts(l, first, plans[0], tries);
      AckIsOwnIff(l, first, plans[0], tries);
      AttemptsKnown(l, first, plans[0], tries);
      StillAccepting(l, first, plans[0], tries);
      if ack.Some? {
        AcksAreOwnIff(l', first + 1, plans[1..], tries);
        OwnApart(ack.value, AllAcks(l', first + 1, plans[1..], tries).1, first);
      }
    }
  }

  lemma OwnApart(ack: Ack, acks: seq<Ack>, first: nat)
    ensures Own([ack] + acks, first) <==> ack.block == first && Own(acks, first + 1)
  {
    if Own([ack] + acks, first) {
      assert ([ack] + acks)[0] == ack;
      forall k | 0 <= k < |acks|
        ensures acks[k].block == first + 1 + k
      {
        assert ([ack] + acks)[k + 1] == acks[k];
      }
    }
    if ack.block == first && Own(acks, first + 1) {
      forall k | 0 <= k < |[ack] + acks|
        ensures ([ack] + acks)[k].block == first + k
      {
        assert k > 0 ==> ([ack] + acks)[k] == acks[k - 1];
      }
    }
  }

  /** Whatever is acknowledged for a block is the reply to a block that the chip has received. */
  lemma {:induction false} AcksWereReceived(l: Link, first: nat, plans: seq<seq<Fate>>, tries: nat)
    requires Known(l, first) && ProperPlans(plans) && tries > 0
    ensures var (end, acks) := AllAcks(l, first, plans, tries);
            l.received <= end.received && forall a :: a in acks ==> a.block in end.received
    decreases |plans|
  {
    if plans != [] {
      var (l', ack) := Attempts(l, first, plans[0], tries);
      AttemptsKnown(l, first, plans[0], tries);
      if ack.Some? {
        AcksWereReceived(l', first + 1, plans[1..], tries);
      }
    }
  }

  /** So a loop without late replies that acknowledges all blocks has got all of them to the chip. */
  lemma AllReceived(l: Link, first: nat, plans: seq<seq<Fate>>, tries: nat)
    requires Known(l, first) && AllAccepting(l.Outstanding()) && AcceptingPlans(plans) && tries > 0
    requires l.Outstanding() == [] && NoneIsLate(l, first, plans, tries)
    ensures var (end, acks) := AllAcks(l, first, plans, tries);
            forall k :: 0 <= k < |acks| ==> acks[k].block == first + k && acks[k].block in end.received
  {
    AcksAreOwnIff(l, first, plans, tries);
    AcceptingIsProper(plans);
    AcksWereReceived(l, first, plans, tries);
  }

  lemma AcceptingIsProper(plans: seq<seq<Fate>>)
    requires AcceptingPlans(plans)
    ensures ProperPlans(plans)
  {
    forall p, f | p in plans && f in p
      ensures ProperFate(f)
    {
      AcceptingReplies(f, 0);
    }
  }

  // When no reply is late.

  ghost predicate Prompt(fates: seq<Fate>) {
    forall f :: f in fates ==> ProperFate(f) && f.inTime > 0
  }

  /** A chip that replies before the wait ends or not at all leaves nothing outstanding. */
  lemma {:induction false} PromptLeavesNothing(l: Link, block: nat, fates: seq<Fate>, tries: nat)
    requires l.Outstanding() == [] && Prompt(fates) && tries > 0
    ensures Attempts(l, block, fates, tries).0.Outstanding() == []
    decreases |fates|
  {
    if fates != [] {
      AttemptTakesFirst(l, block, fates[0], tries);
      var w := Waited(l, block, fates[0]);
      assert l.arrived == [] && l.pending == [] && w.pending == [] && w.arrived == Replies(fates[0], block);
      PromptLeavesNothing(Attempt(l, block, fates[0], tries).0, block, fates[1..], tries);
    }
  }

  lemma {:induction false} PromptRepliesAreNotLate(l: Link, first: nat, plans: seq<seq<Fate>>, tries: nat)
    requires l.Outstanding() == [] && (forall p :: p in plans ==> Prompt(p)) && tries > 0
    ensures NoneIsLate(l, first, plans, tries)
    decreases |plans|
  {
    if plans != [] {
      PromptLeavesNothing(l, first, plans[0], tries);
      PromptRepliesAreNotLate(Attempts(l, first, plans[0], tries).0, first + 1, plans[1..], tries);
    }
  }

  /** The first attempt at each block succeeds. */
  predicate NoResend(l: Link, first: nat, plans: seq<seq<Fate>>, tries: nat)
    decreases |plans|
  {
    plans == [] ||
    (plans[0] != [] &&
     var (l', ack) := Attempt(l, first, plans[0][0], tries);
     ack.Some? && NoResend(l', first + 1, plans[1..], tries))
  }

  /** Without a resend no reply is late. */
  lemma {:induction false} FirstAttemptsAreNotLate(l: Link, first: nat, plans: seq<seq<Fate>>, tries: nat)
    requires l.Outstanding() == [] && AcceptingPlans(plans) && tries > 0 && NoResend(l, first, plans, tries)
    ensures NoneIsLate(l, first, plans, tries)
    decreases |plans|
  {
    if plans != [] {
      var f := plans[0][0];
      assert f in plans[0] && plans[0] in plans;
      AttemptOutstanding(l, first, f, tries);
      FirstAttemptsAreNotLate(Attempt(l, first, f, tries).0, first + 1, plans[1..], tries);
    }
  }

  // What a status does.

  /** Exactly a reply whose first status byte is zero lets the command succeed. */
  lemma AcceptingIff(a: Ack)
    ensures Accepting(a) <==> Proper(a) && |a.frame| >= 10 && a.frame[8] == 0
  {
    if Proper(a) {
      ReplyDecides(a.frame, 0);
    }
  }

  lemma {:induction false} AckAccepts(l: Link, block: nat, fates: seq<Fate>, tries: nat)
    requires Known(l, block) && ProperFates(fates) && tries > 0
    ensures var ack := Attempts(l, block, fates, tries).1;
            ack.Some? ==> |ack.value.frame| >= 10 && ack.value.frame[8] == 0
    decreases |fates|
  {
    if fates != [] {
      AttemptTakesFirst(l, block, fates[0], tries);
      AttemptKnown(l, block, fates[0], tries);
      var (l', ack) := Attempt(l, block, fates[0], tries);
      if ack.Some? {
        AcceptingIff(ack.value);
      }
      AckAccepts(l', block, fates[1..], tries);
    }
  }

  /** A reply with another status acknowledges no block of the loop. */
  lemma {:induction false} RefusalsDoNotAcknowledge(l: Link, first: nat, plans: seq<seq<Fate>>, tries: nat)
    requires Known(l, first) && ProperPlans(plans) && tries > 0
    ensures forall a :: a in AllAcks(l, first, plans, tries).1 ==> |a.frame| >= 10 && a.frame[8] == 0
    decreases |plans|
  {
    if plans != [] {
      var (l', ack) := Attempts(l, first, plans[0], tries);
      AttemptsKnown(l, first, plans[0], tries);
      AckAccepts(l, first, plans[0], tries);
      if ack.Some? {
        RefusalsDoNotAcknowledge(l', first + 1, plans[1..], tries);
      }
    }
  }

  // A late reply.

  lemma AttemptsFrom(l: Link, block: nat, f: Fate, rest: seq<Fate>, tries: nat)
    ensures var (l', ack) := Attempt(l, block, f, tries);
            Attempts(l, block, [f] + rest, tries) == if ack.Some? then (l', ack) else Attempts(l', block, rest, tries)
  {
    assert ([f] + rest)[1..] == rest;
  }

  lemma OneBlock(l: Link, block: nat, plan: seq<Fate>, rest: seq<seq<Fate>>, tries: nat)
    requires Attempts(l, block, plan, tries).1.Some?
    ensures var (l', ack) := Attempts(l, block, plan, tries);
            var (end, acks) := AllAcks(l', block + 1, rest, tries);
            AllAcks(l, block, [plan] + rest, tries) == (end, [ack.value] + acks)
  {
    assert ([plan] + rest)[1..] == rest;
  }

  /** The reply of the only block received so far is taken for whatever is sent next. */
  lemma OneReplyTaken(l: Link, a: Ack, block: nat, f: Fate, tries: nat)
    requires l == Link([], [a], {0}) && Accepting(a) && ProperFate(f) && f.inTime == 1 && tries > 0
    ensures Attempt(l, block, f, tries)
         == (Link([], Replies(f, block), if f.Processed? then {0} + {block} else {0}), Some(a))
  {
    assert Waited(l, block, f).pending == Replies(f, block) && Waited(l, block, f).arrived == [a] by {
      assert ([a] + Replies(f, block))[..1] == [a] && ([a] + Replies(f, block))[1..] == Replies(f, block);
    }
    forall x | x in l.Outstanding()
      ensures Proper(x)
    {
      assert x == a;
    }
    AttemptTakesFirst(l, block, f, tries);
    assert [a][1..] == [];
  }

  lemma LateReply(reply: seq<byte>, tries: nat)
    requires Accepting(Ack(reply, 0)) && tries > 0
    ensures Attempt(Link([], [], {}), 0, Processed(Some(reply), 0), tries) == (Link([], [Ack(reply, 0)], {0}), None)
  {
    var l, f := Link([], [], {}), Processed(Some(reply), 0);
    assert Waited(l, 0, f) == Link([], [Ack(reply, 0)], {0});
    AttemptTakesFirst(l, 0, f, tries);
  }

  /**
   One resend is enough: block 0 is answered late, and its second reply is taken for block 1, which never reached
   the chip.
   */
  lemma LateReplyHidesALoss(reply: seq<byte>, tries: nat)
    requires Accepting(Ack(reply, 0)) && tries > 0
    ensures var plans := [[Processed(Some(reply), 0), Processed(Some(reply), 1)], [Lost(1)]];
            var (end, acks) := AllAcks(Link([], [], {}), 0, plans, tries);
            acks == [Ack(reply, 0), Ack(reply, 0)] && end.received == {0}
  {
    var resent, lost := [Processed(Some(reply), 0), Processed(Some(reply), 1)], [Lost(1)];
    var l1 := Link([], [Ack(reply, 0)], {0});
    ResentBlock(reply, tries);
    LostBlock(reply, tries);
    OneBlock(l1, 1, lost, [], tries);
    OneBlock(Link([], [], {}), 0, resent, [lost], tries);
    assert [lost] + [] == [lost] && [resent] + [lost] == [resent, lost];
  }

  lemma ResentBlock(reply: seq<byte>, tries: nat)
    requires Accepting(Ack(reply, 0)) && tries > 0
    ensures Attempts(Link([], [], {}), 0, [Processed(Some(reply), 0), Processed(Some(reply), 1)], tries)
         == (Link([], [Ack(reply, 0)], {0}), Some(Ack(reply, 0)))
  {
    var late, again, l := Processed(Some(reply), 0), Processed(Some(reply), 1), Link([], [Ack(reply, 0)], {0});
    LateReply(reply, tries);
    OneReplyTaken(l, Ack(reply, 0), 0, again, tries);
    AttemptsFrom(l, 0, again, [], tries);
    AttemptsFrom(Link([], [], {}), 0, late, [again], tries);
    assert [again] + [] == [again] && [late] + [again] == [late, again] && {0} + {0} == {0};
  }

  lemma LostBlock(reply: seq<byte>, tries: nat)
    requires Accepting(Ack(reply, 0)) && tries > 0
    ensures Attempts(Link([], [Ack(reply, 0)], {0}), 1, [Lost(1)], tries) == (Link([], [], {0}), Some(Ack(reply, 0)))
  {
    OneReplyTaken(Link([], [Ack(reply, 0)], {0}), Ack(reply, 0), 1, Lost(1), tries);
    AttemptsFrom(Link([], [Ack(reply, 0)], {0}), 1, Lost(1), [], tries);
    assert [Lost(1)] + [] == [Lost(1)];
  }
}
