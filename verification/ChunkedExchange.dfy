/**
  Particle exchange between neighbouring ranks in chunks of bounded size. In every direction the sender empties its
  guard cells chunk by chunk and stops after the first chunk that is not full; the receiver draws the same conclusion
  from the size of what arrives. Gaps are filled when every direction has been received.
 */
module ChunkedExchange {
  import opened Arith

  type Particles = multiset<int>

  /** A chunk on its way: the particles, and the number of entries in its index of source supercells. */
  datatype Message = Message(payload: Particles, indexEntries: nat)

  /** One direction: what the sender has left, what is in flight, and what the receiver has inserted. */
  datatype Direction = Direction(guard: Particles, channel: seq<Message>, sent: nat, sendDone: bool,
                                 inserted: Particles, received: nat, receiveDone: bool)

  /** The particles in the guard at the start, and the room in the exchange buffers, equal on both sides. */
  datatype Plan = Plan(initial: Particles, max: nat)

  // ----- one direction -----

  function Start(p: Plan): Direction {
    Direction(p.initial, [], 0, false, multiset{}, 0, false)
  }

  /** copyGuardToExchange moves as many guard particles as fit, in no particular order. */
  predicate CanSend(p: Plan, d: Direction, m: Message) {
    && !d.sendDone && m.payload <= d.guard && |m.payload| == Min(|d.guard|, p.max)
    && (m.indexEntries == 0 <==> m.payload == multiset{})
  }

  function Sent(p: Plan, d: Direction, m: Message): Direction {
    d.(guard := d.guard - m.payload, channel := d.channel + [m], sent := d.sent + 1, sendDone := |m.payload| != p.max)
  }

  predicate CanReceive(d: Direction) {
    !d.receiveDone && d.channel != []
  }

  /** Insertion is launched only when there are index entries. */
  function Received(p: Plan, d: Direction): Direction
    requires CanReceive(d)
  {
    var m := d.channel[0];
    d.(inserted := if m.indexEntries == 0 then d.inserted else d.inserted + m.payload,
       channel := d.channel[1..], received := d.received + 1,
       receiveDone := |m.payload| == 0 || |m.payload| < p.max)
  }

  /** How many chunks it takes: the full ones and a last one that is short or empty. */
  function Rounds(p: Plan): nat
    requires p.max > 0
  {
    |p.initial| / p.max + 1
  }

  /** The size of the r-th chunk. */
  function ChunkSize(p: Plan, r: nat): nat
    requires p.max > 0
  {
    if r + 1 < Rounds(p) then p.max else |p.initial| % p.max
  }

  function InFlight(channel: seq<Message>): Particles {
    if channel == [] then multiset{} else InFlight(channel[..|channel| - 1]) + channel[|channel| - 1].payload
  }

  /** Every chunk in flight has the size that belongs to its turn. */
  predicate ChunkOk(p: Plan, d: Direction, k: nat)
    requires p.max > 0 && k < |d.channel|
  {
    && |d.channel[k].payload| == ChunkSize(p, d.received + k)
    && (d.channel[k].indexEntries == 0 <==> d.channel[k].payload == multiset{})
  }

  ghost predicate SenderInv(p: Plan, d: Direction)
    requires p.max > 0
  {
    && d.sent <= Rounds(p)
    && (d.sendDone <==> d.sent == Rounds(p))
    && (if d.sendDone then d.guard == multiset{} else |d.guard| + d.sent * p.max == |p.initial|)
  }

  ghost predicate DirectionInv(p: Plan, d: Direction)
    requires p.max > 0
  {
    && SenderInv(p, d)
    && d.received <= d.sent && |d.channel| == d.sent - d.received
    && (d.receiveDone <==> d.received == Rounds(p))
    && (forall k :: 0 <= k < |d.channel| ==> ChunkOk(p, d, k))
    && d.guard + InFlight(d.channel) + d.inserted == p.initial
  }

  lemma StartInv(p: Plan)
    requires p.max > 0
    ensures DirectionInv(p, Start(p))
  {
  }

  /** While the sender is not done, the size of its next chunk follows from the number sent. */
  lemma NextChunk(n: nat, max: nat, sent: nat, left: nat)
    requires max > 0 && left + sent * max == n
    ensures left < max ==> n / max == sent && n % max == left
    ensures left >= max ==> sent < n / max && (left - max) + (sent + 1) * max == n
  {
    if left < max {
      QuotientIs(n, max, sent, left);
    } else {
      assert (sent + 1) * max == sent * max + max;
      var q, r := n / max, n % max;
      assert n == q * max + r;
      if q <= sent {
        ProductGrows(q, sent, max);
      }
    }
  }

  lemma SendKeepsInv(p: Plan, d: Direction, m: Message)
    requires p.max > 0 && DirectionInv(p, d) && CanSend(p, d, m)
    ensures DirectionInv(p, Sent(p, d, m))
  {
    var e := Sent(p, d, m);
    NextChunk(|p.initial|, p.max, d.sent, |d.guard|);
    assert |d.guard - m.payload| == |d.guard| - |m.payload|;
    assert e.channel[..|e.channel| - 1] == d.channel;
    assert d.guard == (d.guard - m.payload) + m.payload;
    forall k | 0 <= k < |e.channel|
      ensures ChunkOk(p, e, k)
    {
      if k < |d.channel| {
        assert ChunkOk(p, d, k);
      }
    }
  }

  lemma {:induction false} InFlightFirst(channel: seq<Message>)
    requires channel != []
    ensures InFlight(channel) == channel[0].payload + InFlight(channel[1..])
    decreases |channel|
  {
    var n := |channel| - 1;
    if n > 0 {
      InFlightFirst(channel[..n]);
      assert channel[..n][1..] == channel[1..][..n - 1];
    } else {
      assert InFlight(channel[..0]) == multiset{};
      assert InFlight(channel[1..]) == multiset{};
    }
  }

  lemma ReceiveKeepsInv(p: Plan, d: Direction)
    requires p.max > 0 && DirectionInv(p, d) && CanReceive(d)
    ensures DirectionInv(p, Received(p, d))
  {
    var e := Received(p, d);
    assert ChunkOk(p, d, 0);
    InFlightFirst(d.channel);
    forall k | 0 <= k < |e.channel|
      ensures ChunkOk(p, e, k)
    {
      assert ChunkOk(p, d, k + 1);
    }
  }

  /** The receiver waits only for chunks that come: as long as it is not done, one is in flight or will be sent. */
  lemma NoUnmatchedMessage(p: Plan, d: Direction)
    requires p.max > 0 && DirectionInv(p, d)
    ensures !d.receiveDone && d.sendDone ==> d.channel != []
    ensures d.receiveDone ==> d.sendDone && d.channel == []
  {
  }

  /** What is inserted in the end is what was in the guard, and both sides took the same number of rounds. */
  lemma DirectionComplete(p: Plan, d: Direction)
    requires p.max > 0 && DirectionInv(p, d) && d.receiveDone
    ensures d.inserted == p.initial && d.guard == multiset{}
    ensures d.sent == d.received == |p.initial| / p.max + 1
  {
  }

  // ----- all directions of a rank, and the gaps -----

  datatype State = State(directions: seq<Direction>, gapsFilled: bool)

  datatype Action = Send(direction: nat, message: Message) | Receive(direction: nat) | FillGaps

  predicate AllReceived(s: State) {
    forall i :: 0 <= i < |s.directions| ==> s.directions[i].receiveDone
  }

  predicate Enabled(plans: seq<Plan>, s: State, a: Action)
    requires |s.directions| == |plans|
  {
    match a
    case Send(i, m) => i < |plans| && CanSend(plans[i], s.directions[i], m)
    case Receive(i) => i < |plans| && CanReceive(s.directions[i])
    case FillGaps => AllReceived(s) && !s.gapsFilled
  }

  function Act(plans: seq<Plan>, s: State, a: Action): (t: State)
    requires |s.directions| == |plans| && Enabled(plans, s, a)
    ensures |t.directions| == |plans|
  {
    match a
    case Send(i, m) => s.(directions := s.directions[i := Sent(plans[i], s.directions[i], m)])
    case Receive(i) => s.(directions := s.directions[i := Received(plans[i], s.directions[i])])
    case FillGaps => s.(gapsFilled := true)
  }

  ghost predicate Valid(plans: seq<Plan>) {
    forall i :: 0 <= i < |plans| ==> plans[i].max > 0
  }

  ghost predicate Inv(plans: seq<Plan>, s: State)
    requires Valid(plans)
  {
    && |s.directions| == |plans|
    && (forall i :: 0 <= i < |plans| ==> DirectionInv(plans[i], s.directions[i]))
    && (s.gapsFilled ==> AllReceived(s))
  }

  function StartAll(plans: seq<Plan>): (s: State)
    ensures |s.directions| == |plans| && !s.gapsFilled
    ensures forall i :: 0 <= i < |plans| ==> s.directions[i] == Start(plans[i])
  {
    State(seq(|plans|, i requires 0 <= i < |plans| => Start(plans[i])), false)
  }

  lemma ActKeepsInv(plans: seq<Plan>, s: State, a: Action)
    requires Valid(plans) && Inv(plans, s) && Enabled(plans, s, a)
    ensures Inv(plans, Act(plans, s, a))
  {
    hide DirectionInv, Sent, Received, CanSend;
    match a {
      case Send(i, m) =>
        SendKeepsInv(plans[i], s.directions[i], m);
        SendKeepsReceiver(plans[i], s.directions[i], m);
      case Receive(i) =>
        ReceiveKeepsInv(plans[i], s.directions[i]);
      case FillGaps =>
    }
  }

  lemma SendKeepsReceiver(p: Plan, d: Direction, m: Message)
    ensures Sent(p, d, m).receiveDone == d.receiveDone
  {
  }

  /** The schedule can be run from s, one enabled action after the other. */
  predicate Runs(plans: seq<Plan>, s: State, schedule: seq<Action>)
    requires |s.directions| == |plans|
    decreases |schedule|
  {
    schedule == [] || (Enabled(plans, s, schedule[0]) && Runs(plans, Act(plans, s, schedule[0]), schedule[1..]))
  }

  function After(plans: seq<Plan>, s: State, schedule: seq<Action>): (t: State)
    requires |s.directions| == |plans| && Runs(plans, s, schedule)
    ensures |t.directions| == |plans|
    decreases |schedule|
  {
    if schedule == [] then s else After(plans, Act(plans, s, schedule[0]), schedule[1..])
  }

  lemma {:induction false} RunKeepsInv(plans: seq<Plan>, s: State, schedule: seq<Action>)
    requires Valid(plans) && Inv(plans, s) && Runs(plans, s, schedule)
    ensures Inv(plans, After(plans, s, schedule))
    decreases |schedule|
  {
    if schedule != [] {
      ActKeepsInv(plans, s, schedule[0]);
      RunKeepsInv(plans, Act(plans, s, schedule[0]), schedule[1..]);
    }
  }

  // ----- progress -----

  /** Sends and receives done in the first n directions. */
  function Steps(s: State, n: nat): nat
    requires n <= |s.directions|
  {
    if n == 0 then 0 else Steps(s, n - 1) + s.directions[n - 1].sent + s.directions[n - 1].received
  }

  function Budget(plans: seq<Plan>, n: nat): nat
    requires n <= |plans| && Valid(plans)
  {
    if n == 0 then 0 else Budget(plans, n - 1) + 2 * Rounds(plans[n - 1])
  }

  function Taken(s: State): nat {
    Steps(s, |s.directions|) + (if s.gapsFilled then 1 else 0)
  }

  lemma {:induction false} StepsAfterUpdate(s: State, i: nat, d: Direction, n: nat)
    requires i < |s.directions| && n <= |s.directions|
    requires d.sent + d.received == s.directions[i].sent + s.directions[i].received + 1
    ensures Steps(s.(directions := s.directions[i := d]), n) == Steps(s, n) + (if i < n then 1 else 0)
  {
    if n > 0 {
      StepsAfterUpdate(s, i, d, n - 1);
    }
  }

  lemma {:induction false} StepsSame(s: State, t: State, n: nat)
    requires s.directions == t.directions && n <= |s.directions|
    ensures Steps(s, n) == Steps(t, n)
  {
    if n > 0 {
      StepsSame(s, t, n - 1);
    }
  }

  lemma {:induction false} StepsWithinBudget(plans: seq<Plan>, s: State, n: nat)
    requires Valid(plans) && Inv(plans, s) && n <= |plans|
    ensures Steps(s, n) <= Budget(plans, n)
  {
    if n > 0 {
      StepsWithinBudget(plans, s, n - 1);
      assert DirectionInv(plans[n - 1], s.directions[n - 1]);
    }
  }

  lemma ActTakesOne(plans: seq<Plan>, s: State, a: Action)
    requires |s.directions| == |plans| && Enabled(plans, s, a)
    ensures Taken(Act(plans, s, a)) == Taken(s) + 1
  {
    match a {
      case Send(i, m) => StepsAfterUpdate(s, i, Sent(plans[i], s.directions[i], m), |plans|);
      case Receive(i) => StepsAfterUpdate(s, i, Received(plans[i], s.directions[i]), |plans|);
      case FillGaps => StepsSame(s, Act(plans, s, a), |plans|);
    }
  }

  /** Every run is finite: it can take no more steps than the chunks of all directions need. */
  lemma {:induction false} RunIsBounded(plans: seq<Plan>, s: State, schedule: seq<Action>)
    requires Valid(plans) && Inv(plans, s) && Runs(plans, s, schedule)
    ensures Taken(After(plans, s, schedule)) == Taken(s) + |schedule| <= Budget(plans, |plans|) + 1
    decreases |schedule|
  {
    if schedule == [] {
      StepsWithinBudget(plans, s, |plans|);
    } else {
      ActKeepsInv(plans, s, schedule[0]);
      ActTakesOne(plans, s, schedule[0]);
      RunIsBounded(plans, Act(plans, s, schedule[0]), schedule[1..]);
    }
  }

  lemma EmptyIfNone(m: Particles)
    requires forall y :: y !in m
    ensures m == multiset{}
  {
    var none: Particles := multiset{};
    assert forall y :: m[y] == none[y];
  }

  lemma SomeElement(m: Particles) returns (x: int)
    requires m != multiset{}
    ensures x in m
  {
    if forall y :: y !in m {
      EmptyIfNone(m);
    }
    x :| x in m;
  }

  /** Some particles of the required number can always be taken out of the guard. */
  lemma {:induction false} SomeChunk(guard: Particles, n: nat) returns (chunk: Particles)
    requires n <= |guard|
    ensures chunk <= guard && |chunk| == n
  {
    chunk := multiset{};
    if n > 0 {
      var less := SomeChunk(guard, n - 1);
      assert |guard - less| == |guard| - |less|;
      var x := SomeElement(guard - less);
      chunk := less + multiset{x};
    }
  }

  /** The protocol never gets stuck: until the gaps are filled, some action is enabled. */
  lemma NeverStuck(plans: seq<Plan>, s: State) returns (a: Action)
    requires Valid(plans) && Inv(plans, s) && !s.gapsFilled
    ensures Enabled(plans, s, a)
  {
    if i :| 0 <= i < |plans| && !s.directions[i].receiveDone {
      var p, d := plans[i], s.directions[i];
      assert DirectionInv(p, d);
      if d.channel != [] {
        a := Receive(i);
      } else {
        NoUnmatchedMessage(p, d);
        var chunk := SomeChunk(d.guard, Min(|d.guard|, p.max));
        a := Send(i, Message(chunk, |chunk|));
      }
    } else {
      a := FillGaps;
    }
  }

  /** Gaps are filled only after every direction has delivered all its particles, each exactly once. */
  lemma GapsFilledLast(plans: seq<Plan>, schedule: seq<Action>, i: nat)
    requires Valid(plans) && Runs(plans, StartAll(plans), schedule) && i < |plans|
    requires After(plans, StartAll(plans), schedule).gapsFilled
    ensures var d := After(plans, StartAll(plans), schedule).directions[i];
            && d.receiveDone && d.inserted == plans[i].initial && d.guard == multiset{} && d.channel == []
            && d.sent == d.received == |plans[i].initial| / plans[i].max + 1
  {
    forall j | 0 <= j < |plans|
      ensures DirectionInv(plans[j], StartAll(plans).directions[j])
    {
      StartInv(plans[j]);
    }
    RunKeepsInv(plans, StartAll(plans), schedule);
    var s := After(plans, StartAll(plans), schedule);
    assert DirectionInv(plans[i], s.directions[i]);
    NoUnmatchedMessage(plans[i], s.directions[i]);
    DirectionComplete(plans[i], s.directions[i]);
  }

  // ----- the loops of the two sides -----

  /** The link of one direction: the sender's guard and what is in flight towards the receiver. */
  class Link {
    var guard: Particles
    var channel: seq<Message>
    var inserted: Particles

    constructor (guard: Particles)
      ensures this.guard == guard && channel == [] && inserted == multiset{}
    {
      this.guard := guard;
      channel := [];
      inserted := multiset{};
    }

    method CopyGuardToExchange(max: nat) returns (chunk: Particles)
      modifies this`guard
      ensures chunk <= old(guard) && |chunk| == Min(|old(guard)|, max) && guard == old(guard) - chunk
    {
      chunk := multiset{};
      while guard != multiset{} && |chunk| < max
        invariant chunk <= old(guard) && guard == old(guard) - chunk
        invariant |guard| + |chunk| == |old(guard)| && |chunk| <= max
        decreases |guard|
      {
        assert exists x :: x in guard by {
          var y := SomeElement(guard);
        }
        var x :| x in guard;
        guard := guard - multiset{x};
        chunk := chunk + multiset{x};
      }
    }

    /** sendChunks: repeat until a chunk is not full; returns the number of chunks and of retries. */
    method SendChunks(max: nat) returns (chunks: nat, retries: nat)
      requires max > 0 && channel == []
      modifies this`guard, this`channel
      ensures guard == multiset{} && InFlight(channel) == old(guard) && |channel| == chunks
      ensures chunks == |old(guard)| / max + 1 && retries == chunks - 1
      ensures forall k :: 0 <= k < chunks ==>
                SizeAndIndex(channel[k], if k + 1 < chunks then max else |old(guard)| % max)
    {
      retries := 0;
      var last: nat := max;
      while last == max
        invariant Sending(old(guard), guard, channel, max, retries, last)
        decreases |guard|, last == max
      {
        ghost var before, was := guard, channel;
        var chunk := CopyGuardToExchange(max);
        last := |chunk|;
        channel := channel + [Message(chunk, |chunk|)];
        TurnKeepsSending(old(guard), before, guard, was, chunk, max, retries);
        if last == max {
          retries := retries + 1;
        }
      }
      chunks := retries + 1;
    }

    /** receiveChunks: repeat until a chunk is empty or not full; returns the number of chunks. */
    method ReceiveChunks(max: nat) returns (chunks: nat)
      requires max > 0 && channel != []
      requires forall k :: 0 <= k < |channel| ==>
                 if k + 1 < |channel| then SizeAndIndex(channel[k], max) else ShortLast(channel[k], max)
      modifies this`channel, this`inserted
      ensures channel == [] && chunks == |old(channel)| && inserted == old(inserted) + InFlight(old(channel))
    {
      chunks := 0;
      var done := false;
      while !done
        invariant chunks <= |old(channel)| && channel == old(channel)[chunks..]
        invariant done <==> chunks == |old(channel)|
        invariant inserted + InFlight(channel) == old(inserted) + InFlight(old(channel))
        decreases |channel|, !done
      {
        var m := channel[0];
        assert m == old(channel)[chunks];
        InFlightFirst(channel);
        channel := channel[1..];
        if m.indexEntries != 0 {
          inserted := inserted + m.payload;
        }
        chunks := chunks + 1;
        done := |m.payload| == 0 || |m.payload| < max;
      }
    }
  }

  /** The state of sendChunks after a turn: `retries` full chunks are out, and the last one unless it was full, too. */
  ghost predicate Sending(initial: Particles, guard: Particles, channel: seq<Message>, max: nat,
                          retries: nat, last: nat)
    requires max > 0
  {
    && guard + InFlight(channel) == initial
    && |channel| == retries + (if last == max then 0 else 1)
    && (forall k :: 0 <= k < retries ==> SizeAndIndex(channel[k], max))
    && (if last == max then |guard| + retries * max == |initial|
        else guard == multiset{} && retries == |initial| / max && SizeAndIndex(channel[retries], |initial| % max))
  }

  lemma TurnKeepsSending(initial: Particles, before: Particles, after: Particles, channel: seq<Message>,
                         chunk: Particles, max: nat, retries: nat)
    requires max > 0 && Sending(initial, before, channel, max, retries, max)
    requires chunk <= before && |chunk| == Min(|before|, max) && after == before - chunk
    ensures var now := channel + [Message(chunk, |chunk|)];
            Sending(initial, after, now, max, if |chunk| == max then retries + 1 else retries, |chunk|)
    ensures |chunk| == max ==> |after| < |before|
  {
    NextChunk(|initial|, max, retries, |before|);
    assert before == after + chunk;
    var now := channel + [Message(chunk, |chunk|)];
    assert now[..|now| - 1] == channel;
    assert |after| == |before| - |chunk|;
  }

  predicate ShortLast(m: Message, max: nat) {
    |m.payload| < max && (m.indexEntries == 0 <==> m.payload == multiset{})
  }

  /** The loops of the two sides agree: the receiver stops after the sender's last chunk and has all particles. */
  method ExchangeOneDirection(guard: Particles, max: nat) returns (inserted: Particles, chunks: nat)
    requires max > 0
    ensures inserted == guard && chunks == |guard| / max + 1
  {
    var link := new Link(guard);
    var sent, retries := link.SendChunks(max);
    chunks := link.ReceiveChunks(max);
    inserted := link.inserted;
  }

  predicate SizeAndIndex(m: Message, size: nat) {
    |m.payload| == size && (m.indexEntries == 0 <==> m.payload == multiset{})
  }
}
