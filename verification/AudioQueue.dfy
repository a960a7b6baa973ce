/** The bounded audio queue between the sound callback and the recognizer loop. The callback puts;
    when the queue is full it gets the oldest block and puts again. Each of these queue calls is
    atomic, and the consumer's `get` may come between any two of them. */
module AudioQueue {
  import opened Wrappers

  /** A block of audio; `serial` is its place in the order of production. */
  datatype Block = Block(serial: nat, audio: string)

  /** Where the callback stands: outside, after its first put failed, or after it made room. */
  datatype Phase = Outside | WasFull(block: Block) | MadeRoom(block: Block)

  datatype State = State(
    q: seq<Block>,
    phase: Phase,
    produced: seq<Block>,
    consumed: seq<Block>,
    dropped: seq<Block>)

  /** Produce: the callback is called with new audio and tries its first put.
      DropOldest, Retry: its next two queue calls. Consume: the recognizer's get. */
  datatype Event = Produce(audio: string) | DropOldest | Retry | Consume

  const INITIAL := State([], Outside, [], [], [])

  /** The callback runs one call at a time; the consumer may always get. */
  predicate Enabled(s: State, e: Event) {
    match e
    case Produce(_) => s.phase.Outside?
    case DropOldest => s.phase.WasFull?
    case Retry => s.phase.MadeRoom?
    case Consume => true
  }

  function Step(capacity: nat, s: State, e: Event): State
    requires Enabled(s, e)
  {
    match e
    case Produce(audio) =>
      var b := Block(|s.produced|, audio);
      var t := s.(produced := s.produced + [b]);
      if |s.q| < capacity then t.(q := s.q + [b]) else t.(phase := WasFull(b))
    case DropOldest =>
      if s.q == [] // Empty: caught, the new block is given up
      then s.(phase := Outside, dropped := s.dropped + [s.phase.block])
      else s.(q := s.q[1..], dropped := s.dropped + [s.q[0]], phase := MadeRoom(s.phase.block))
    case Retry =>
      if |s.q| < capacity
      then s.(q := s.q + [s.phase.block], phase := Outside)
      else s.(phase := Outside, dropped := s.dropped + [s.phase.block])
    case Consume =>
      if s.q == [] then s else s.(q := s.q[1..], consumed := s.consumed + [s.q[0]])
  }

  function InFlight(s: State): seq<Block> {
    if s.phase.Outside? then [] else [s.phase.block]
  }

  /** The blocks waiting for the consumer, the one in the callback's hands last. */
  function Waiting(s: State): seq<Block> {
    s.q + InFlight(s)
  }

  predicate Increasing(bs: seq<Block>) {
    forall i, j :: 0 <= i < j < |bs| ==> bs[i].serial < bs[j].serial
  }

  ghost predicate IsSuffix(part: seq<Block>, whole: seq<Block>) {
    |part| <= |whole| && whole[|whole| - |part|..] == part
  }

  ghost predicate Numbered(bs: seq<Block>) {
    forall i :: 0 <= i < |bs| ==> bs[i].serial == i
  }

  /** The consumed blocks are produced ones, in order and older than `limit`. */
  ghost predicate ConsumedInOrder(consumed: seq<Block>, produced: seq<Block>, limit: int) {
    && Increasing(consumed)
    && (forall i :: 0 <= i < |consumed| ==> consumed[i].serial < limit && consumed[i] in produced)
  }

  ghost predicate Accounted(s: State) {
    multiset(s.produced) == multiset(s.consumed) + multiset(s.dropped) + multiset(Waiting(s))
  }

  ghost predicate Inv(capacity: nat, s: State) {
    && |s.q| <= capacity
    && (s.phase.MadeRoom? ==> |s.q| < capacity)
    && Numbered(s.produced)
    && IsSuffix(Waiting(s), s.produced)
    && ConsumedInOrder(s.consumed, s.produced, |s.produced| - |Waiting(s)|)
    && Accounted(s)
  }

  lemma Snoc(a: seq<Block>, b: Block)
    ensures multiset(a + [b]) == multiset(a) + multiset{b}
  {
  }

  lemma Uncons(a: seq<Block>)
    requires a != []
    ensures multiset(a) == multiset{a[0]} + multiset(a[1..])
  {
    assert a == [a[0]] + a[1..];
  }

  lemma ProduceWaits(capacity: nat, s: State, audio: string)
    requires Enabled(s, Produce(audio))
    ensures Waiting(Step(capacity, s, Produce(audio))) == Waiting(s) + [Block(|s.produced|, audio)]
  {
    assert s.q + [] == s.q;
    assert s.q + [Block(|s.produced|, audio)] + [] == s.q + [Block(|s.produced|, audio)];
  }

  lemma SuffixGrows(part: seq<Block>, whole: seq<Block>, b: Block)
    requires IsSuffix(part, whole)
    ensures IsSuffix(part + [b], whole + [b])
  {
    var n := |whole| - |part|;
    assert (whole + [b])[n..] == whole[n..] + [b];
  }

  lemma SuffixShrinks(part: seq<Block>, whole: seq<Block>)
    requires IsSuffix(part, whole) && part != []
    ensures IsSuffix(part[1..], whole) && part[0] == whole[|whole| - |part|]
  {
    var n := |whole| - |part|;
    assert whole[n + 1..] == whole[n..][1..];
    assert whole[n] == whole[n..][0];
  }

  lemma ProduceKeepsInv(capacity: nat, s: State, audio: string)
    requires capacity > 0 && Inv(capacity, s) && Enabled(s, Produce(audio))
    ensures Inv(capacity, Step(capacity, s, Produce(audio)))
  {
    var b := Block(|s.produced|, audio);
    ProduceWaits(capacity, s, audio);
    SuffixGrows(Waiting(s), s.produced, b);
    Snoc(s.produced, b);
    Snoc(Waiting(s), b);
  }

  /** Taking the oldest waiting block out of the queue. */
  lemma TakeOldest(s: State, t: State)
    requires s.q != [] && t.q == s.q[1..] && InFlight(t) == InFlight(s)
    ensures Waiting(t) == Waiting(s)[1..] && Waiting(s)[0] == s.q[0]
    ensures multiset(Waiting(s)) == multiset{s.q[0]} + multiset(Waiting(t))
  {
    Uncons(Waiting(s));
  }

  lemma LimitGrows(consumed: seq<Block>, produced: seq<Block>, limit: int)
    requires ConsumedInOrder(consumed, produced, limit)
    ensures ConsumedInOrder(consumed, produced, limit + 1)
  {
  }

  lemma DropKeepsInv(capacity: nat, s: State)
    requires Inv(capacity, s) && Enabled(s, DropOldest)
    ensures Inv(capacity, Step(capacity, s, DropOldest))
  {
    var t := Step(capacity, s, DropOldest);
    LimitGrows(s.consumed, s.produced, |s.produced| - |Waiting(s)|);
    if s.q == [] {
      assert Waiting(s) == [s.phase.block] && Waiting(t) == [];
      assert s.produced[|s.produced|..] == [];
      Snoc(s.dropped, s.phase.block);
    } else {
      DropOneKeepsInv(capacity, s, t);
    }
  }

  lemma DropOneKeepsInv(capacity: nat, s: State, t: State)
    requires Inv(capacity, s) && s.phase.WasFull? && s.q != []
    requires t == s.(q := s.q[1..], dropped := s.dropped + [s.q[0]], phase := MadeRoom(s.phase.block))
    ensures Inv(capacity, t)
  {
    TakeOldest(s, t);
    SuffixShrinks(Waiting(s), s.produced);
    LimitGrows(s.consumed, s.produced, |s.produced| - |Waiting(s)|);
    Snoc(s.dropped, s.q[0]);
  }

  lemma RetryKeepsInv(capacity: nat, s: State)
    requires Inv(capacity, s) && Enabled(s, Retry)
    ensures Inv(capacity, Step(capacity, s, Retry))
  {
    assert s.q + [s.phase.block] + [] == s.q + [s.phase.block];
    assert Waiting(Step(capacity, s, Retry)) == Waiting(s);
  }

  lemma ConsumeNext(consumed: seq<Block>, produced: seq<Block>, n: nat)
    requires Numbered(produced) && n < |produced| && ConsumedInOrder(consumed, produced, n)
    ensures ConsumedInOrder(consumed + [produced[n]], produced, n + 1)
  {
    assert produced[n] in produced;
  }

  lemma ConsumeKeepsInv(capacity: nat, s: State)
    requires Inv(capacity, s)
    ensures Inv(capacity, Step(capacity, s, Consume))
  {
    if s.q != [] {
      ConsumeOneKeepsInv(capacity, s, Step(capacity, s, Consume));
    }
  }

  lemma ConsumeOneKeepsInv(capacity: nat, s: State, t: State)
    requires Inv(capacity, s) && s.q != [] && t == s.(q := s.q[1..], consumed := s.consumed + [s.q[0]])
    ensures Inv(capacity, t)
  {
    TakeOldest(s, t);
    SuffixShrinks(Waiting(s), s.produced);
    ConsumeNext(s.consumed, s.produced, |s.produced| - |Waiting(s)|);
    Snoc(s.consumed, s.q[0]);
  }

  lemma StepKeepsInv(capacity: nat, s: State, e: Event)
    requires capacity > 0 && Inv(capacity, s) && Enabled(s, e)
    ensures Inv(capacity, Step(capacity, s, e))
  {
    match e {
      case Produce(audio) => ProduceKeepsInv(capacity, s, audio);
      case DropOldest => DropKeepsInv(capacity, s);
      case Retry => RetryKeepsInv(capacity, s);
      case Consume => ConsumeKeepsInv(capacity, s);
    }
  }

  ghost predicate ValidRun(capacity: nat, s: State, es: seq<Event>)
    decreases |es|
  {
    es == [] || (Enabled(s, es[0]) && ValidRun(capacity, Step(capacity, s, es[0]), es[1..]))
  }

  ghost function Run(capacity: nat, s: State, es: seq<Event>): State
    requires ValidRun(capacity, s, es)
    decreases |es|
  {
    if es == [] then s else Run(capacity, Step(capacity, s, es[0]), es[1..])
  }

  lemma {:induction false} RunKeepsInv(capacity: nat, s: State, es: seq<Event>)
    requires capacity > 0 && Inv(capacity, s) && ValidRun(capacity, s, es)
    ensures Inv(capacity, Run(capacity, s, es))
    decreases |es|
  {
    if es != [] {
      StepKeepsInv(capacity, s, es[0]);
      RunKeepsInv(capacity, Step(capacity, s, es[0]), es[1..]);
    }
  }

  /** In every interleaving, from the empty queue or any state the queue can be in: the bound holds;
      consumed followed by waiting blocks are produced blocks with increasing serials, and serials number
      the blocks in production order; every produced block
      is consumed, dropped, queued or in flight, once; and what waits is the newest stretch of what was
      produced, without a hole. */
  lemma QueueSafety(capacity: nat, start: State, es: seq<Event>, s: State)
    requires capacity > 0 && Inv(capacity, start) && ValidRun(capacity, start, es) && s == Run(capacity, start, es)
    ensures |s.q| <= capacity
    ensures Numbered(s.produced) && Increasing(s.consumed + Waiting(s))
    ensures forall b :: b in s.consumed + Waiting(s) ==> b in s.produced
    ensures multiset(s.produced) == multiset(s.consumed) + multiset(s.q) + multiset(s.dropped) + multiset(InFlight(s))
    ensures IsSuffix(Waiting(s), s.produced)
  {
    RunKeepsInv(capacity, start, es);
    SafetyFromInv(capacity, s);
  }

  /** In every run: a get takes exactly the oldest waiting block from the queue to the end of what was
      consumed, when there is one queued, and otherwise changes nothing; no other call delivers anything. */
  lemma GetDeliversOldest(capacity: nat, start: State, es: seq<Event>, s: State, e: Event)
    requires capacity > 0 && Inv(capacity, start) && ValidRun(capacity, start, es) && s == Run(capacity, start, es)
    requires Enabled(s, e)
    ensures var t := Step(capacity, s, e);
            && (e == Consume && s.q != [] ==>
                  && t.q == s.q[1..] && t.consumed == s.consumed + [s.q[0]]
                  && t.dropped == s.dropped && t.produced == s.produced && t.phase == s.phase
                  && s.q[0] == Waiting(s)[0] && forall b :: b in t.q ==> s.q[0].serial < b.serial)
            && (e == Consume && s.q == [] ==> t == s)
            && (e != Consume ==> t.consumed == s.consumed)
  {
    RunKeepsInv(capacity, start, es);
    QueuedInOrder(capacity, s);
    ConsumeTakes(capacity, s);
    OthersDeliverNothing(capacity, s, e);
  }

  lemma QueuedInOrder(capacity: nat, s: State)
    requires Inv(capacity, s)
    ensures s.q != [] ==> forall b :: b in s.q[1..] ==> s.q[0].serial < b.serial
  {
    SafetyFromInv(capacity, s);
    if s.q != [] {
      OldestFirst(s.consumed, s.q, InFlight(s));
    }
  }

  lemma OthersDeliverNothing(capacity: nat, s: State, e: Event)
    requires Enabled(s, e)
    ensures e != Consume ==> Step(capacity, s, e).consumed == s.consumed
  {
  }

  lemma ConsumeTakes(capacity: nat, s: State)
    ensures var t := Step(capacity, s, Consume);
            if s.q == [] then t == s
            else t == s.(q := s.q[1..], consumed := s.consumed + [s.q[0]]) && s.q[0] == Waiting(s)[0]
  {
  }

  lemma OldestFirst(consumed: seq<Block>, q: seq<Block>, held: seq<Block>)
    requires Increasing(consumed + (q + held)) && q != []
    ensures forall b :: b in q[1..] ==> q[0].serial < b.serial
  {
    var all := consumed + (q + held);
    forall b | b in q[1..] ensures q[0].serial < b.serial {
      var k :| 0 <= k < |q[1..]| && q[1..][k] == b;
      assert all[|consumed|] == q[0] && all[|consumed| + k + 1] == b;
    }
  }

  /** The sounds of the blocks the callback was called with. */
  function Sounds(es: seq<Event>): seq<string> {
    if es == [] then []
    else (if es[0].Produce? then [es[0].audio] else []) + Sounds(es[1..])
  }

  function SoundsOf(bs: seq<Block>): seq<string> {
    seq(|bs|, i requires 0 <= i < |bs| => bs[i].audio)
  }

  /** In every run the blocks produced are those the callback was called with, in order. */
  lemma {:induction false} AllAreProduced(capacity: nat, s: State, es: seq<Event>)
    requires ValidRun(capacity, s, es)
    ensures SoundsOf(Run(capacity, s, es).produced) == SoundsOf(s.produced) + Sounds(es)
    decreases |es|
  {
    if es == [] {
      assert SoundsOf(s.produced) + [] == SoundsOf(s.produced);
    } else {
      var t := Step(capacity, s, es[0]);
      AllAreProduced(capacity, t, es[1..]);
      var now := if es[0].Produce? then [es[0].audio] else [];
      assert SoundsOf(t.produced) == SoundsOf(s.produced) + now;
      assert (SoundsOf(s.produced) + now) + Sounds(es[1..]) == SoundsOf(s.produced) + (now + Sounds(es[1..]));
    }
  }

  /** The empty queue is such a state. */
  lemma InitialInv(capacity: nat)
    ensures Inv(capacity, INITIAL)
  {
    assert INITIAL.produced[0..] == [];
  }

  lemma SafetyFromInv(capacity: nat, s: State)
    requires Inv(capacity, s)
    ensures Increasing(s.consumed + Waiting(s))
    ensures forall b :: b in s.consumed + Waiting(s) ==> b in s.produced
    ensures multiset(Waiting(s)) == multiset(s.q) + multiset(InFlight(s))
  {
    var n := |s.produced| - |Waiting(s)|;
    forall i | 0 <= i < |Waiting(s)| ensures Waiting(s)[i] == s.produced[n + i] {
      assert Waiting(s)[i] == s.produced[n..][i];
    }
    Appended(s.consumed, s.produced, n, Waiting(s));
  }

  lemma Appended(consumed: seq<Block>, produced: seq<Block>, n: nat, waiting: seq<Block>)
    requires Numbered(produced) && ConsumedInOrder(consumed, produced, n) && n + |waiting| == |produced|
    requires forall i :: 0 <= i < |waiting| ==> waiting[i] == produced[n + i]
    ensures Increasing(consumed + waiting)
    ensures forall b :: b in consumed + waiting ==> b in produced
  {
    forall b | b in waiting ensures b in produced {
      var i :| 0 <= i < |waiting| && waiting[i] == b;
      assert produced[n + i] == b;
    }
  }

  /** The second put of the callback always finds room: nothing but the consumer can have come between. */
  lemma RetrySucceeds(capacity: nat, start: State, es: seq<Event>, s: State)
    requires capacity > 0 && Inv(capacity, start) && ValidRun(capacity, start, es) && s == Run(capacity, start, es)
    requires Enabled(s, Retry)
    ensures var t := Step(capacity, s, Retry); t.q == s.q + [s.phase.block] && t.dropped == s.dropped
  {
    RunKeepsInv(capacity, start, es);
  }

  /** A dropped block is older than everything still waiting, except when the consumer has drained the
      whole queue between the failed put and the get: then, and only then, the newest block goes. */
  lemma NewestLostOnlyWhenDrained(capacity: nat, s: State)
    requires capacity > 0 && Inv(capacity, s) && Enabled(s, DropOldest)
    ensures var t := Step(capacity, s, DropOldest);
            && t.dropped[..|s.dropped|] == s.dropped && |t.dropped| == |s.dropped| + 1
            && var gone := t.dropped[|s.dropped|];
               && (gone == s.produced[|s.produced| - 1] <==> s.q == [])
               && (s.q == [] <==> t.phase.Outside?)
               && forall b :: b in Waiting(t) ==> gone.serial < b.serial
  {
    var t := Step(capacity, s, DropOldest);
    var n := |s.produced| - |Waiting(s)|;
    forall i | 0 <= i < |Waiting(s)| ensures Waiting(s)[i] == s.produced[n + i] {
      assert Waiting(s)[i] == s.produced[n..][i];
    }
    if s.q != [] {
      TakeOldest(s, t);
    }
  }

  /** The callback run without interruption. */
  function AtomicCallback(capacity: nat, s: State, audio: string): State
    requires s.phase.Outside?
  {
    var s1 := Step(capacity, s, Produce(audio));
    if s1.phase.Outside? then s1
    else
      var s2 := Step(capacity, s1, DropOldest);
      if s2.phase.Outside? then s2 else Step(capacity, s2, Retry)
  }

  /** Then the newest block always stays: the queue becomes the last `capacity` blocks of the old
      queue followed by the new one, and the rest is dropped. */
  lemma AtomicKeepsNewest(capacity: nat, s: State, audio: string)
    requires capacity > 0 && |s.q| <= capacity && s.phase.Outside?
    ensures var t := AtomicCallback(capacity, s, audio); var all := s.q + [Block(|s.produced|, audio)];
            var over := if |all| > capacity then 1 else 0;
            && t.phase.Outside? && t.consumed == s.consumed
            && t.produced == s.produced + [Block(|s.produced|, audio)]
            && t.q == all[over..] && t.dropped == s.dropped + all[..over]
  {
    assert s.dropped + s.q[..0] == s.dropped;
    if |s.q| == capacity {
      assert s.q[..1] == [s.q[0]];
    }
  }

  const QUEUE_MAX: nat := 600

  /** The queue and the callback's position, changed in place by the four atomic calls. */
  class Queue {
    var q: seq<Block>
    var phase: Phase
    ghost var produced: seq<Block>
    ghost var consumed: seq<Block>
    ghost var dropped: seq<Block>

    ghost function Contents(): State
      reads this
    {
      State(q, phase, produced, consumed, dropped)
    }

    constructor ()
      ensures Contents() == INITIAL
    {
      q, phase, produced, consumed, dropped := [], Outside, [], [], [];
    }

    /** `q.put_nowait(...)`; the caller supplies the running number of the block. */
    method PutNowait(b: Block) returns (full: bool)
      modifies this`q
      ensures full == (|old(q)| >= QUEUE_MAX)
      ensures q == if full then old(q) else old(q) + [b]
    {
      full := |q| >= QUEUE_MAX;
      if !full {
        q := q + [b];
      }
    }

    /** `q.get_nowait()`, and `q.get(timeout)` once the time-out is over. */
    method Get() returns (r: Option<Block>)
      modifies this`q
      ensures old(q) == [] ==> r == None && q == []
      ensures old(q) != [] ==> r == Some(old(q)[0]) && q == old(q)[1..]
    {
      if q == [] {
        return None;
      }
      r, q := Some(q[0]), q[1..];
    }

    method CallbackPut(audio: string, serial: nat)
      requires Enabled(Contents(), Produce(audio)) && serial == |produced|
      modifies this
      ensures Contents() == Step(QUEUE_MAX, old(Contents()), Produce(audio))
      ensures var b := Block(serial, audio);
              if |old(q)| < 600 then q == old(q) + [b] && phase == old(phase) else q == old(q) && phase == WasFull(b)
      ensures dropped == old(dropped) && consumed == old(consumed)
    {
      var b := Block(serial, audio);
      produced := produced + [b];
      var full := PutNowait(b);
      if full {
        phase := WasFull(b);
      }
    }

    method CallbackGet()
      requires Enabled(Contents(), DropOldest)
      modifies this
      ensures Contents() == Step(QUEUE_MAX, old(Contents()), DropOldest)
      ensures old(q) != [] ==>
                q == old(q)[1..] && dropped == old(dropped) + [old(q)[0]] && phase == MadeRoom(old(phase).block)
      ensures old(q) == [] ==> q == [] && dropped == old(dropped) + [old(phase).block] && phase == Outside
      ensures consumed == old(consumed)
    {
      var b := phase.block;
      var oldest := Get();
      match oldest {
        case Some(x) =>
          dropped := dropped + [x];
          phase := MadeRoom(b);
        case None =>
          dropped := dropped + [b];
          phase := Outside;
      }
    }

    method CallbackRetry()
      requires Enabled(Contents(), Retry)
      modifies this
      ensures Contents() == Step(QUEUE_MAX, old(Contents()), Retry)
      ensures phase == Outside && consumed == old(consumed)
      ensures |old(q)| < 600 ==> q == old(q) + [old(phase).block] && dropped == old(dropped)
      ensures |old(q)| >= 600 ==> q == old(q) && dropped == old(dropped) + [old(phase).block]
    {
      var b := phase.block;
      var full := PutNowait(b);
      if full {
        dropped := dropped + [b];
      }
      phase := Outside;
    }

    method ConsumerGet() returns (r: Option<Block>)
      modifies this
      ensures Contents() == Step(QUEUE_MAX, old(Contents()), Consume)
      ensures old(q) != [] ==> r == Some(old(q)[0]) && q == old(q)[1..]
      ensures old(q) == [] ==> r.None? && q == []
      ensures consumed == old(consumed) + (if r.Some? then [r.value] else [])
    {
      r := Get();
      if r.Some? {
        consumed := consumed + [r.value];
      }
    }
  }
}
