/** The message structure: filled in place, and converted in place to and from network byte
    order on a little-endian host. */
module Message {
  import opened Types
  import opened LogFile

  datatype Stamp = Stamp(node: word, time: word)

  const NO_STAMP := Stamp(0, 0)

  /** The fields of a message; `value` and `delay` are the bit patterns of signed numbers. */
  datatype Fields = Fields(
    mtype: word, tid: word, port: word, value: word, delay: word, text: Bytes, clock: seq<Stamp>)

  /** Reverses the four bytes of a word. */
  function Swap(x: word): word {
    var b := Word(x);
    Value([b[3], b[2], b[1], b[0]])
  }

  lemma ValueRoundTrip(w: Bytes)
    requires |w| == 4
    ensures Word(Value(w)) == w
  {
    var b0: nat, b1: nat, b2: nat, b3: nat := w[0], w[1], w[2], w[3];
    var q2 := b2 + 256 * b3;
    var q1 := b1 + 256 * q2;
    var x: word := b0 + 256 * q1;
    assert Value(w) == x;
    Split(b0, q1);
    Split(b1, q2);
    Split(b2, b3);
    assert Word(x) == [b0, b1, b2, b3];
    assert w == [w[0], w[1], w[2], w[3]];
  }

  lemma Split(low: nat, high: nat)
    requires low < 256
    ensures (low + 256 * high) % 256 == low && (low + 256 * high) / 256 == high
  {
  }

  lemma SwapTwice(x: word)
    ensures Swap(Swap(x)) == x
  {
    var b := Word(x);
    ValueRoundTrip([b[3], b[2], b[1], b[0]]);
    WordRoundTrip(x);
    assert [b[0], b[1], b[2], b[3]] == b;
  }

  function SwapStamp(s: Stamp): Stamp {
    Stamp(Swap(s.node), Swap(s.time))
  }

  function SwapClock(c: seq<Stamp>): (c': seq<Stamp>)
    ensures |c'| == |c|
    ensures forall i :: 0 <= i < |c| ==> c'[i] == SwapStamp(c[i])
  {
    seq(|c|, i requires 0 <= i < |c| => SwapStamp(c[i]))
  }

  /** What the conversion does to every field; text is not converted. */
  function Converted(m: Fields): Fields {
    Fields(Swap(m.mtype), Swap(m.tid), Swap(m.port), Swap(m.value), Swap(m.delay), m.text, SwapClock(m.clock))
  }

  /** Converting from network byte order undoes converting to it, on every field and every
      slot of the clock. */
  lemma ConversionRoundTrip(m: Fields)
    ensures Converted(Converted(m)) == m
  {
    SwapTwice(m.mtype);
    SwapTwice(m.tid);
    SwapTwice(m.port);
    SwapTwice(m.value);
    SwapTwice(m.delay);
    var twice := SwapClock(SwapClock(m.clock));
    forall i | 0 <= i < |m.clock| ensures twice[i] == m.clock[i] {
      SwapTwice(m.clock[i].node);
      SwapTwice(m.clock[i].time);
    }
    assert twice == m.clock;
  }

  // The bytes on the wire

  /** The number that four bytes are in network byte order, most significant byte first. */
  function Network(b: Bytes): nat
    requires |b| == 4
  {
    var b0: nat, b1: nat, b2: nat, b3: nat := b[0], b[1], b[2], b[3];
    0x100_0000 * b0 + 0x1_0000 * b1 + 0x100 * b2 + b3
  }

  /** Swapping turns a word of the host into network byte order. */
  lemma SwapIsNetwork(x: word)
    ensures forall i :: 0 <= i < 4 ==> Word(Swap(x))[i] == Word(x)[3 - i]
    ensures Network(Word(Swap(x))) == x
  {
    var b := Word(x);
    ValueRoundTrip([b[3], b[2], b[1], b[0]]);
    WordRoundTrip(x);
  }

  const TEXT_AT: nat := 20              // after five numbers
  const CLOCK_AT: nat := 84             // after 64 bytes of text
  const MESSAGE_SIZE: nat := 164

  function StampWords(c: seq<Stamp>): (ws: seq<word>)
    ensures |ws| == 2 * |c|
    ensures forall i :: 0 <= i < |c| ==> ws[2 * i] == c[i].node && ws[2 * i + 1] == c[i].time
  {
    seq(2 * |c|, k requires 0 <= k < 2 * |c| => if k % 2 == 0 then c[k / 2].node else c[k / 2].time)
  }

  predicate Sized(m: Fields) {
    |m.text| == ID_SIZE && |m.clock| == MAX_NODES
  }

  function Numbers(m: Fields): (ws: seq<word>)
    ensures |ws| == 5
  {
    [m.mtype, m.tid, m.port, m.value, m.delay]
  }

  /** The bytes of a message in memory, which is what goes on the wire. */
  function Memory(m: Fields): (b: Bytes)
    requires Sized(m)
    ensures |b| == MESSAGE_SIZE
  {
    Words(Numbers(m)) + m.text + Words(StampWords(m.clock))
  }

  /** The number at a position of the wire. */
  function NetworkAt(b: Bytes, at: nat): nat
    requires at + 4 <= |b|
  {
    Network(b[at..at + 4])
  }

  /** The bytes carry the message: every number is at its place in network byte order, and
      the text is as it was. */
  ghost predicate Carries(b: Bytes, m: Fields)
    requires |b| == MESSAGE_SIZE && Sized(m)
  {
    && NetworkAt(b, 0) == m.mtype && NetworkAt(b, 4) == m.tid && NetworkAt(b, 8) == m.port
    && NetworkAt(b, 12) == m.value && NetworkAt(b, 16) == m.delay
    && b[TEXT_AT..CLOCK_AT] == m.text
    && forall i :: 0 <= i < MAX_NODES ==>
         NetworkAt(b, CLOCK_AT + 8 * i) == m.clock[i].node && NetworkAt(b, CLOCK_AT + 8 * i + 4) == m.clock[i].time
  }

  lemma BytesOnWire(head: Bytes, body: Bytes, tail: Bytes, at: nat, w: Bytes)
    requires at + 4 <= |body| && |w| == 4 && body[at..at + 4] == w
    ensures NetworkAt(head + body + tail, |head| + at) == Network(w)
  {
    Middle(head, body, tail, at, at + 4);
    assert (head + body + tail)[|head| + at..|head| + at + 4] == w;
  }

  lemma Middle<T>(a: seq<T>, b: seq<T>, c: seq<T>, from: nat, to: nat)
    requires from <= to <= |b|
    ensures (a + b + c)[|a| + from..|a| + to] == b[from..to]
  {
  }

  /** A swapped word among others on the wire is the original in network byte order. */
  lemma NumberOnWire(head: Bytes, ws: seq<word>, tail: Bytes, k: nat, x: word)
    requires k < |ws| && ws[k] == Swap(x)
    ensures NetworkAt(head + Words(ws) + tail, |head| + 4 * k) == x
  {
    SliceIsSwapped(ws, k, x);
    BytesOnWire(head, Words(ws), tail, 4 * k, Words(ws)[4 * k..4 * k + 4]);
  }

  lemma SliceIsSwapped(ws: seq<word>, k: nat, x: word)
    requires k < |ws| && ws[k] == Swap(x)
    ensures Network(Words(ws)[4 * k..4 * k + 4]) == x
  {
    WordsAt(ws, k);
    SwapIsNetwork(x);
  }

  lemma HeadOnWire(c: Fields, k: nat, x: word)
    requires Sized(c) && k < 5 && Numbers(c)[k] == Swap(x)
    ensures NetworkAt(Memory(c), 4 * k) == x
  {
    var ws, tail := Numbers(c), c.text + Words(StampWords(c.clock));
    assert Memory(c) == [] + Words(ws) + tail;
    NumberOnWire([], ws, tail, k, x);
  }

  lemma ClockOnWire(c: Fields, k: nat, x: word)
    requires Sized(c) && k < 2 * MAX_NODES && StampWords(c.clock)[k] == Swap(x)
    ensures NetworkAt(Memory(c), CLOCK_AT + 4 * k) == x
  {
    var ws, head := StampWords(c.clock), Words(Numbers(c)) + c.text;
    assert Memory(c) == head + Words(ws) + [];
    NumberOnWire(head, ws, [], k, x);
  }

  lemma ConvertedHead(m: Fields)
    requires Sized(m)
    ensures var b := Memory(Converted(m));
            && NetworkAt(b, 0) == m.mtype && NetworkAt(b, 4) == m.tid && NetworkAt(b, 8) == m.port
            && NetworkAt(b, 12) == m.value && NetworkAt(b, 16) == m.delay
  {
    var c := Converted(m);
    HeadOnWire(c, 0, m.mtype);
    HeadOnWire(c, 1, m.tid);
    HeadOnWire(c, 2, m.port);
    HeadOnWire(c, 3, m.value);
    HeadOnWire(c, 4, m.delay);
  }

  lemma NodeOnWire(c: Fields, clock: seq<Stamp>, i: nat)
    requires Sized(c) && c.clock == SwapClock(clock) && i < MAX_NODES
    ensures NetworkAt(Memory(c), CLOCK_AT + 8 * i) == clock[i].node
  {
    ClockOnWire(c, 2 * i, clock[i].node);
  }

  lemma TimeOnWire(c: Fields, clock: seq<Stamp>, i: nat)
    requires Sized(c) && c.clock == SwapClock(clock) && i < MAX_NODES
    ensures NetworkAt(Memory(c), CLOCK_AT + 8 * i + 4) == clock[i].time
  {
    ClockOnWire(c, 2 * i + 1, clock[i].time);
  }

  /** A converted message carries the original. */
  lemma ConvertedCarries(m: Fields)
    requires Sized(m)
    ensures Carries(Memory(Converted(m)), m)
  {
    var c := Converted(m);
    ConvertedHead(m);
    forall i: nat | i < MAX_NODES
      ensures NetworkAt(Memory(c), CLOCK_AT + 8 * i) == m.clock[i].node
      ensures NetworkAt(Memory(c), CLOCK_AT + 8 * i + 4) == m.clock[i].time
    {
      NodeOnWire(c, m.clock, i);
      TimeOnWire(c, m.clock, i);
    }
    TextOnWire(Words(Numbers(c)), c.text, Words(StampWords(c.clock)));
  }

  lemma TextOnWire(head: Bytes, text: Bytes, tail: Bytes)
    ensures (head + text + tail)[|head|..|head| + |text|] == text
  {
  }

  /** What the wire carries is what the receiver converts it to, and nothing else. */
  lemma CarriesOne(b: Bytes, m: Fields, n: Fields)
    requires |b| == MESSAGE_SIZE && Sized(m) && Sized(n) && Carries(b, m) && Carries(b, n)
    ensures m == n
  {
    assert forall i :: 0 <= i < MAX_NODES ==> m.clock[i] == n.clock[i];
    assert m.clock == n.clock;
  }

  class Buffer {
    var mtype: word
    var tid: word
    var port: word
    var value: word
    var delay: word
    var text: Bytes
    const vclock: array<Stamp>

    function View(): Fields
      reads this, vclock
    {
      Fields(mtype, tid, port, value, delay, text, vclock[..])
    }

    /** Initialises a message: everything is cleared, and the loop over the sender's clock
        copies slot zero ten times. */
    constructor (clock: seq<Stamp>)
      requires |clock| == MAX_NODES
      ensures fresh(vclock) && vclock.Length == MAX_NODES
      ensures mtype == tid == port == value == delay == 0 && text == seq(ID_SIZE, _ => 0)
      ensures vclock[0] == clock[0] && forall i :: 1 <= i < MAX_NODES ==> vclock[i] == NO_STAMP
    {
      mtype, tid, port, value, delay, text := 0, 0, 0, 0, 0, seq(ID_SIZE, _ => 0);
      vclock := new Stamp[MAX_NODES](_ => NO_STAMP);
      new;
      for i := 0 to MAX_NODES
        modifies vclock
        invariant i > 0 ==> vclock[0] == clock[0]
        invariant forall k :: 1 <= k < MAX_NODES ==> vclock[k] == NO_STAMP
      {
        vclock[0] := clock[0];
      }
    }

    constructor CopyOf(m: Fields)
      ensures fresh(vclock) && View() == m
    {
      mtype, tid, port, value, delay, text := m.mtype, m.tid, m.port, m.value, m.delay, m.text;
      vclock := new Stamp[|m.clock|](i requires 0 <= i < |m.clock| => m.clock[i]);
      new;
      assert vclock[..] == m.clock;
    }

    /** Conversion to network byte order; conversion from it is the same loop. */
    method Convert()
      modifies this, vclock
      ensures View() == Converted(old(View()))
      ensures Sized(old(View())) ==> Carries(Memory(View()), old(View()))
    {
      if Sized(View()) {
        ConvertedCarries(View());
      }
      mtype, tid, port, value, delay := Swap(mtype), Swap(tid), Swap(port), Swap(value), Swap(delay);
      var i := 0;
      ghost var before := vclock[..];
      while i < vclock.Length
        modifies vclock
        invariant i <= vclock.Length
        invariant forall k :: 0 <= k < i ==> vclock[k] == SwapStamp(before[k])
        invariant forall k :: i <= k < vclock.Length ==> vclock[k] == before[k]
      {
        vclock[i] := SwapStamp(vclock[i]);
        i := i + 1;
      }
      assert vclock[..] == SwapClock(before);
    }
  }

  /** The nodes of a list that are in use, in order. */
  function InUse(nodes: seq<nat>): seq<nat> {
    if nodes == [] then []
    else InUse(nodes[..|nodes| - 1]) + if nodes[|nodes| - 1] != 0 then [nodes[|nodes| - 1]] else []
  }

  lemma InUseNext(nodes: seq<nat>, i: nat)
    requires i < |nodes|
    ensures InUse(nodes[..i + 1]) == InUse(nodes[..i]) + if nodes[i] != 0 then [nodes[i]] else []
  {
    assert nodes[..i + 1][..i] == nodes[..i];
  }

  /** Sends a message to every node in use. Sending converts the buffer it is given, so each
      node gets a copy of its own: all of them decode the original message. */
  method SendToAll(nodes: seq<nat>, msg: Buffer) returns (wire: seq<(nat, Fields)>)
    ensures |wire| == |InUse(nodes)|
    ensures forall i :: 0 <= i < |wire| ==> wire[i].0 == InUse(nodes)[i] && Converted(wire[i].1) == msg.View()
    ensures Sized(msg.View()) ==>
              forall i :: 0 <= i < |wire| ==> Sized(wire[i].1) && Carries(Memory(wire[i].1), msg.View())
  {
    ghost var original := msg.View();
    wire := [];
    var i := 0;
    while i < |nodes|
      invariant i <= |nodes|
      invariant |wire| == |InUse(nodes[..i])|
      invariant forall k :: 0 <= k < |wire| ==> wire[k].0 == InUse(nodes[..i])[k] && Converted(wire[k].1) == original
      invariant msg.View() == original
    {
      InUseNext(nodes, i);
      if nodes[i] != 0 {
        var copy := new Buffer.CopyOf(msg.View());
        copy.Convert();
        ConversionRoundTrip(original);
        wire := wire + [(nodes[i], copy.View())];
      }
      i := i + 1;
    }
    assert nodes[..i] == nodes;
    if Sized(original) {
      forall k | 0 <= k < |wire| ensures Sized(wire[k].1) && Carries(Memory(wire[k].1), original) {
        ConversionRoundTrip(wire[k].1);
        ConvertedCarries(original);
      }
    }
  }
}
