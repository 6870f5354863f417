/** Code transfer from SendCode (sdm/tm/tm.cpp) to GetCode (sdm/pm/pm.cpp), over a network that may fail in any way. */
module CodeTransfer {
  import opened Ids
  import opened Sequences

  /** Size of the code buffer of a packet: BUFSIZE - MAX_FILENAME_SIZE - 21. */
  const M := 24139
  const MAX_SEGMENTS := 65535
  const MAX_POLL_MISSES := 10

  newtype Byte = b: int | 0 <= b < 256
  type Bytes = seq<Byte>

  /** Segments are numbered from one. */
  type Number = n: nat | n >= 1 witness 1

  datatype Packet = Packet(filename: string, seqNum: nat, numSegments: nat, code: Bytes)

  // ----- the sender -----

  /** How many segments it takes to carry a file. */
  function Segments(size: nat): nat { (size + M - 1) / M }

  /** The count put in packets: an unsigned short, incremented when the quotient falls short of the size. */
  function NumSegments(size: nat): (n: nat)
    ensures n <= MAX_SEGMENTS
  {
    var q := (size / M) % 65536;
    if size > q * M then (q + 1) % 65536 else q
  }

  /** What one read of the file returns at the offset of segment s. */
  function Segment(file: Bytes, s: Number): Bytes
  {
    if (s - 1) * M >= |file| then []
    else if s * M >= |file| then file[(s - 1) * M..]
    else file[(s - 1) * M..s * M]
  }

  /** The reply to a request for segment s. */
  function Reply(name: string, file: Bytes, s: Number): Packet
  {
    Packet(name, s, NumSegments(|file|), Segment(file, s))
  }

  /** The count is right for files of at most 65535 segments, and wraps for every larger one. */
  lemma NumSegmentsIsExactIff(size: nat)
    ensures NumSegments(size) == Segments(size) <==> size <= MAX_SEGMENTS * M
  {}

  function Payloads(ps: seq<Packet>): Bytes {
    if |ps| == 0 then [] else Payloads(ps[..|ps| - 1]) + ps[|ps| - 1].code
  }

  /** The single-segment branch of SendCode: seek, read, send. */
  method SendSegment(name: string, file: Bytes, s: Number) returns (p: Packet)
    requires s <= MAX_SEGMENTS
    ensures p == Reply(name, file, s)
  {
    var offset := (s - 1) * M;
    var length := if offset >= |file| then 0 else if |file| - offset < M then |file| - offset else M;
    var code := if length > 0 then file[offset..offset + length] else [];
    p := Packet(name, s, NumSegments(|file|), code);
  }

  /**
   * The streaming branch of SendCode: packets until a read returns nothing. There is one packet for each
   * segment, their payloads are the file, and each is what the single-segment branch sends for its number,
   * which wraps after 65535.
   */
  method SendWholeFile(name: string, file: Bytes) returns (sent: seq<Packet>)
    ensures |sent| == Segments(|file|)
    ensures Payloads(sent) == file
    ensures Streamed(name, file, sent)
  {
    sent := [];
    var sequence, position := 0, 0;
    var code := Read(file, position);
    while |code| > 0
      invariant code == Segment(file, |sent| + 1)
      invariant sequence == |sent| % 65536
      invariant |sent| > 0 ==> (|sent| - 1) * M < |file|
      invariant position == |Prefix(file, |sent|)|
      invariant Payloads(sent) == Prefix(file, |sent|)
      invariant Streamed(name, file, sent)
      decreases |file| - position
    {
      NextNumber(|sent|);
      SegmentIsThere(file, |sent| + 1);
      sequence := (sequence + 1) % 65536;
      sent := StreamOne(name, file, sent, sequence);
      position := position + |code|;
      ReadIsSegment(file, |sent| + 1);
      code := Read(file, position);
    }
    StreamEnds(file, |sent|);
  }

  lemma NextNumber(n: nat)
    ensures (n % 65536 + 1) % 65536 == (n + 1) % 65536
  {}

  lemma SegmentIsThere(file: Bytes, s: Number)
    ensures Segment(file, s) != [] <==> (s - 1) * M < |file|
  {}

  /** The packets of the streaming branch, number by number. */
  ghost predicate Streamed(name: string, file: Bytes, sent: seq<Packet>) {
    forall k :: 0 <= k < |sent| ==> sent[k] == Reply(name, file, k + 1).(seqNum := (k + 1) % 65536)
  }

  /** Sends the segment just read as the next packet. */
  method StreamOne(name: string, file: Bytes, sent: seq<Packet>, sequence: nat) returns (r: seq<Packet>)
    requires Streamed(name, file, sent) && Payloads(sent) == Prefix(file, |sent|)
    requires sequence == (|sent| + 1) % 65536
    ensures |r| == |sent| + 1 && Streamed(name, file, r) && Payloads(r) == Prefix(file, |r|)
    ensures |Prefix(file, |r|)| == |Prefix(file, |sent|)| + |Segment(file, |r|)|
  {
    var p := Packet(name, sequence, NumSegments(|file|), Segment(file, |sent| + 1));
    r := sent + [p];
    PrefixGrows(file, |r|);
    PayloadsMore(sent, p);
  }

  lemma PayloadsMore(sent: seq<Packet>, p: Packet)
    ensures Payloads(sent + [p]) == Payloads(sent) + p.code
  {
    assert (sent + [p])[..|sent|] == sent;
  }

  lemma StreamEnds(file: Bytes, n: nat)
    requires Segment(file, n + 1) == [] && (n > 0 ==> (n - 1) * M < |file|)
    ensures n == Segments(|file|) && Prefix(file, n) == file
  {}

  /** At most M bytes from the current offset; none at the end of the file. */
  function Read(file: Bytes, position: nat): Bytes
    requires position <= |file|
  {
    if |file| - position < M then file[position..] else file[position..position + M]
  }

  function Prefix(file: Bytes, segments: nat): Bytes {
    if segments * M <= |file| then file[..segments * M] else file
  }

  lemma ReadIsSegment(file: Bytes, s: Number)
    ensures Read(file, |Prefix(file, s - 1)|) == Segment(file, s)
  {}

  lemma PrefixGrows(file: Bytes, s: Number)
    ensures Prefix(file, s - 1) + Segment(file, s) == Prefix(file, s)
    ensures |Prefix(file, s)| == |Prefix(file, s - 1)| + |Segment(file, s)|
  {}

  // ----- the receiver -----

  /** What poll and read give to one turn of the receiving loop. */
  datatype Event = Event(missed: bool, read: ReadResult)
  datatype ReadResult = ReadError | OtherMessage | Code(p: Packet)

  /** How GetCode stands: `Aborted` is the one return that leaves its entry in the list of receivers. */
  datatype Outcome = Waiting | Received | Failed | Aborted

  /** The receiver between two turns; `outcome` is set when GetCode has returned. */
  datatype Receiver = Receiver(current: Number, misses: nat, file: Bytes, outcome: Outcome)

  const FRESH := Receiver(1, 0, [], Waiting)

  /** Writing at an offset: a gap after the end of the file reads as zeros. */
  function WriteAt(file: Bytes, offset: nat, data: Bytes): Bytes {
    if |data| == 0 then file
    else
      var padded := if offset <= |file| then file else file + seq(offset - |file|, i => 0);
      padded[..offset] + data + (if offset + |data| < |file| then file[offset + |data|..] else [])
  }

  /** A packet bearing the number asked for: refused if out of range, else written at its offset. */
  function Accepted(r: Receiver, p: Packet): (r': Receiver)
  {
    if r.current > p.numSegments then r.(outcome := Aborted)
    else
      Receiver(r.current + 1, r.misses, WriteAt(r.file, (r.current - 1) * M, p.code),
               if r.current >= p.numSegments then Received else Waiting)
  }

  /** One turn of the loop: poll, read, check, write. */
  function Absorb(r: Receiver, e: Event): (r': Receiver)
  {
    if !r.outcome.Waiting? then r
    else if e.missed && r.misses == MAX_POLL_MISSES then r.(misses := r.misses + 1, outcome := Failed)
    else
      var r := if e.missed then r.(misses := r.misses + 1) else r;
      match e.read
      case ReadError => r.(outcome := Failed)
      case OtherMessage => r.(outcome := Failed)
      case Code(p) => if p.seqNum != r.current then r else Accepted(r, p)
  }

  function AbsorbAll(r: Receiver, es: seq<Event>): (r': Receiver)
    decreases |es|
  {
    if |es| == 0 then r else AbsorbAll(Absorb(r, es[0]), es[1..])
  }

  lemma {:induction false} AbsorbAllExtends(r: Receiver, es: seq<Event>, e: Event)
    ensures AbsorbAll(r, es + [e]) == Absorb(AbsorbAll(r, es), e)
    decreases |es|
  {
    if |es| == 0 {
      assert es + [e] == [e] && [e][1..] == [];
    } else {
      assert (es + [e])[1..] == es[1..] + [e];
      AbsorbAllExtends(Absorb(r, es[0]), es[1..], e);
    }
  }

  /** GetCode: request, poll, read and write until the last segment, an error, or too many misses. */
  method GetCode(events: seq<Event>) returns (r: Receiver, requests: seq<nat>)
    ensures r == AbsorbAll(FRESH, events)
    ensures forall i :: 0 <= i < |requests| ==> i <= |events| && requests[i] == AbsorbAll(FRESH, events[..i]).current
    ensures r.outcome.Waiting? ==> |requests| == |events|
  {
    var cur, misses, file, outcome := 1, 0, [], Waiting;
    requests := [];
    var k := 0;
    while outcome.Waiting? && k < |events|
      invariant k <= |events| && cur >= 1 && |requests| == k
      invariant AbsorbAll(FRESH, events[..k]) == Receiver(cur, misses, file, outcome)
      invariant forall i :: 0 <= i < k ==> requests[i] == AbsorbAll(FRESH, events[..i]).current
    {
      requests := requests + [cur];
      var e := events[k];
      NextAbsorbed(events, k);
      k := k + 1;
      if e.missed {
        if misses == MAX_POLL_MISSES { outcome := Failed; }
        misses := misses + 1;
      }
      if outcome.Waiting? {
        cur, file, outcome := HandleReply(e, cur, misses, file);
      }
    }
    SettledStays(events, k);
    r := Receiver(cur, misses, file, outcome);
  }

  /** The read of one turn: anything but code ends the transfer, code for another request is skipped. */
  method HandleReply(e: Event, cur: Number, misses: nat, file: Bytes)
    returns (next: Number, after: Bytes, outcome: Outcome)
    ensures Receiver(next, misses, after, outcome) == Absorb(Receiver(cur, misses, file, Waiting), Event(false, e.read))
  {
    next, after, outcome := cur, file, Waiting;
    if !e.read.Code? { return cur, file, Failed; }
    var p := e.read.p;
    if p.seqNum != cur { return; }
    if p.seqNum > p.numSegments { return cur, file, Aborted; }
    after := WriteAt(file, (cur - 1) * M, p.code);
    if cur >= p.numSegments { outcome := Received; }
    next := cur + 1;
  }

  lemma NextAbsorbed(es: seq<Event>, k: nat)
    requires k < |es|
    ensures AbsorbAll(FRESH, es[..k + 1]) == Absorb(AbsorbAll(FRESH, es[..k]), es[k])
  {
    assert es[..k + 1] == es[..k] + [es[k]];
    AbsorbAllExtends(FRESH, es[..k], es[k]);
  }

  /** Once GetCode has returned, later messages change nothing. */
  lemma {:induction false} SettledStays(es: seq<Event>, k: nat)
    requires k <= |es|
    requires !AbsorbAll(FRESH, es[..k]).outcome.Waiting? || k == |es|
    ensures AbsorbAll(FRESH, es) == AbsorbAll(FRESH, es[..k])
    decreases |es| - k
  {
    if k == |es| {
      assert es[..k] == es;
    } else {
      NextAbsorbed(es, k);
      SettledStays(es, k + 1);
    }
  }

  // ----- safety -----

  /** Every code packet that arrives answers some request for this file; how often and when is up to the network. */
  ghost predicate Authentic(name: string, file: Bytes, es: seq<Event>) {
    forall i :: 0 <= i < |es| ==> AuthenticEvent(name, file, es[i])
  }

  ghost predicate AuthenticEvent(name: string, file: Bytes, e: Event) {
    e.read.Code? ==> AuthenticPacket(name, file, e.read.p)
  }

  ghost predicate AuthenticPacket(name: string, file: Bytes, p: Packet) {
    1 <= p.seqNum <= MAX_SEGMENTS && p == Reply(name, file, p.seqNum)
  }

  /** Before the request for segment k the receiver holds exactly the first k - 1 segments. */
  ghost predicate InStep(file: Bytes, r: Receiver) {
    && r.file == Prefix(file, r.current - 1)
    && (r.outcome.Waiting? ==> r.current == 1 || (r.current <= NumSegments(|file|) && (r.current - 1) * M <= |file|))
    && (r.outcome.Received? ==> r.current == NumSegments(|file|) + 1 && NumSegments(|file|) >= 1)
    && (r.outcome.Aborted? ==> r.current == 1 && NumSegments(|file|) == 0)
  }

  lemma SegmentExtendsPrefix(file: Bytes, s: Number)
    requires (s - 1) * M <= |file|
    ensures WriteAt(Prefix(file, s - 1), (s - 1) * M, Segment(file, s)) == Prefix(file, s)
  {}

  /** A segment number within the count starts inside the file. */
  lemma SegmentStartsInside(size: nat, s: nat)
    requires 1 <= s <= NumSegments(size)
    ensures (s - 1) * M <= size
  {}

  lemma AcceptKeepsInStep(name: string, file: Bytes, r: Receiver)
    requires InStep(file, r) && r.outcome.Waiting?
    ensures InStep(file, Accepted(r, Reply(name, file, r.current)))
  {
    if r.current <= NumSegments(|file|) {
      SegmentStartsInside(|file|, r.current);
      SegmentExtendsPrefix(file, r.current);
      if r.current < NumSegments(|file|) { SegmentStartsInside(|file|, r.current + 1); }
    }
  }

  lemma AbsorbKeepsInStep(name: string, file: Bytes, r: Receiver, e: Event)
    requires InStep(file, r) && AuthenticEvent(name, file, e)
    ensures InStep(file, Absorb(r, e))
  {
    if r.outcome.Waiting? && e.read.Code? && e.read.p.seqNum == r.current {
      AcceptKeepsInStep(name, file, if e.missed then r.(misses := r.misses + 1) else r);
    }
  }

  lemma {:induction false} AbsorbAllKeepsInStep(name: string, file: Bytes, r: Receiver, es: seq<Event>)
    requires InStep(file, r) && Authentic(name, file, es)
    ensures InStep(file, AbsorbAll(r, es))
    decreases |es|
  {
    if |es| > 0 {
      AbsorbKeepsInStep(name, file, r, es[0]);
      assert forall i :: 0 <= i < |es| - 1 ==> es[1..][i] == es[i + 1];
      AbsorbAllKeepsInStep(name, file, Absorb(r, es[0]), es[1..]);
    }
  }

  /**
   * Safety under any behaviour of the network: whatever arrives, the receiver holds exactly the first
   * segments of the file, and a transfer that succeeded holds the whole file if and only if the file has at
   * most 65535 segments.
   */
  lemma {:induction false} TransferIsSafe(name: string, file: Bytes, es: seq<Event>)
    requires Authentic(name, file, es)
    ensures var r := AbsorbAll(FRESH, es);
            && r.file == Prefix(file, r.current - 1)
            && (r.outcome.Received? ==> (r.file == file <==> |file| <= MAX_SEGMENTS * M))
  {
    assert Prefix(file, 0) == [];
    AbsorbAllKeepsInStep(name, file, FRESH, es);
    var r := AbsorbAll(FRESH, es);
    if r.outcome.Received? {
      NumSegmentsIsExactIff(|file|);
      if |file| > MAX_SEGMENTS * M {
        assert |r.file| == NumSegments(|file|) * M <= MAX_SEGMENTS * M;
      }
    }
  }

  // ----- the network at its best -----

  /** Every request answered once, in order. */
  function Answers(name: string, file: Bytes, from: nat, upTo: nat): (es: seq<Event>)
    requires 1 <= from <= upTo + 1
    decreases upTo + 1 - from
  {
    if from == upTo + 1 then [] else [Event(false, Code(Reply(name, file, from)))] + Answers(name, file, from + 1, upTo)
  }

  lemma {:induction false} AnswersAreAuthentic(name: string, file: Bytes, from: nat, upTo: nat)
    requires 1 <= from <= upTo + 1 && upTo <= MAX_SEGMENTS
    ensures Authentic(name, file, Answers(name, file, from, upTo))
    decreases upTo + 1 - from
  {
    if from <= upTo {
      AnswersAreAuthentic(name, file, from + 1, upTo);
      var rest := Answers(name, file, from + 1, upTo);
      var all := Answers(name, file, from, upTo);
      assert forall i :: 1 <= i < |all| ==> all[i] == rest[i - 1];
    }
  }

  lemma {:induction false} AnswersComplete(name: string, file: Bytes, r: Receiver)
    requires InStep(file, r) && r.outcome.Waiting? && r.current <= NumSegments(|file|)
    ensures AbsorbAll(r, Answers(name, file, r.current, NumSegments(|file|))).outcome.Received?
    decreases NumSegments(|file|) - r.current
  {
    var n := NumSegments(|file|);
    var e := Event(false, Code(Reply(name, file, r.current)));
    AnswersFirst(name, file, r.current, n);
    AbsorbKeepsInStep(name, file, r, e);
    if r.current < n {
      AnswersComplete(name, file, Absorb(r, e));
    } else {
      assert Answers(name, file, n + 1, n) == [];
    }
  }

  lemma AnswersFirst(name: string, file: Bytes, from: nat, upTo: nat)
    requires 1 <= from <= upTo
    ensures var es := Answers(name, file, from, upTo);
            |es| > 0 && es[0] == Event(false, Code(Reply(name, file, from)))
            && es[1..] == Answers(name, file, from + 1, upTo)
  {}

  /** The first request is refused for good when the announced count is zero: an empty file, or a count that wrapped. */
  lemma {:induction false} ZeroCountNeverSucceeds(name: string, file: Bytes, es: seq<Event>)
    requires Authentic(name, file, es) && NumSegments(|file|) == 0
    ensures !AbsorbAll(FRESH, es).outcome.Received?
  {
    assert Prefix(file, 0) == [];
    AbsorbAllKeepsInStep(name, file, FRESH, es);
  }

  /**
   * Round trip: for some behaviour of the network the receiver ends with the very file the sender read, if
   * and only if the file is not empty and has at most 65535 segments.
   */
  lemma RoundTripIff(name: string, file: Bytes)
    ensures (exists es :: Authentic(name, file, es)
                          && AbsorbAll(FRESH, es).outcome.Received? && AbsorbAll(FRESH, es).file == file)
            <==> 0 < |file| <= MAX_SEGMENTS * M
  {
    NumSegmentsIsExactIff(|file|);
    if 0 < |file| <= MAX_SEGMENTS * M {
      var es := Answers(name, file, 1, NumSegments(|file|));
      AnswersAreAuthentic(name, file, 1, NumSegments(|file|));
      assert Prefix(file, 0) == [];
      AnswersComplete(name, file, FRESH);
      TransferIsSafe(name, file, es);
    }
    if es :| Authentic(name, file, es) && AbsorbAll(FRESH, es).outcome.Received? && AbsorbAll(FRESH, es).file == file {
      TransferIsSafe(name, file, es);
      if |file| == 0 { ZeroCountNeverSucceeds(name, file, es); }
    }
  }

  /** Some behaviour of the network makes GetCode abort exactly when the count is zero, and then no byte is written. */
  lemma AbortsIff(name: string, file: Bytes)
    ensures (exists es :: Authentic(name, file, es) && AbsorbAll(FRESH, es).outcome.Aborted?)
            <==> NumSegments(|file|) == 0
    ensures forall es :: Authentic(name, file, es) && AbsorbAll(FRESH, es).outcome.Aborted? ==>
                           AbsorbAll(FRESH, es).file == []
  {
    assert Prefix(file, 0) == [];
    forall es | Authentic(name, file, es)
      ensures InStep(file, AbsorbAll(FRESH, es))
    {
      AbsorbAllKeepsInStep(name, file, FRESH, es);
    }
    if NumSegments(|file|) == 0 {
      var e := Event(false, Code(Reply(name, file, 1)));
      assert Authentic(name, file, [e]) && [e][1..] == [];
      assert Absorb(FRESH, e).outcome.Aborted?;
      assert AbsorbAll(FRESH, [e]) == AbsorbAll(Absorb(FRESH, e), []) == Absorb(FRESH, e);
    }
  }

  // ----- dispatch to the waiting receivers -----

  /** One entry of codeReceivers: the file it waits for and what was written to its pipe. */
  datatype Pipe = Pipe(filename: string, written: seq<Packet>)

  function WaitsFor(name: string): Pipe -> bool { (c: Pipe) => c.filename == name }

  /** The receivers waiting for one file, in the order in which they were entered. */
  function PipesFor(cs: seq<Pipe>, name: string): seq<Pipe> { Filter(cs, WaitsFor(name)) }

  function Dispatched(cs: seq<Pipe>, p: Packet): seq<Pipe> {
    var i := First(cs, WaitsFor(p.filename));
    if i < |cs| then cs[i := cs[i].(written := cs[i].written + [p])] else cs
  }

  /** RemoveCodeReceiver goes by the name alone. */
  function Closed(cs: seq<Pipe>, name: string): seq<Pipe> {
    var i := First(cs, WaitsFor(name));
    if i < |cs| then cs[..i] + cs[i + 1..] else cs
  }

  /** A task handler enters a receiver; a code message arrives; a transfer ends and removes a receiver. */
  datatype PipeStep = Open(name: string) | Arrive(p: Packet) | Close(name: string)

  function PipesAfter(cs: seq<Pipe>, e: PipeStep): seq<Pipe> {
    match e
    case Open(name) => cs + [Pipe(name, [])]
    case Arrive(p) => Dispatched(cs, p)
    case Close(name) => Closed(cs, name)
  }

  function RunPipes(cs: seq<Pipe>, es: seq<PipeStep>): seq<Pipe>
    decreases |es|
  {
    if |es| == 0 then cs else RunPipes(PipesAfter(cs, es[0]), es[1..])
  }

  /** HandleCodeMessage: the first receiver waiting for this file gets the message, and no other. */
  method HandleCodeMessage(cs: seq<Pipe>, p: Packet) returns (r: seq<Pipe>)
    ensures r == Dispatched(cs, p)
  {
    var i := 0;
    while i < |cs|
      invariant 0 <= i <= |cs|
      invariant forall k :: 0 <= k < i ==> !WaitsFor(p.filename)(cs[k])
    {
      if cs[i].filename == p.filename { break; }
      i := i + 1;
    }
    assert i == First(cs, WaitsFor(p.filename));
    r := if i < |cs| then cs[i := Pipe(cs[i].filename, cs[i].written + [p])] else cs;
  }

  /** RemoveCodeReceiver: the first receiver waiting for this file is taken out, whichever transfer has ended. */
  method RemoveCodeReceiver(cs: seq<Pipe>, name: string) returns (r: seq<Pipe>)
    ensures r == Closed(cs, name)
  {
    var i := 0;
    while i < |cs|
      invariant 0 <= i <= |cs|
      invariant forall k :: 0 <= k < i ==> !WaitsFor(name)(cs[k])
    {
      if cs[i].filename == name { return cs[..i] + cs[i + 1..]; }
      i := i + 1;
    }
    return cs;
  }

  /** What a step does to the receivers of one file. */
  function QueueAfter(q: seq<Pipe>, e: PipeStep, name: string): seq<Pipe> {
    match e
    case Open(n) => if n == name then q + [Pipe(name, [])] else q
    case Arrive(p) => if p.filename == name && |q| > 0 then [q[0].(written := q[0].written + [p])] + q[1..] else q
    case Close(n) => if n == name && |q| > 0 then q[1..] else q
  }

  lemma PipesForMore(c: Pipe, cs: seq<Pipe>, name: string)
    ensures var q := PipesFor([c] + cs, name);
            if c.filename == name then q == [c] + PipesFor(cs, name) && q[1..] == PipesFor(cs, name)
            else q == PipesFor(cs, name)
  {
    assert ([c] + cs)[1..] == cs;
  }

  lemma DispatchedMore(c: Pipe, cs: seq<Pipe>, p: Packet)
    ensures Dispatched([c] + cs, p)
            == if c.filename == p.filename then [c.(written := c.written + [p])] + cs else [c] + Dispatched(cs, p)
  {
    assert ([c] + cs)[1..] == cs;
  }

  lemma ClosedMore(c: Pipe, cs: seq<Pipe>, n: string)
    ensures Closed([c] + cs, n) == if c.filename == n then cs else [c] + Closed(cs, n)
  {
    assert ([c] + cs)[1..] == cs;
  }

  lemma {:induction false} ArrivalOnOneFile(cs: seq<Pipe>, p: Packet, name: string)
    ensures PipesFor(Dispatched(cs, p), name) == QueueAfter(PipesFor(cs, name), Arrive(p), name)
  {
    if |cs| > 0 {
      var c, rest := cs[0], cs[1..];
      assert cs == [c] + rest;
      DispatchedMore(c, rest, p);
      ArrivalOnOneFile(rest, p, name);
      PipesForMore(c, rest, name);
      PipesForMore(c.(written := c.written + [p]), rest, name);
      PipesForMore(c, Dispatched(rest, p), name);
    }
  }

  lemma {:induction false} ClosingOnOneFile(cs: seq<Pipe>, n: string, name: string)
    ensures PipesFor(Closed(cs, n), name) == QueueAfter(PipesFor(cs, name), Close(n), name)
  {
    if |cs| > 0 {
      var c, rest := cs[0], cs[1..];
      assert cs == [c] + rest;
      ClosedMore(c, rest, n);
      ClosingOnOneFile(rest, n, name);
      PipesForMore(c, rest, name);
      PipesForMore(c, Closed(rest, n), name);
    }
  }

  /** The receivers of a file are served as a queue, and what happens to other files does not matter to them. */
  lemma StepOnOneFile(cs: seq<Pipe>, e: PipeStep, name: string)
    ensures PipesFor(PipesAfter(cs, e), name) == QueueAfter(PipesFor(cs, name), e, name)
  {
    match e {
      case Open(n) => FilterConcat(cs, [Pipe(n, [])], WaitsFor(name));
      case Arrive(p) => ArrivalOnOneFile(cs, p, name);
      case Close(n) => ClosingOnOneFile(cs, n, name);
    }
  }

  /** The packets of a file that arrive in a run. */
  function Arrived(es: seq<PipeStep>, name: string): seq<Packet> {
    if |es| == 0 then []
    else Brought(es[0], name) + Arrived(es[1..], name)
  }

  /** What one step brings to the first receiver of a file. */
  function Brought(e: PipeStep, name: string): seq<Packet> {
    if e.Arrive? && e.p.filename == name then [e.p] else []
  }

  function Opens(name: string): PipeStep -> bool { (e: PipeStep) => e == Open(name) }

  lemma QueueGrows(q: seq<Pipe>, e: PipeStep, name: string)
    requires |q| > 0 && e != Close(name)
    ensures var r := QueueAfter(q, e, name);
            && |r| == |q| + (if Opens(name)(e) then 1 else 0) && r[0].written == q[0].written + Brought(e, name)
            && forall i :: 1 <= i < |r| ==> r[i].written == if i < |q| then q[i].written else []
  {}

  /** No transfer of the file ends. */
  predicate NoneEnds(es: seq<PipeStep>, name: string) {
    forall i :: 0 <= i < |es| ==> es[i] != Close(name)
  }

  /**
   * Over any run in which no transfer of a file ends, the first receiver for it gets exactly the packets of that file,
   * in order, and the others get nothing, whatever other files are being received beside it.
   */
  lemma {:induction false} PipesSeparateFiles(cs: seq<Pipe>, es: seq<PipeStep>, name: string)
    requires |PipesFor(cs, name)| > 0 && NoneEnds(es, name)
    ensures var q, r := PipesFor(cs, name), PipesFor(RunPipes(cs, es), name);
            && |r| == |q| + Count(es, Opens(name)) && r[0].written == q[0].written + Arrived(es, name)
            && forall i :: 1 <= i < |r| ==> r[i].written == if i < |q| then q[i].written else []
    decreases |es|
  {
    if |es| > 0 {
      var q := PipesFor(cs, name);
      assert forall i :: 0 <= i < |es| - 1 ==> es[1..][i] == es[i + 1];
      StepOnOneFile(cs, es[0], name);
      QueueGrows(q, es[0], name);
      PipesSeparateFiles(PipesAfter(cs, es[0]), es[1..], name);
      ConcatAssociates(q[0].written, Brought(es[0], name), Arrived(es[1..], name));
    }
  }

  /** What a new receiver finds in its pipe: all packets of its file if nobody waited for it before, otherwise none. */
  lemma {:induction false} NewReceiverGets(cs: seq<Pipe>, es: seq<PipeStep>, name: string)
    requires NoneEnds(es, name)
    ensures var n := |PipesFor(cs, name)|;
            var r := PipesFor(RunPipes(PipesAfter(cs, Open(name)), es), name);
            n < |r| && r[n].written == if n == 0 then Arrived(es, name) else []
  {
    StepOnOneFile(cs, Open(name), name);
    PipesSeparateFiles(PipesAfter(cs, Open(name)), es, name);
  }

  // ----- a transfer through its own pipe -----

  /** The code packets that the turns of GetCode read. */
  function CodeRead(es: seq<Event>): seq<Packet> {
    if |es| == 0 then [] else (if es[0].read.Code? then [es[0].read.p] else []) + CodeRead(es[1..])
  }

  lemma {:induction false} ReadsAreAuthentic(name: string, file: Bytes, es: seq<Event>)
    requires forall p :: p in CodeRead(es) ==> AuthenticPacket(name, file, p)
    ensures Authentic(name, file, es)
  {
    if |es| > 0 {
      assert forall p :: p in CodeRead(es[1..]) ==> p in CodeRead(es);
      if es[0].read.Code? { assert CodeRead(es)[0] == es[0].read.p; }
      ReadsAreAuthentic(name, file, es[1..]);
      assert forall i :: 1 <= i < |es| ==> es[i] == es[1..][i - 1];
    }
  }

  /**
   * A receiver is entered for a file that nobody is receiving, other transfers start, run and end beside it, and it
   * reads what was written to its pipe. If every packet of its file answers some request for it, the transfer is safe,
   * whatever packets of other files arrive.
   */
  lemma {:induction false} TransferThroughPipeIsSafe(
      cs: seq<Pipe>, steps: seq<PipeStep>, name: string, file: Bytes, es: seq<Event>)
    requires PipesFor(cs, name) == [] && NoneEnds(steps, name)
    requires forall p :: p in Arrived(steps, name) ==> AuthenticPacket(name, file, p)
    requires var r := PipesFor(RunPipes(PipesAfter(cs, Open(name)), steps), name);
             |r| > 0 && CodeRead(es) <= r[0].written
    ensures var r := AbsorbAll(FRESH, es);
            && r.file == Prefix(file, r.current - 1)
            && (r.outcome.Received? ==> (r.file == file <==> |file| <= MAX_SEGMENTS * M))
  {
    NewReceiverGets(cs, steps, name);
    assert forall p :: p in CodeRead(es) ==> p in Arrived(steps, name);
    ReadsAreAuthentic(name, file, es);
    TransferIsSafe(name, file, es);
  }

  /** What GetCode does to the list of receivers when it returns: one of its returns leaves the entry where it is. */
  function Ended(name: string, outcome: Outcome): seq<PipeStep> {
    if outcome.Received? || outcome.Failed? then [Close(name)] else []
  }

  /** A file that only one transfer was for has no receiver left after it, exactly when it did not abort. */
  lemma {:induction false} NoReceiverIsLeftIff(cs: seq<Pipe>, steps: seq<PipeStep>, name: string, outcome: Outcome)
    requires PipesFor(cs, name) == [] && NoneEnds(steps, name) && Count(steps, Opens(name)) == 0 && !outcome.Waiting?
    ensures PipesFor(RunPipes(RunPipes(PipesAfter(cs, Open(name)), steps), Ended(name, outcome)), name) == []
            <==> !outcome.Aborted?
  {
    var one := PipesAfter(cs, Open(name));
    StepOnOneFile(cs, Open(name), name);
    PipesSeparateFiles(one, steps, name);
    StepOnOneFile(RunPipes(one, steps), Close(name), name);
    assert [Close(name)][1..] == [];
  }

  lemma {:induction false} NothingRead(r: Receiver, es: seq<Event>)
    requires CodeRead(es) == []
    ensures AbsorbAll(r, es).current == r.current && AbsorbAll(r, es).file == r.file
    ensures AbsorbAll(r, es).outcome.Received? ==> r.outcome.Received?
    decreases |es|
  {
    if |es| > 0 {
      assert !es[0].read.Code?;
      NothingRead(Absorb(r, es[0]), es[1..]);
    }
  }

  /**
   * An entry that an aborted transfer left behind: until some transfer of the file ends, no later receiver for it reads
   * a single packet, and none succeeds, whatever the Task Manager now sends.
   */
  lemma {:induction false} StaleEntryStarves(cs: seq<Pipe>, steps: seq<PipeStep>, name: string, es: seq<Event>)
    requires |PipesFor(cs, name)| > 0 && NoneEnds(steps, name)
    requires var n := |PipesFor(cs, name)|;
             var r := PipesFor(RunPipes(PipesAfter(cs, Open(name)), steps), name);
             n < |r| && CodeRead(es) <= r[n].written
    ensures AbsorbAll(FRESH, es).file == [] && !AbsorbAll(FRESH, es).outcome.Received?
  {
    NewReceiverGets(cs, steps, name);
    NothingRead(FRESH, es);
  }
}
