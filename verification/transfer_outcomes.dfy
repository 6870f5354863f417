/** When a code transfer succeeds and when it fails, said of the messages that arrive alone. */
module TransferOutcomes {
  import opened Sequences
  import opened CodeTransfer

  function Missed(): Event -> bool { (e: Event) => e.missed }

  /** What ends a transfer in turn k without success: a read that gives no code, or the eleventh miss. */
  predicate Fatal(es: seq<Event>, k: nat)
    requires k < |es|
  {
    !es[k].read.Code? || (es[k].missed && Count(es[..k], Missed()) == 10)
  }

  predicate WaitingBefore(es: seq<Event>, k: nat)
    requires k <= |es|
  {
    AbsorbAll(FRESH, es[..k]).outcome.Waiting?
  }

  /** Turns before the last one are the same turns of the shorter run. */
  lemma FatalEarlier(es: seq<Event>, e: Event, k: nat)
    requires k < |es|
    ensures Fatal(es + [e], k) <==> Fatal(es, k)
    ensures WaitingBefore(es + [e], k) <==> WaitingBefore(es, k)
  {
    assert (es + [e])[..k] == es[..k];
  }

  lemma {:induction false} MissesAreCounted(es: seq<Event>)
    requires WaitingBefore(es, |es|)
    ensures AbsorbAll(FRESH, es).misses == Count(es, Missed())
    decreases |es|
  {
    assert es[..|es|] == es;
    if |es| > 0 {
      var n := |es| - 1;
      assert es == es[..n] + [es[n]] && es[..n][..n] == es[..n];
      AbsorbAllExtends(FRESH, es[..n], es[n]);
      CountAppend(es[..n], es[n], Missed());
      MissesAreCounted(es[..n]);
    }
  }

  /** A transfer fails if and only if, before it ends, a turn reads no code or misses its poll for the eleventh time. */
  lemma {:induction false} FailsIff(es: seq<Event>)
    ensures AbsorbAll(FRESH, es).outcome.Failed? <==> exists k :: 0 <= k < |es| && WaitingBefore(es, k) && Fatal(es, k)
    decreases |es|
  {
    if |es| > 0 {
      var n := |es| - 1;
      var before, e := es[..n], es[n];
      assert es == before + [e];
      AbsorbAllExtends(FRESH, before, e);
      FailsIff(before);
      assert before[..n] == before && es[..n] == before;
      forall k | 0 <= k < n
        ensures (WaitingBefore(es, k) && Fatal(es, k)) == (WaitingBefore(before, k) && Fatal(before, k))
      {
        FatalEarlier(before, e, k);
      }
      if WaitingBefore(es, n) {
        MissesAreCounted(before);
        assert AbsorbAll(FRESH, es).outcome.Failed? <==> Fatal(es, n);
      }
    }
  }

  /** A repeated, late or early segment is skipped: without it the transfer would stand where it stands. */
  lemma {:induction false} StrayIsSkipped(before: seq<Event>, p: Packet, after: seq<Event>)
    requires p.seqNum != AbsorbAll(FRESH, before).current
    ensures AbsorbAll(FRESH, before + [Event(false, Code(p))] + after) == AbsorbAll(FRESH, before + after)
  {
    var e := Event(false, Code(p));
    AbsorbAllSplits(FRESH, before + [e], after);
    AbsorbAllExtends(FRESH, before, e);
    AbsorbAllSplits(FRESH, before, after);
  }

  lemma {:induction false} AbsorbAllSplits(r: Receiver, a: seq<Event>, b: seq<Event>)
    ensures AbsorbAll(r, a + b) == AbsorbAll(AbsorbAll(r, a), b)
    decreases |a|
  {
    if |a| == 0 {
      assert a + b == b;
    } else {
      assert (a + b)[1..] == a[1..] + b;
      AbsorbAllSplits(Absorb(r, a[0]), a[1..], b);
    }
  }

  // ----- success -----

  /** The numbers from `a` to `b`. */
  function Range(a: nat, b: nat): (s: seq<nat>)
    decreases b + 1 - a
  {
    if a > b then [] else [a] + Range(a + 1, b)
  }

  predicate OnlyCode(es: seq<Event>) {
    forall i :: 0 <= i < |es| ==> es[i].read.Code?
  }

  /** The segment numbers in the order in which they arrive. */
  function Numbers(es: seq<Event>): seq<nat>
    requires OnlyCode(es)
  {
    if |es| == 0 then [] else [es[0].read.p.seqNum] + Numbers(es[1..])
  }

  lemma {:induction false} EndedStays(r: Receiver, es: seq<Event>)
    requires !r.outcome.Waiting?
    ensures AbsorbAll(r, es) == r
    decreases |es|
  {
    if |es| > 0 { EndedStays(r, es[1..]); }
  }

  lemma {:induction false} ProgressIff(name: string, file: Bytes, r: Receiver, es: seq<Event>)
    requires InStep(file, r) && r.outcome.Waiting? && r.current <= NumSegments(|file|)
    requires Authentic(name, file, es) && OnlyCode(es) && r.misses + Count(es, Missed()) <= 10
    ensures var z := AbsorbAll(r, es);
            && (z.outcome.Received? <==> Sublist(Range(r.current, NumSegments(|file|)), Numbers(es)))
            && (z.outcome.Received? || z.outcome.Waiting?)
    decreases |es|
  {
    var n := NumSegments(|file|);
    if |es| == 0 {
      if Sublist(Range(r.current, n), Numbers(es)) { SublistLength(Range(r.current, n), Numbers(es)); }
    } else {
      var s, rest := Absorb(r, es[0]), es[1..];
      assert AuthenticEvent(name, file, es[0]);
      AbsorbKeepsInStep(name, file, r, es[0]);
      assert forall i :: 0 <= i < |rest| ==> rest[i] == es[i + 1];
      NextNumberIff(r.current, n, es[0].read.p.seqNum, Numbers(rest));
      if es[0].read.p.seqNum == r.current == n {
        EndedStays(s, rest);
      } else {
        ProgressIff(name, file, s, rest);
      }
    }
  }

  /** The number that arrives is the one waited for, or does not matter. */
  lemma NextNumberIff(a: nat, b: nat, x: nat, rest: seq<nat>)
    requires a <= b
    ensures Sublist(Range(a, b), [x] + rest) <==> Sublist(Range(if x == a then a + 1 else a, b), rest)
    ensures x == a == b ==> Sublist(Range(a, b), [x] + rest)
  {
    SublistEmpty(rest);
    if x == a { SublistHead(a, Range(a + 1, b), rest); } else { SublistSkip(a, Range(a + 1, b), x, rest); }
  }

  /**
   * Whatever the network loses, repeats and reorders: if only answers for this file arrive and at most ten polls miss,
   * the transfer never fails, and it has succeeded exactly when the segments have all arrived in order, with anything
   * in between.
   */
  lemma {:induction false} ReceivedIff(name: string, file: Bytes, es: seq<Event>)
    requires Authentic(name, file, es) && OnlyCode(es) && Count(es, Missed()) <= 10 && NumSegments(|file|) >= 1
    ensures var z := AbsorbAll(FRESH, es);
            && (z.outcome.Received? <==> Sublist(Range(1, NumSegments(|file|)), Numbers(es)))
            && (z.outcome.Received? || z.outcome.Waiting?)
  {
    assert Prefix(file, 0) == [];
    ProgressIff(name, file, FRESH, es);
  }

  // ----- from the sender's reply to the receiver's file -----

  /** The replies to the requests for segments `from` to `upTo` arrive, in turn. */
  function Delivered(name: string, file: Bytes, from: Number, upTo: nat): (es: seq<PipeStep>)
    decreases upTo + 1 - from
  {
    if from > upTo then [] else [Arrive(Reply(name, file, from))] + Delivered(name, file, from + 1, upTo)
  }

  lemma {:induction false} DeliveredForName(name: string, file: Bytes, from: Number, upTo: nat)
    requires from <= upTo + 1
    ensures NoneEnds(Delivered(name, file, from, upTo), name)
    ensures Arrived(Delivered(name, file, from, upTo), name) == CodeRead(Answers(name, file, from, upTo))
    decreases upTo + 1 - from
  {
    if from <= upTo {
      var rest := Delivered(name, file, from + 1, upTo);
      DeliveredForName(name, file, from + 1, upTo);
      AnswersFirst(name, file, from, upTo);
      var all := Delivered(name, file, from, upTo);
      assert all[1..] == rest && forall i :: 1 <= i < |all| ==> all[i] == rest[i - 1];
    }
  }

  /**
   * Round trip: a receiver is entered for a file that nobody is receiving, and each of its requests is answered; the
   * replies go by their name to its pipe, and reading them it ends with the file that the sender read.
   */
  lemma {:induction false} AnsweredTransferArrives(cs: seq<Pipe>, name: string, file: Bytes)
    requires PipesFor(cs, name) == [] && 0 < |file| <= MAX_SEGMENTS * M
    ensures var n := NumSegments(|file|);
            var pipes := PipesFor(RunPipes(PipesAfter(cs, Open(name)), Delivered(name, file, 1, n)), name);
            var r := AbsorbAll(FRESH, Answers(name, file, 1, n));
            && |pipes| > 0 && pipes[0].written == CodeRead(Answers(name, file, 1, n))
            && r.outcome.Received? && r.file == file
  {
    var n := NumSegments(|file|);
    DeliveredForName(name, file, 1, n);
    NewReceiverGets(cs, Delivered(name, file, 1, n), name);
    NumSegmentsIsExactIff(|file|);
    assert Prefix(file, 0) == [];
    AnswersComplete(name, file, FRESH);
    AnswersAreAuthentic(name, file, 1, n);
    TransferIsSafe(name, file, Answers(name, file, 1, n));
  }
}
