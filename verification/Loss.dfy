/** From the sender's counter to the receiver's statuses: what a gap says about loss. */
module Loss {
  import opened Wrappers
  import opened Raw
  import opened Wire
  import opened Sequence
  import opened History
  import P = Parser

  /** The sender's step (examples/udp_sender.rs). */
  function NextSequence(sequence: u8): u8
    requires sequence < 16
  {
    Nibble(sequence + 1)
  }

  /** The sender's counter after `n` packets. */
  function SenderAfter(sequence: u8, n: nat): (r: u8)
    requires sequence < 16
    ensures r < 16
  {
    if n == 0 then sequence else NextSequence(SenderAfter(sequence, n - 1))
  }

  lemma {:induction false} SenderCounts(sequence: u8, n: nat)
    requires sequence < 16
    ensures SenderAfter(sequence, n) == (sequence + n) % 16
  {
    if n > 0 {
      SenderCounts(sequence, n - 1);
      NextNibble(sequence + (n - 1));
    }
  }

  lemma SenderNibble(sequence: u8, n: nat)
    requires sequence < 16
    ensures SenderAfter(sequence, n) == Nibble(sequence + n)
  {
    SenderCounts(sequence, n);
  }

  /** The number of lost packets that a status states. */
  function ReportedLoss(status: SequenceStatus): nat {
    match status
    case Gap(expected, actual) => Nibble(actual - expected)
    case _ => 0
  }

  /** What a receiver says when the sender has emitted `d` packets in between, all lost. */
  predicate ReportsLoss(status: SequenceStatus, d: nat) {
    && (status.InOrder? <==> d % 16 == 0)
    && (status.Duplicate? <==> d % 16 == 15)
    && (status.Gap? <==> 1 <= d % 16 <= 14)
    && (status.Gap? ==> ReportedLoss(status) == d % 16)
  }

  lemma StatusReportsLoss(previous: u8, d: nat)
    requires previous < 16
    ensures ReportsLoss(StatusAfter(Some(previous), SenderAfter(previous, d + 1)), d)
  {
    hide Nibble, StatusAfter, ReportedLoss, SenderAfter;
    SenderNibble(previous, d + 1);
    var m, q := d % 16, d / 16;
    assert previous + (d + 1) == 16 * q + (previous + m + 1);
    SameNibble(previous + m + 1, q);
    StatusOfResidue(previous, m);
  }

  lemma StatusOfResidue(previous: u8, m: u8)
    requires previous < 16 && m < 16
    ensures var status := StatusAfter(Some(previous), Nibble(previous + m + 1));
            && (status.InOrder? <==> m == 0)
            && (status.Duplicate? <==> m == 15)
            && (status.Gap? <==> 1 <= m <= 14)
            && (status.Gap? ==> ReportedLoss(status) == m)
  {
    hide Nibble;
    var expected: int, actual: int := Nibble(previous + 1), Nibble(previous + m + 1);
    NibbleNear(previous + 1);
    NibbleNear(previous + m + 1);
    NibbleNear(actual - expected);
  }

  lemma NibbleNear(x: int)
    requires -16 <= x < 32
    ensures Nibble(x) == if x < 0 then x + 16 else if x < 16 then x else x - 16
  {
  }

  lemma SameNibble(x: int, q: int)
    ensures Nibble(16 * q + x) == Nibble(x)
  {
  }

  /** The event neither resets the tracker nor delivers an accepted packet of this packet's stream. */
  predicate Unrelated(event: Event, p: Packet, options: ParseOptions) {
    match event
    case Reset => false
    case Datagram(b) =>
      match P.ParseExact(b, options)
      case Err(_) => true
      case Ok(other) => !SameStream(other, p)
  }

  predicate Delivers(event: Event, p: Packet, options: ParseOptions) {
    event.Datagram? && P.ParseExact(event.bytes, options) == Ok(p)
  }

  lemma {:induction false} StoredUntil(events: seq<Event>, i: nat, j: nat, p: Packet, options: ParseOptions)
    requires i < j <= |events| && Delivers(events[i], p, options)
    requires forall k | i < k < j :: Unrelated(events[k], p, options)
    ensures Lookup(StateAfter(events[..j], options), KeyOf(p)) == Some(Nibble(p.Prologue().header.sequence))
  {
    hide P.ParseExact;
    assert events[..j][..j - 1] == events[..j - 1];
    if j > i + 1 {
      StoredUntil(events, i, j - 1, p, options);
      assert Unrelated(events[j - 1], p, options);
    }
  }

  /**
   Between two accepted packets of one stream, with any rejected datagrams and any
   packets of other streams in between, the second status is settled by their two numbers.
   If the sender has counted on by `d + 1`, it states the loss modulo 16:
   `InOrder` for a multiple of 16, `Duplicate` for one less than a multiple of 16,
   and otherwise a gap of exactly that size.
   */
  lemma LossIsReported(events: seq<Event>, i: nat, j: nat, p: Packet, q: Packet, d: nat, options: ParseOptions)
    requires i < j < |events|
    requires Delivers(events[i], p, options) && Delivers(events[j], q, options) && SameStream(p, q)
    requires forall k | i < k < j :: Unrelated(events[k], p, options)
    ensures OutcomeAt(events, j, options).Ok?
    ensures var status := OutcomeAt(events, j, options).value.sequenceStatus;
            var previous, sequence := p.Prologue().header.sequence, q.Prologue().header.sequence;
            && Settled(status, previous, sequence)
            && (sequence == (previous + d + 1) % 16 ==>
                  ReportsLoss(status, d) && (1 <= d <= 14 ==> ReportedLoss(status) == d))
  {
    hide P.ParseExact, StateAfter, ReportsLoss, ReportedLoss, StatusAfter, Settled, Nibble;
    var previous, sequence := p.Prologue().header.sequence, q.Prologue().header.sequence;
    StoredUntil(events, i, j, p, options);
    var status := OutcomeAt(events, j, options).value.sequenceStatus;
    assert status == StatusAfter(Some(Nibble(previous)), Nibble(sequence));
    StatusIsSettled(Nibble(previous), sequence);
    SettledModulo(status, previous, sequence);
    if sequence == (previous + d + 1) % 16 {
      StatusReportsLoss(Nibble(previous), d);
      SenderCounts(Nibble(previous), d + 1);
      SameCount(previous, d);
      NibbleOfNibble(sequence);
      GapOfLoss(status, d);
    }
  }

  lemma SameCount(previous: u8, d: nat)
    ensures (Nibble(previous) + (d + 1)) % 16 == (previous + d + 1) % 16
  {
  }

  lemma NibbleOfNibble(s: u8)
    ensures s < 16 ==> Nibble(s) == s
  {
  }

  lemma GapOfLoss(status: SequenceStatus, d: nat)
    requires ReportsLoss(status, d)
    ensures 1 <= d <= 14 ==> ReportedLoss(status) == d
  {
  }

  // ---- a whole stream ----

  /**
   What reaches the receiver of one key when the sender starts at `start` and,
   after each packet received, `losses[i]` packets are lost before the next.
   */
  function Received(key: SequenceKey, start: u8, losses: seq<nat>): (obs: seq<Observation>)
    requires start < 16
    ensures |obs| == |losses| + 1
    ensures obs[|losses|].key == key && obs[|losses|].sequence < 16
  {
    if losses == [] then [Observation(key, start)] else
    var n := |losses| - 1;
    var before := Received(key, start, losses[..n]);
    before + [Observation(key, SenderAfter(before[n].sequence, losses[n] + 1))]
  }

  function TotalLost(losses: seq<nat>): nat {
    if losses == [] then 0 else TotalLost(losses[..|losses| - 1]) + losses[|losses| - 1]
  }

  function TotalReported(ss: seq<SequenceStatus>): nat {
    if ss == [] then 0 else TotalReported(ss[..|ss| - 1]) + ReportedLoss(ss[|ss| - 1])
  }

  predicate ShortBursts(losses: seq<nat>) {
    forall i | 0 <= i < |losses| :: losses[i] <= 14
  }

  lemma {:induction false} ReceivedIsAccounted(key: SequenceKey, start: u8, losses: seq<nat>)
    requires start < 16
    ensures var reported := TotalReported(Statuses(Received(key, start, losses)));
            reported <= TotalLost(losses) && (reported == TotalLost(losses) <==> ShortBursts(losses))
  {
    hide Nibble, ReportedLoss, SenderAfter, StatusAfter, Lookup, ReportsLoss, TotalReported, TotalLost, ShortBursts,
      Statuses;
    var obs := Received(key, start, losses);
    if losses == [] {
      SingleIsFirst(obs[0]);
      assert obs == [obs[0]];
      NothingLost();
    } else {
      var n := |losses| - 1;
      var before := Received(key, start, losses[..n]);
      ReceivedIsAccounted(key, start, losses[..n]);
      assert obs == before + [obs[n + 1]];
      assert IsLastOf(before, key, n);
      StatusAfterLast(before, obs[n + 1]);
      NibbleOfNibble(before[n].sequence);
      NibbleOfNibble(obs[n + 1].sequence);
      StatusReportsLoss(before[n].sequence, losses[n]);
      BurstIsAccounted(StatusOf(before, obs[n + 1]), losses[n]);
      AddReported(before, obs[n + 1]);
      AddLost(losses);
    }
  }

  lemma AddReported(obs: seq<Observation>, o: Observation)
    ensures TotalReported(Statuses(obs + [o])) == TotalReported(Statuses(obs)) + ReportedLoss(StatusOf(obs, o))
  {
    hide ReportedLoss, StatusOf;
    assert (obs + [o])[..|obs|] == obs;
    var ss := Statuses(obs + [o]);
    assert ss[..|obs|] == Statuses(obs);
  }

  lemma AddLost(losses: seq<nat>)
    requires losses != []
    ensures var n := |losses| - 1;
            && TotalLost(losses) == TotalLost(losses[..n]) + losses[n]
            && (ShortBursts(losses) <==> ShortBursts(losses[..n]) && losses[n] <= 14)
  {
  }

  lemma SingleIsFirst(o: Observation)
    ensures TotalReported(Statuses([o])) == 0
  {
    assert [o][..0] == [];
    assert Statuses([o]) == [First];
  }

  lemma NothingLost()
    ensures TotalLost([]) == 0 && ShortBursts([])
  {
  }

  lemma BurstIsAccounted(status: SequenceStatus, d: nat)
    requires ReportsLoss(status, d)
    ensures ReportedLoss(status) <= d && (ReportedLoss(status) == d <==> d <= 14)
  {
  }

  /**
   Over any interleaving with other keys, the losses reported for one key never
   exceed the packets really lost, and account for all of them exactly when no
   burst is longer than 14.
   */
  lemma LossIsAccounted(obs: seq<Observation>, key: SequenceKey, start: u8, losses: seq<nat>)
    requires start < 16 && Project(obs, key) == Received(key, start, losses)
    ensures var reported := TotalReported(KeyStatuses(obs, key));
            reported <= TotalLost(losses) && (reported == TotalLost(losses) <==> ShortBursts(losses))
  {
    KeysAreIndependent(obs, key);
    ReceivedIsAccounted(key, start, losses);
  }

  // ---- a whole stream, as the stream parser answers it ----

  /** The statuses in the parser's answers to the accepted datagrams of one key. */
  function KeyAnswers(events: seq<Event>, key: SequenceKey, options: ParseOptions): seq<SequenceStatus> {
    if events == [] then [] else
    var n := |events| - 1;
    KeyAnswers(events[..n], key, options)
    + if events[n].Reset? then [] else
      match OutcomeAt(events, n, options)
      case Err(_) => []
      case Ok(answer) => if HasKey(answer.packet, key) then [answer.sequenceStatus] else []
  }

  predicate NoReset(events: seq<Event>) {
    forall i | 0 <= i < |events| :: events[i].Datagram?
  }

  lemma {:induction false} AnswersAreStatuses(events: seq<Event>, key: SequenceKey, options: ParseOptions)
    requires NoReset(events)
    ensures KeyAnswers(events, key, options) == KeyStatuses(Accepted(events, options), key)
  {
    hide P.ParseExact, StatusOf, OutcomeAt;
    if events != [] {
      var n := |events| - 1;
      AnswersAreStatuses(events[..n], key, options);
      StreamRefinesParserAndTracker(events, n, options);
      var before := Accepted(events[..n], options);
      if P.ParseExact(events[n].bytes, options).Ok? {
        assert Accepted(events, options)[..|before|] == before;
      }
    }
  }

  /**
   In a run of datagrams, with rejected ones and other keys in between, the losses that
   the answers report for one key never exceed the packets of that key really lost, and
   account for all of them exactly when no burst is longer than 14.
   */
  lemma StreamLossIsAccounted(
    events: seq<Event>, key: SequenceKey, start: u8, losses: seq<nat>, options: ParseOptions)
    requires start < 16 && NoReset(events)
    requires Project(Accepted(events, options), key) == Received(key, start, losses)
    ensures var reported := TotalReported(KeyAnswers(events, key, options));
            reported <= TotalLost(losses) && (reported == TotalLost(losses) <==> ShortBursts(losses))
  {
    AnswersAreStatuses(events, key, options);
    LossIsAccounted(Accepted(events, options), key, start, losses);
  }
}
