/** Whole runs of the sequence tracker and of the packet stream parser. */
module History {
  import opened Wrappers
  import opened Raw
  import opened Wire
  import opened Sequence
  import opened PacketStream
  import P = Parser

  datatype Observation = Observation(key: SequenceKey, sequence: u8)

  /** The state of a fresh tracker after a run of observations. */
  function Track(obs: seq<Observation>): (seen: Seen)
    ensures AllNibbles(seen)
  {
    if obs == [] then map[] else
    var n := |obs| - 1;
    Track(obs[..n])[obs[n].key := Nibble(obs[n].sequence)]
  }

  function StatusOf(before: seq<Observation>, o: Observation): SequenceStatus {
    StatusAfter(Lookup(Track(before), o.key), Nibble(o.sequence))
  }

  /** Every status that a fresh tracker reports over a run. */
  function Statuses(obs: seq<Observation>): (ss: seq<SequenceStatus>)
    ensures |ss| == |obs|
  {
    if obs == [] then [] else
    var n := |obs| - 1;
    Statuses(obs[..n]) + [StatusOf(obs[..n], obs[n])]
  }

  // ---- the state is the history ----

  /** Observation `i` is the last one of its key. */
  predicate IsLastOf(obs: seq<Observation>, key: SequenceKey, i: int) {
    0 <= i < |obs| && obs[i].key == key && forall j | i < j < |obs| :: obs[j].key != key
  }

  predicate NeverSeen(obs: seq<Observation>, key: SequenceKey) {
    forall i | 0 <= i < |obs| :: obs[i].key != key
  }

  /** A stored value is the key's last observed number; a key is absent iff it was never observed. */
  lemma {:induction false} StateIsHistory(obs: seq<Observation>, key: SequenceKey)
    ensures key !in Track(obs) <==> NeverSeen(obs, key)
    ensures forall i | IsLastOf(obs, key, i) :: Lookup(Track(obs), key) == Some(Nibble(obs[i].sequence))
  {
    hide Nibble;
    if obs != [] {
      var n := |obs| - 1;
      var front := obs[..n];
      StateIsHistory(front, key);
      forall i | IsLastOf(obs, key, i)
        ensures Lookup(Track(obs), key) == Some(Nibble(obs[i].sequence))
      {
        if i < n {
          assert IsLastOf(front, key, i);
          assert obs[n].key != key;
        }
      }
      if obs[n].key == key {
        assert !NeverSeen(obs, key);
      } else {
        assert forall i | 0 <= i < n :: obs[i] == front[i];
        assert NeverSeen(obs, key) <==> NeverSeen(front, key);
      }
    }
  }

  lemma StatusAfterLast(before: seq<Observation>, o: Observation)
    ensures StatusOf(before, o).First? <==> NeverSeen(before, o.key)
    ensures forall i | IsLastOf(before, o.key, i) ::
              StatusOf(before, o) == StatusAfter(Some(Nibble(before[i].sequence)), Nibble(o.sequence))
  {
    StateIsHistory(before, o.key);
  }

  /** So a status is settled by the key's last number before it, and is `First` if there is none. */
  lemma StatusIsHistory(before: seq<Observation>, o: Observation)
    ensures StatusOf(before, o).First? <==> NeverSeen(before, o.key)
    ensures forall i | IsLastOf(before, o.key, i) :: Settled(StatusOf(before, o), before[i].sequence, o.sequence)
  {
    hide StatusAfter, StatusOf, Nibble, Settled;
    StatusAfterLast(before, o);
    forall i | IsLastOf(before, o.key, i)
      ensures Settled(StatusOf(before, o), before[i].sequence, o.sequence)
    {
      StatusIsSettled(Nibble(before[i].sequence), o.sequence);
      SettledModulo(StatusOf(before, o), before[i].sequence, o.sequence);
    }
  }

  // ---- keys do not interfere ----

  /** The observations of one key, in order. */
  function Project(obs: seq<Observation>, key: SequenceKey): seq<Observation> {
    if obs == [] then [] else
    var n := |obs| - 1;
    Project(obs[..n], key) + if obs[n].key == key then [obs[n]] else []
  }

  /** The statuses that one key's observations receive in the interleaved run. */
  function KeyStatuses(obs: seq<Observation>, key: SequenceKey): seq<SequenceStatus> {
    if obs == [] then [] else
    var n := |obs| - 1;
    KeyStatuses(obs[..n], key) + if obs[n].key == key then [StatusOf(obs[..n], obs[n])] else []
  }

  lemma {:induction false} ProjectionKeepsState(obs: seq<Observation>, key: SequenceKey)
    ensures Lookup(Track(Project(obs, key)), key) == Lookup(Track(obs), key)
  {
    if obs != [] {
      var n := |obs| - 1;
      var front := obs[..n];
      ProjectionKeepsState(front, key);
      if obs[n].key == key {
        assert Project(obs, key)[..|Project(front, key)|] == Project(front, key);
      } else {
        assert Project(obs, key) == Project(front, key);
      }
    }
  }

  /** In any interleaving, one key's statuses are those of its own subsequence run alone. */
  lemma {:induction false} KeysAreIndependent(obs: seq<Observation>, key: SequenceKey)
    ensures KeyStatuses(obs, key) == Statuses(Project(obs, key))
  {
    if obs != [] {
      var n := |obs| - 1;
      var front := obs[..n];
      KeysAreIndependent(front, key);
      if obs[n].key == key {
        ProjectionKeepsState(front, key);
        assert Project(obs, key)[..|Project(front, key)|] == Project(front, key);
      } else {
        assert Project(obs, key) == Project(front, key);
      }
    }
  }

  // ---- conservation along one key ----

  /** How far a status says the sequence has moved. */
  function Advance(status: SequenceStatus): int {
    match status
    case First => 0
    case InOrder => 1
    case Duplicate => 0
    case Gap(expected, actual) => actual - expected + 1
  }

  function TotalAdvance(ss: seq<SequenceStatus>): int {
    if ss == [] then 0 else TotalAdvance(ss[..|ss| - 1]) + Advance(ss[|ss| - 1])
  }

  predicate OfOneKey(obs: seq<Observation>, key: SequenceKey) {
    forall i | 0 <= i < |obs| :: obs[i].key == key
  }

  /** From first to last, the reported advances add up modulo 16. */
  lemma {:induction false} AdvancesAddUp(obs: seq<Observation>, key: SequenceKey)
    requires obs != [] && OfOneKey(obs, key)
    ensures Nibble(obs[|obs| - 1].sequence) == Nibble(obs[0].sequence + TotalAdvance(Statuses(obs)))
  {
    hide Advance, TotalAdvance, StatusAfter, Statuses, StatusOf, Track, Nibble, OfOneKey, IsLastOf;
    var n := |obs| - 1;
    if n == 0 {
      FirstAdvance(obs);
    } else {
      var front := obs[..n];
      FrontOfOneKey(obs, key);
      AdvancesAddUp(front, key);
      StatusAfterPrevious(front, obs[n]);
      AddAdvance(obs);
      OneAdvance(Nibble(obs[n - 1].sequence), Nibble(obs[n].sequence),
                 obs[0].sequence + TotalAdvance(Statuses(front)));
    }
  }

  lemma FrontOfOneKey(obs: seq<Observation>, key: SequenceKey)
    requires |obs| >= 2 && OfOneKey(obs, key)
    ensures var n := |obs| - 1;
            OfOneKey(obs[..n], key) && IsLastOf(obs[..n], obs[n].key, n - 1)
  {
  }

  lemma StatusAfterPrevious(front: seq<Observation>, o: Observation)
    requires front != [] && IsLastOf(front, o.key, |front| - 1)
    ensures StatusOf(front, o) == StatusAfter(Some(Nibble(front[|front| - 1].sequence)), Nibble(o.sequence))
  {
    StatusAfterLast(front, o);
  }

  lemma FirstAdvance(obs: seq<Observation>)
    requires |obs| == 1
    ensures TotalAdvance(Statuses(obs)) == 0
  {
    assert obs[..0] == [];
    assert Statuses(obs) == [First];
  }

  lemma AddAdvance(obs: seq<Observation>)
    requires obs != []
    ensures var n := |obs| - 1;
            TotalAdvance(Statuses(obs)) == TotalAdvance(Statuses(obs[..n])) + Advance(StatusOf(obs[..n], obs[n]))
  {
    hide Advance, StatusOf;
    assert Statuses(obs)[..|obs| - 1] == Statuses(obs[..|obs| - 1]);
  }

  lemma OneAdvance(previous: u8, sequence: u8, total: int)
    requires sequence < 16 && previous == Nibble(total)
    ensures sequence == Nibble(total + Advance(StatusAfter(Some(previous), sequence)))
  {
    hide Nibble;
    NextNibble(total);
    var expected := Nibble(previous + 1);
    Congruent(total + 1, expected, sequence);
    assert total + 1 + (sequence - expected) == total + (sequence - expected + 1);
  }

  lemma NextNibble(total: int)
    ensures Nibble(Nibble(total) + 1) == Nibble(total + 1)
  {
  }

  /** From a total with a given low nibble, adding the difference to another nibble lands on it. */
  lemma Congruent(total: int, low: u8, target: u8)
    requires low == Nibble(total) && target < 16
    ensures Nibble(total + (target - low)) == target
  {
    var q := total / 16;
    assert total + (target - low) == 16 * q + target;
  }

  /** The same for one key of any interleaving. */
  lemma KeyAdvancesAddUp(obs: seq<Observation>, key: SequenceKey)
    requires Project(obs, key) != []
    ensures var own := Project(obs, key);
            Nibble(own[|own| - 1].sequence)
            == Nibble(own[0].sequence + TotalAdvance(KeyStatuses(obs, key)))
  {
    KeysAreIndependent(obs, key);
    ProjectIsOfOneKey(obs, key);
    AdvancesAddUp(Project(obs, key), key);
  }

  lemma {:induction false} ProjectIsOfOneKey(obs: seq<Observation>, key: SequenceKey)
    ensures OfOneKey(Project(obs, key), key)
  {
    if obs != [] {
      ProjectIsOfOneKey(obs[..|obs| - 1], key);
    }
  }

  // ---- runs of the stream parser ----

  datatype Event = Datagram(bytes: seq<u8>) | Reset

  function StateAfterEvent(seen: Seen, event: Event, options: ParseOptions): Seen {
    match event
    case Reset => map[]
    case Datagram(b) => Step(seen, b, options).1
  }

  /** The tracker state after a run of datagrams and resets. */
  function StateAfter(events: seq<Event>, options: ParseOptions): Seen {
    if events == [] then map[] else
    var n := |events| - 1;
    StateAfterEvent(StateAfter(events[..n], options), events[n], options)
  }

  /** The answer to the datagram at position `i` of a run. */
  function OutcomeAt(events: seq<Event>, i: nat, options: ParseOptions): Outcome
    requires i < |events| && events[i].Datagram?
  {
    Step(StateAfter(events[..i], options), events[i].bytes, options).0
  }

  function ObservationOf(p: Packet): Observation {
    var (h, c) := (p.Prologue().header, p.Prologue().classId);
    Observation(SequenceKey(h.packetType, c.packetClass, p.Prologue().streamId), h.sequence)
  }

  /** The observations that accepted datagrams have made since the last reset. */
  function Accepted(events: seq<Event>, options: ParseOptions): seq<Observation> {
    if events == [] then [] else
    var n := |events| - 1;
    match events[n]
    case Reset => []
    case Datagram(b) =>
      match P.ParseExact(b, options)
      case Err(_) => Accepted(events[..n], options)
      case Ok(p) => Accepted(events[..n], options) + [ObservationOf(p)]
  }

  lemma {:induction false} StateIsAccepted(events: seq<Event>, options: ParseOptions)
    ensures StateAfter(events, options) == Track(Accepted(events, options))
  {
    hide P.ParseExact;
    if events != [] {
      var n := |events| - 1;
      StateIsAccepted(events[..n], options);
      var before := Accepted(events[..n], options);
      if events[n].Datagram? && P.ParseExact(events[n].bytes, options).Ok? {
        assert Accepted(events, options)[..|before|] == before;
      }
    }
  }

  /** The packets that have been accepted since the last reset. */
  function AcceptedPackets(events: seq<Event>, options: ParseOptions): (ps: seq<Packet>)
    ensures |ps| == |Accepted(events, options)|
    ensures forall k | 0 <= k < |ps| :: Accepted(events, options)[k] == ObservationOf(ps[k])
  {
    if events == [] then [] else
    var n := |events| - 1;
    match events[n]
    case Reset => []
    case Datagram(b) =>
      match P.ParseExact(b, options)
      case Err(_) => AcceptedPackets(events[..n], options)
      case Ok(p) => AcceptedPackets(events[..n], options) + [p]
  }

  /** Packet `k` is the last one of the packet's stream. */
  predicate IsLastOfStream(ps: seq<Packet>, p: Packet, k: int) {
    0 <= k < |ps| && SameStream(ps[k], p) && forall j | k < j < |ps| :: !SameStream(ps[j], p)
  }

  /** The status of a packet after these: settled by the last of its stream, or `First` if there is none. */
  predicate SettledBy(ps: seq<Packet>, p: Packet, status: SequenceStatus) {
    && (status.First? <==> forall k | 0 <= k < |ps| :: !SameStream(ps[k], p))
    && forall k | 0 <= k < |ps| && IsLastOfStream(ps, p, k) ::
         Settled(status, ps[k].Prologue().header.sequence, p.Prologue().header.sequence)
  }

  lemma KeysAreStreams(p: Packet, q: Packet)
    ensures ObservationOf(p).key == ObservationOf(q).key <==> SameStream(p, q)
  {
  }

  lemma ObservedSequence(p: Packet)
    ensures ObservationOf(p).sequence == p.Prologue().header.sequence
  {
  }

  lemma StatusOfAccepted(events: seq<Event>, p: Packet, options: ParseOptions)
    ensures SettledBy(AcceptedPackets(events, options), p, StatusOf(Accepted(events, options), ObservationOf(p)))
  {
    hide StatusOf, SameStream, Settled, Accepted, AcceptedPackets, ObservationOf;
    var obs, ps := Accepted(events, options), AcceptedPackets(events, options);
    ObservedSequence(p);
    forall k | 0 <= k < |ps|
      ensures obs[k].sequence == ps[k].Prologue().header.sequence
    {
      ObservedSequence(ps[k]);
    }
    forall k | 0 <= k < |ps|
      ensures obs[k].key == ObservationOf(p).key <==> SameStream(ps[k], p)
    {
      KeysAreStreams(ps[k], p);
    }
    StatusIsHistory(obs, ObservationOf(p));
    forall k | IsLastOfStream(ps, p, k)
      ensures IsLastOf(obs, ObservationOf(p).key, k)
    {
    }
  }

  /**
   Each packet returned is the one that stateless exact parsing returns, each error likewise, and
   each status is settled by the last packet of the same type, class and stream that was accepted
   since the last reset.  A fresh tracker that has seen only the accepted packets says the same.
   */
  lemma StreamRefinesParserAndTracker(events: seq<Event>, i: nat, options: ParseOptions)
    requires i < |events| && events[i].Datagram?
    ensures match P.ParseExact(events[i].bytes, options)
            case Err(e) => OutcomeAt(events, i, options) == Err(e)
            case Ok(p) =>
              && OutcomeAt(events, i, options).Ok?
              && OutcomeAt(events, i, options).value.packet == p
              && SettledBy(AcceptedPackets(events[..i], options), p, OutcomeAt(events, i, options).value.sequenceStatus)
    ensures OutcomeAt(events, i, options) ==
            match P.ParseExact(events[i].bytes, options)
            case Err(e) => Err(e)
            case Ok(p) => Ok(ParsedDatagram(p, StatusOf(Accepted(events[..i], options), ObservationOf(p))))
  {
    hide P.ParseExact, SettledBy, AcceptedPackets;
    StateIsAccepted(events[..i], options);
    if P.ParseExact(events[i].bytes, options).Ok? {
      StatusOfAccepted(events[..i], P.ParseExact(events[i].bytes, options).value, options);
    }
  }

  lemma LastEvent(events: seq<Event>, event: Event, options: ParseOptions)
    ensures StateAfter(events + [event], options) == StateAfterEvent(StateAfter(events, options), event, options)
  {
    hide StateAfterEvent;
    assert (events + [event])[..|events|] == events;
  }

  /** A run that goes on from the same state answers the same. */
  lemma {:induction false} SameStateSameRun(
    one: seq<Event>, two: seq<Event>, after: seq<Event>, options: ParseOptions)
    requires StateAfter(one, options) == StateAfter(two, options)
    ensures StateAfter(one + after, options) == StateAfter(two + after, options)
    decreases |after|
  {
    hide StateAfterEvent, StateAfter;
    if after == [] {
      assert one + after == one && two + after == two;
    } else {
      var n := |after| - 1;
      SameStateSameRun(one, two, after[..n], options);
      LastEvent(one + after[..n], after[n], options);
      LastEvent(two + after[..n], after[n], options);
      assert after == after[..n] + [after[n]];
      assert one + after == one + after[..n] + [after[n]] && two + after == two + after[..n] + [after[n]];
    }
  }

  lemma SameStateSameAnswer(
    one: seq<Event>, two: seq<Event>, after: seq<Event>, i: nat, options: ParseOptions)
    requires StateAfter(one, options) == StateAfter(two, options)
    requires i < |after| && after[i].Datagram?
    ensures OutcomeAt(one + after, |one| + i, options) == OutcomeAt(two + after, |two| + i, options)
  {
    hide Step, StateAfter;
    SameStateSameRun(one, two, after[..i], options);
    assert (one + after)[..|one| + i] == one + after[..i];
    assert (two + after)[..|two| + i] == two + after[..i];
  }

  /** A rejected datagram might as well not have arrived: whatever follows, every later answer is the same. */
  lemma RejectedLeavesNoTrace(before: seq<Event>, b: seq<u8>, after: seq<Event>, options: ParseOptions)
    requires P.ParseExact(b, options).Err?
    ensures StateAfter(before + [Datagram(b)] + after, options) == StateAfter(before + after, options)
    ensures forall i | 0 <= i < |after| && after[i].Datagram? ::
              OutcomeAt(before + [Datagram(b)] + after, |before| + 1 + i, options)
              == OutcomeAt(before + after, |before| + i, options)
  {
    hide P.ParseExact, OutcomeAt, StateAfter;
    var with := before + [Datagram(b)];
    LastEvent(before, Datagram(b), options);
    SameStateSameRun(with, before, after, options);
    forall i | 0 <= i < |after| && after[i].Datagram?
      ensures OutcomeAt(with + after, |with| + i, options) == OutcomeAt(before + after, |before| + i, options)
    {
      SameStateSameAnswer(with, before, after, i, options);
    }
  }

  lemma NothingYet(options: ParseOptions)
    ensures StateAfter([], options) == map[]
  {
  }

  /** A reset forgets everything: whatever came before it, every later answer is that of a fresh parser. */
  lemma ResetStartsAfresh(before: seq<Event>, after: seq<Event>, options: ParseOptions)
    ensures StateAfter(before + [Reset] + after, options) == StateAfter(after, options)
    ensures forall i | 0 <= i < |after| && after[i].Datagram? ::
              OutcomeAt(before + [Reset] + after, |before| + 1 + i, options) == OutcomeAt(after, i, options)
  {
    hide OutcomeAt, StateAfter;
    var reset := before + [Reset];
    LastEvent(before, Reset, options);
    NothingYet(options);
    assert [] + after == after;
    SameStateSameRun(reset, [], after, options);
    forall i | 0 <= i < |after| && after[i].Datagram?
      ensures OutcomeAt(reset + after, |reset| + i, options) == OutcomeAt(after, i, options)
    {
      SameStateSameAnswer(reset, [], after, i, options);
    }
  }
}
