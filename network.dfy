/** A group of ring0 processes sharing one multicast group. Every datagram
    any process sends joins the pool of sent datagrams; any process may later
    receive any of them, any number of times and in any order, or never.
    A schedule is the sequence of events the processes' event loops handle. */
module Ring0Network {
  import opened Wrappers
  import opened Ring0

  /** One event handled by one process: a timer tick (or the startup send),
      or the receipt of the pool's datagram at `index`. Each event carries the
      oracle draws and the clock reading it consumes. */
  datatype Event =
    | Tick(peer: Host, pick: int, clockMs: int)
    | Deliver(peer: Host, index: int, firstPick: int, secondPick: int, clockMs: int)

  /** The actions of one event; a delivery naming no sent datagram is lost. */
  function React(v: Vocabulary, sent: seq<Message>, e: Event): (r: seq<Action>)
    ensures |Sends(r)| <= 1
    ensures e.Deliver? && !(0 <= e.index < |sent|) ==> r == []
  {
    match e
    case Tick(p, pick, c) => OnTimer(p, pick, c)
    case Deliver(p, i, p1, p2, c) =>
      if 0 <= i < |sent| then OnMessage(v, p, sent[i], p1, p2, c) else []
  }

  /** The pool after the schedule: what was sent before, then each event's
      datagrams in order. */
  function Run(v: Vocabulary, sent: seq<Message>, schedule: seq<Event>): (pool: seq<Message>)
    ensures |sent| <= |pool| <= |sent| + |schedule|
    ensures pool[..|sent|] == sent
    decreases |schedule|
  {
    if schedule == [] then sent
    else Run(v, sent + Sends(React(v, sent, schedule[0])), schedule[1..])
  }

  /** The datagrams the periodic loops produce: announcements by the
      coordinator and queries by every other host. */
  predicate Periodic(m: Message) {
    (m.op == TellOp && m.sender == Some(Coordinator)) ||
    (m.op == QueryOp && m.sender != Some(Coordinator))
  }

  /** As written, a pool holding only periodic datagrams never gains another
      kind: the handlers never react to what the group sends. */
  lemma {:induction false} AsWrittenStaysPeriodic(sent: seq<Message>, schedule: seq<Event>)
    requires forall i :: 0 <= i < |sent| ==> Periodic(sent[i])
    ensures forall i :: 0 <= i < |Run(AsWritten, sent, schedule)| ==> Periodic(Run(AsWritten, sent, schedule)[i])
    decreases |schedule|
  {
    if schedule != [] {
      var out := React(AsWritten, sent, schedule[0]);
      match schedule[0] {
        case Tick(_, _, _) =>
        case Deliver(p, i, p1, p2, c) =>
          if 0 <= i < |sent| {
            AsWrittenIgnoresOwnTags(p, sent[i], p1, p2, c);
          }
      }
      var next := sent + Sends(out);
      forall k | 0 <= k < |next| ensures Periodic(next[k]) {
        if k >= |sent| {
          assert next[k] in Sends(out);
        }
      }
      AsWrittenStaysPeriodic(next, schedule[1..]);
    }
  }

  /** As written, no schedule of a group that starts silent ever carries an
      `rh-switch`: no host ever accepts the token. */
  lemma AsWrittenNeverSwitches(schedule: seq<Event>)
    ensures forall m :: m in Run(AsWritten, [], schedule) ==> m.op != SwitchOp && (m.op == TellOp <==> m.sender == Some(Coordinator))
  {
    AsWrittenStaysPeriodic([], schedule);
  }

  /** The hand-off of the protocol's design, which the senders' tags make
      happen: gotham queries, frodo answers naming gotham (draw 1), and gotham
      accepts the token. */
  const HandOff: seq<Event> := [
    Tick(Some("gotham"), 0, 1000),
    Deliver(Some("frodo"), 0, 0, 1, 2000),
    Deliver(Some("gotham"), 1, 0, 0, 3000)
  ]

  lemma IntendedHandOff()
    ensures Run(Intended, [], HandOff) == [
      SendRingholderQuery(Some("gotham"), 1000),
      Message(Some("frodo"), TellOp, Some("gotham"), 2),
      AcceptToken(Some("gotham"), 3000)
    ]
  {
  }

  /** The same schedule as written: only gotham's query is ever sent. */
  lemma AsWrittenHandOffStalls()
    ensures Run(AsWritten, [], HandOff) == [SendRingholderQuery(Some("gotham"), 1000)]
  {
  }
}
