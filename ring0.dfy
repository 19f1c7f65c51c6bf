/** The ring-holder message protocol of ring0 (app/index.js): the three
    outbound message shapes, the ring-holder oracle, the two inbound handlers
    and the role choice made at startup.

    Effects are returned as values: a handler or a timer tick yields, in order,
    the datagrams it sends and the protocol's own log lines (a message received,
    no ring-holder found); the line logged once a send completes is left out.
    The oracle's random index and the clock reading are parameters. */
module Ring0 {
  import opened Wrappers

  /** The identity a process runs under: the RING0_ROLE environment value,
      which is `None` when the variable is unset. */
  type Host = Option<string>

  /** The operation tags the senders put on the wire. */
  const TellOp: string := "rh-tell"
  const QueryOp: string := "rh-query"
  const SwitchOp: string := "rh-switch"

  /** The host that runs the announcement loop. */
  const Coordinator: string := "frodo"

  /** The oracle's fixed member list. */
  const Members: seq<string> := ["frodo", "gotham", "springfield", "metropolis"]

  /** A decoded message record. A field whose value was `undefined` when the
      record was stringified is absent, hence `sender` and `rh` are optional;
      a received record without an `op` behaves like any unhandled tag. */
  datatype Message = Message(sender: Option<string>, op: string, rh: Option<string>, ts: int)

  datatype LogKind = Received | HolderNotFound

  /** One effect: a datagram broadcast to the group, or a log line. */
  datatype Action = Send(msg: Message) | Log(kind: LogKind)

  /** The message shape documented next to the protocol: one of the three
      tags, and a ring-holder whenever the tag is `rh-tell`. */
  predicate WellFormed(m: Message) {
    SentTag(m.op) && (m.op == TellOp ==> m.rh.Some?)
  }

  /** The tags the senders emit. */
  predicate SentTag(op: string) {
    op == TellOp || op == QueryOp || op == SwitchOp
  }

  /** The datagrams among a list of actions, in order. */
  function Sends(actions: seq<Action>): (ms: seq<Message>)
    ensures |ms| <= |actions|
    ensures forall m :: m in ms <==> Send(m) in actions
  {
    if actions == [] then []
    else (if actions[0].Send? then [actions[0].msg] else []) + Sends(actions[1..])
  }

  /** Seconds since the epoch from a millisecond clock reading, rounded down. */
  function Ts(clockMs: int): (s: int)
    ensures s * 1000 <= clockMs < s * 1000 + 1000
  {
    clockMs / 1000
  }

  /** The ring-holder oracle: `pick` is the index the random draw produced.
      It resolves with the member at that index and rejects when that element
      is missing or empty (falsy). */
  function GetRingholder(pick: int): (r: Result<string>)
    ensures r.Ok? <==> 0 <= pick < |Members|
    ensures r.Ok? ==> r.value in Members && r.value == Members[pick]
  {
    if 0 <= pick < |Members| && Members[pick] != "" then Ok(Members[pick])
    else Err("no ring-holder found")
  }

  /** Every member is a possible oracle answer. */
  lemma OracleReachesEveryMember(name: string)
    requires name in Members
    ensures exists pick :: 0 <= pick < |Members| && GetRingholder(pick) == Ok(name)
  {
    var pick :| 0 <= pick < |Members| && Members[pick] == name;
    assert GetRingholder(pick) == Ok(name);
  }

  /** `rh-query`: asks the group who holds the ring; carries no ring-holder. */
  function SendRingholderQuery(host: Host, clockMs: int): (m: Message)
    ensures WellFormed(m) && m.op == QueryOp && m.rh.None?
    ensures m.sender == host && m.ts * 1000 <= clockMs < m.ts * 1000 + 1000
  {
    Message(host, QueryOp, None, Ts(clockMs))
  }

  /** `rh-switch`: this host accepts the token, naming itself as ring-holder. */
  function AcceptToken(host: Host, clockMs: int): (m: Message)
    ensures WellFormed(m) && m.op == SwitchOp
    ensures m.sender == host && m.rh == m.sender
    ensures m.ts * 1000 <= clockMs < m.ts * 1000 + 1000
  {
    Message(host, SwitchOp, host, Ts(clockMs))
  }

  /** `rh-tell`: asks the oracle and announces its answer; when the oracle
      rejects, the failure is logged and nothing is sent. */
  function SendRingholderAnnouncement(host: Host, pick: int, clockMs: int): (r: seq<Action>)
    ensures |r| == 1
    ensures r[0].Send? <==> 0 <= pick < |Members|
    ensures r[0].Send? ==> WellFormed(r[0].msg) && r[0].msg.op == TellOp && r[0].msg.sender == host
    ensures r[0].Send? ==> r[0].msg.rh == Some(Members[pick]) && r[0].msg.ts == Ts(clockMs)
    ensures r[0].Log? ==> r[0].kind == HolderNotFound
  {
    match GetRingholder(pick)
    case Ok(holder) => [Send(Message(host, TellOp, Some(holder), Ts(clockMs)))]
    case Err(_) => [Log(HolderNotFound)]
  }

  /** The tags the inbound handlers dispatch on: the query tag the coordinator
      answers and the announcement tag a branch accepts. */
  datatype Vocabulary = Vocabulary(queryTag: string, announceTag: string)

  /** The tags the handlers test for, as the program is written. */
  const AsWritten: Vocabulary := Vocabulary("rhq", "rha")

  /** The tags the senders emit for a query and an announcement. */
  const Intended: Vocabulary := Vocabulary(QueryOp, TellOp)

  /** The coordinator's handler. On the query tag it consults the oracle
      (draw `firstPick`), discards the answer, and makes an announcement, which
      consults the oracle again (draw `secondPick`); every other message is
      only logged. */
  function FrodoHandle(v: Vocabulary, host: Host, m: Message, firstPick: int, secondPick: int, clockMs: int): (r: seq<Action>)
    ensures |Sends(r)| <= 1
    ensures |Sends(r)| == 1 <==>
      m.op == v.queryTag && 0 <= firstPick < |Members| && 0 <= secondPick < |Members|
    ensures forall a :: a in Sends(r) ==>
      a.op == TellOp && a.sender == host && a.rh == Some(Members[secondPick]) && a.ts == Ts(clockMs)
    ensures m.op != v.queryTag ==> r == [Log(Received)]
  {
    if m.op == v.queryTag then
      match GetRingholder(firstPick)
      case Ok(_) => SendRingholderAnnouncement(host, secondPick, clockMs)
      case Err(_) => [Log(HolderNotFound)]
    else [Log(Received)]
  }

  /** A branch's handler. On the announcement tag it accepts the token when the
      announced ring-holder is this host and otherwise does nothing; every
      other message is only logged. */
  function BranchHandle(v: Vocabulary, host: Host, m: Message, clockMs: int): (r: seq<Action>)
    ensures |Sends(r)| <= 1
    ensures |Sends(r)| == 1 <==> m.op == v.announceTag && m.rh == host
    ensures forall a :: a in Sends(r) ==> a == AcceptToken(host, clockMs)
    ensures m.op == v.announceTag && m.rh != host ==> r == []
    ensures m.op != v.announceTag ==> r == [Log(Received)]
  {
    if m.op == v.announceTag then
      if m.rh == host then [Send(AcceptToken(host, clockMs))] else []
    else [Log(Received)]
  }

  /** The role chosen at startup: only the host named `frodo` coordinates. */
  predicate IsCoordinator(host: Host) {
    host == Some(Coordinator)
  }

  /** What a process sends once at startup and again on every timer tick: the
      coordinator announces, every other host queries. */
  function OnTimer(host: Host, pick: int, clockMs: int): (r: seq<Action>)
    ensures |Sends(r)| <= 1
    ensures IsCoordinator(host) ==> (|Sends(r)| == 1 <==> 0 <= pick < |Members|)
    ensures IsCoordinator(host) ==>
      forall a :: a in Sends(r) ==> a.op == TellOp && a.sender == host && a.rh.Some? && a.rh.value in Members
    ensures IsCoordinator(host) ==>
      forall a :: a in Sends(r) ==> a.rh == Some(Members[pick]) && a.ts == Ts(clockMs)
    ensures !IsCoordinator(host) ==> Sends(r) == [SendRingholderQuery(host, clockMs)]
  {
    if IsCoordinator(host) then SendRingholderAnnouncement(host, pick, clockMs)
    else [Send(SendRingholderQuery(host, clockMs))]
  }

  /** What a process does with one inbound message, by role. */
  function OnMessage(v: Vocabulary, host: Host, m: Message, firstPick: int, secondPick: int, clockMs: int): (r: seq<Action>)
    ensures |Sends(r)| <= 1
    ensures IsCoordinator(host) ==> forall a :: a in Sends(r) ==> a.op == TellOp && a.sender == host
    ensures !IsCoordinator(host) ==> forall a :: a in Sends(r) ==> a.op == SwitchOp && a.sender == host
    ensures |Sends(r)| == 1 <==>
      (IsCoordinator(host) && m.op == v.queryTag && 0 <= firstPick < |Members| && 0 <= secondPick < |Members|) ||
      (!IsCoordinator(host) && m.op == v.announceTag && m.rh == host)
    ensures IsCoordinator(host) ==>
      forall a :: a in Sends(r) ==> a.rh == Some(Members[secondPick]) && a.ts == Ts(clockMs)
    ensures !IsCoordinator(host) ==> forall a :: a in Sends(r) ==> a == AcceptToken(host, clockMs)
  {
    if IsCoordinator(host) then FrodoHandle(v, host, m, firstPick, secondPick, clockMs)
    else BranchHandle(v, host, m, clockMs)
  }

  /** The coordinator's answer to a query names the second oracle draw; the
      first draw's value never reaches the wire. */
  lemma FirstDrawDiscarded(v: Vocabulary, host: Host, m: Message, p: int, q: int, secondPick: int, clockMs: int)
    requires 0 <= p < |Members| && 0 <= q < |Members|
    ensures FrodoHandle(v, host, m, p, secondPick, clockMs) == FrodoHandle(v, host, m, q, secondPick, clockMs)
  {
  }

  /** As written, the handlers dispatch on tags no sender emits: any message
      carrying one of the program's own tags is only logged, by either role. */
  lemma AsWrittenIgnoresOwnTags(host: Host, m: Message, firstPick: int, secondPick: int, clockMs: int)
    requires SentTag(m.op)
    ensures OnMessage(AsWritten, host, m, firstPick, secondPick, clockMs) == [Log(Received)]
  {
  }

  /** With the senders' tags, every query reaching the coordinator is answered
      by an announcement naming the second draw. */
  lemma IntendedAnswersQuery(host: Host, branch: Host, queryClock: int, firstPick: int, secondPick: int, clockMs: int)
    requires IsCoordinator(host)
    requires 0 <= firstPick < |Members| && 0 <= secondPick < |Members|
    ensures var r := Sends(OnMessage(Intended, host, SendRingholderQuery(branch, queryClock), firstPick, secondPick, clockMs));
      |r| == 1 && r[0].op == TellOp && r[0].rh == Some(Members[secondPick])
  {
  }

  /** With the senders' tags, a branch named in an announcement accepts the
      token with exactly one `rh-switch`, and no other branch sends anything. */
  lemma IntendedAcceptsAssignment(host: Host, coordinator: Host, pick: int, tellClock: int, clockMs: int)
    requires !IsCoordinator(host) && 0 <= pick < |Members|
    ensures var r := Sends(OnMessage(Intended, host, SendRingholderAnnouncement(coordinator, pick, tellClock)[0].msg, 0, 0, clockMs));
      (host == Some(Members[pick]) ==> r == [AcceptToken(host, clockMs)]) &&
      (host != Some(Members[pick]) ==> r == [])
  {
  }
}
