# ring0 ring-holder protocol in Dafny

ring0 is a group of peers on one UDP multicast group that tells itself which peer holds a
shared token, the ring-holder. The host named `frodo` is the coordinator. At startup and every
10 seconds it asks an oracle for a ring-holder and broadcasts an `rh-tell` announcement. Every
other host is a branch. At startup and every 10 seconds it broadcasts an `rh-query`. A branch
named in an announcement is meant to accept the token with an `rh-switch`.

This project models that protocol as pure functions. Each effect is returned as a value.
A handler or a timer tick yields an ordered list of actions. An action is a datagram
sent (`Send`) or one of the protocol's log lines (`Log`): a message received, or no ring-holder
found. The `SENDING` line logged once a send completes and the startup `listening` line are not
modelled (see Left out). The oracle's random index and the clock reading are
parameters.

- `wrappers.dfy`: `Option` and `Result`.
- `ring0.dfy` (module `Ring0`): the message record and the oracle. It also holds the three
  message builders, the coordinator and branch handlers, and the role choice for timer ticks and
  inbound messages. The handlers are parameterised by the pair of tags they dispatch on.
  `AsWritten` is `("rhq", "rha")`, the tags the code tests. `Intended` is
  `("rh-query", "rh-tell")`, the tags the senders emit.
- `network.dfy` (module `Ring0Network`): several processes share one pool of sent datagrams.
  Any process may receive any datagram in that pool, any number of times and in any order, or
  never. A schedule is a sequence of timer ticks and deliveries.

The host identity is the `RING0_ROLE` environment value, and that value may be unset. So a
host is an `Option<string>`. The `sender` and `rh` fields are optional too, because
`JSON.stringify` drops `undefined` fields. One consequence is kept in the model: when
`RING0_ROLE` is unset, a branch accepts an announcement that has no `rh` field.

The model follows the code in these respects:
- The code keeps no ring-holder state. Its handlers change nothing, so the model has no
  holder variable and no idempotence property about one.
- The code has no message codec and no decode-error path. A received payload goes straight to
  `JSON.parse`.
- The coordinator's handler and the branch's handler test for `rhq` and `rha`. No sender emits
  those tags, so neither handler ever reacts to a datagram of the group (see Findings).
- The documented message shape requires `rh` only for `rh-tell` (`app/index.js:15`).
  `WellFormed` uses that rule. It does not require `rh` for `rh-switch`.

## Model

| member | source | states |
|---|---|---|
| `Ring0.Ts` | app/index.js:59-61 | the timestamp is the clock reading in whole seconds, rounded down: `s*1000 <= ms < s*1000 + 1000` |
| `Ring0.GetRingholder` | app/index.js:37-54 | the oracle resolves exactly when the drawn index is in `[0, 4)`; a resolved value is always one of the four members, the one at the drawn index; otherwise it rejects |
| `Ring0.OracleReachesEveryMember` | app/index.js:41-47 | every member of the fixed list is the oracle's answer for some index in `[0, 4)` |
| `Ring0.SendRingholderQuery` | app/index.js:96-101 | an `rh-query` is well formed, comes from this host, carries no ring-holder and is stamped with the current second |
| `Ring0.AcceptToken` | app/index.js:112-118 | an `rh-switch` is well formed, comes from this host and names its sender as the ring-holder (also when the host is unset) |
| `Ring0.SendRingholderAnnouncement` | app/index.js:73-89 | exactly one action: an `rh-tell` from this host naming the oracle's member when the draw is in range, otherwise only a "not found" log line and no datagram |
| `Ring0.FrodoHandle` | app/index.js:136-151 | at most one datagram; one is sent iff the op is the query tag and both oracle draws resolve; it is an `rh-tell` from this host naming the second draw's member; any other op is only logged |
| `Ring0.BranchHandle` | app/index.js:158-170 | at most one datagram; one is sent iff the op is the announcement tag and `rh` equals this host, and it is this host's `rh-switch`; announcements for another host produce nothing; other ops are only logged |
| `Ring0.OnTimer` | app/index.js:189-201 | at startup and on each tick the coordinator sends at most one `rh-tell` (exactly one iff the draw resolves), from itself, naming the member at the draw and stamped with the current second; any other host sends exactly its `rh-query` |
| `Ring0.OnMessage` | app/index.js:209-215 | frodo runs the coordinator's handler and every other host the branch's: a reply is sent iff (coordinator, query tag, both draws resolve) or (branch, announcement tag, `rh` equals this host); it is at most one datagram, the coordinator's `rh-tell` naming the second draw's member at the current second, or the branch's own `rh-switch` |
| `Ring0.FirstDrawDiscarded` | app/index.js:140-142 | the coordinator's reply does not depend on which member the first oracle call returned, only on whether it resolved |
| `Ring0.AsWrittenIgnoresOwnTags` | app/index.js:136-170 | as written, a message carrying `rh-tell`, `rh-query` or `rh-switch` is only logged, by either role |
| `Ring0.IntendedAnswersQuery` | app/index.js:136-147 | with the senders' tags, a branch's query reaching the coordinator yields exactly one `rh-tell` naming the second draw's member |
| `Ring0.IntendedAcceptsAssignment` | app/index.js:158-166 | with the senders' tags, a branch named in an announcement sends exactly its `rh-switch`; a branch not named sends nothing |
| `Ring0Network.React` | app/index.js:185-215 | one event of one process sends at most one datagram; a delivery of a datagram never sent is lost |
| `Ring0Network.Run` | app/index.js:181-215 | running a schedule only appends to the pool, and adds at most one datagram per event |
| `Ring0Network.AsWrittenStaysPeriodic` | app/index.js:136-170 | as written, a pool holding only the periodic datagrams (coordinator `rh-tell`, branch `rh-query`) keeps only those under any schedule |
| `Ring0Network.AsWrittenNeverSwitches` | app/index.js:161-165 | as written, starting from silence, no schedule ever puts an `rh-switch` on the wire, and every `rh-tell` comes from the coordinator |
| `Ring0Network.IntendedHandOff` | app/index.js:73-170 | with the senders' tags, gotham's query, frodo's answer naming gotham and gotham's acceptance put exactly query, announcement and `rh-switch` on the wire |
| `Ring0Network.AsWrittenHandOffStalls` | app/index.js:136-170 | as written, the same schedule puts only gotham's query on the wire |

## Left out

- UDP socket creation, bind, multicast membership and `socket.send` (app/index.js:183-186, 83, 103, 120): these are I/O. A send is the `Send` action it would perform. Send and bind failures are not modelled.
- `setInterval` and the Promise chaining: event-loop scheduling. Each startup send, each tick and each inbound datagram is one call. Interleavings are the schedules of `Ring0Network`. The 10-second interval is not modelled.
- `Math.random` and `Math.floor` in the oracle: floating point. The drawn index is a parameter. The real draw always lies in `[0, 4)`, so the oracle always resolves.
- `Date.now()`: a clock read. The millisecond reading is a parameter.
- `JSON.stringify` and `JSON.parse`: messages are decoded records. The exception `JSON.parse` throws on a malformed payload, and the exception reading `op` from a `null` payload throws, are not modelled; both stop the process. A received `op` that is absent or not a string behaves like any unhandled tag.
- Non-string JSON values in a received `rh` field are not modelled. `rh` is either a string or absent.
- The `SENDING` line logged in each send's completion callback (app/index.js:84, 104, 121) and the startup `listening` line (app/index.js:205) are not actions of the model: they follow from the `Send` actions and from startup, and carry nothing of the protocol.
- Log line texts: only their kind (`Received`, `HolderNotFound`) is kept. The two slightly different "not found" texts are one kind.
- Reading `process.env.RING0_ROLE`: the host is a parameter.

## Findings

| source | as written | input that shows it | evidently intended | confidence | as-written member | corrected member |
|---|---|---|---|---|---|---|
| app/index.js:139 | the coordinator answers only `op == 'rhq'`, but branches send `rh-query` (line 99) and the tell at line 161 uses `rha` where the coordinator sends `rh-tell` (line 78) | gotham's startup `rh-query` delivered to frodo, then frodo's `rh-tell` naming gotham delivered to gotham | dispatch on `rh-query` and `rh-tell`, so that a query is answered and the named branch sends `rh-switch` | high; not executed | `Ring0Network.AsWrittenHandOffStalls` | `Ring0Network.IntendedHandOff` |

As written, `Ring0Network.AsWrittenNeverSwitches` shows that the token is never accepted under any
schedule. With the `Intended` tags, `Ring0.IntendedAnswersQuery` and
`Ring0.IntendedAcceptsAssignment` give the intended replies for every input.
