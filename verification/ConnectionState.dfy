/**
The state one SMB2 connection shares between its callers, its writer task and its
receiver task (`Inner` in src/client/connection.rs), and what each lock section does to it.
*/
module ConnectionState {
  import opened Bytes

  /** The message id of a frame the server sent on its own account. */
  const UNSOLICITED: nat := 0xFFFF_FFFF_FFFF_FFFF

  /** How many ids of departed callers the connection remembers. */
  const ABANDONED_ID_MEMORY: nat := 512

  /** The largest total a compound can reserve: the fold saturates at `u16::MAX`. */
  const MAX_CHARGE: nat := 0xFFFF

  datatype Status = Pending | SessionExpired | Other(code: nat)

  /**
  A sub-frame after decryption and header parsing; `verified` is the signature verdict. `socket`
  counts which of the connection's sockets it came over; the code never looks at it.
  */
  datatype Frame = Frame(messageId: nat, credits: nat, status: Status, asyncId: Option<nat>,
                         verified: bool, body: seq<byte>, socket: nat)

  datatype Failure = Disconnected | Unresponsive(silentFor: nat) | Expired | BadSignature | Broken(reason: nat)

  /** What a waiting caller is handed. */
  datatype Reply = Answer(frame: Frame) | Fault(failure: Failure)

  datatype Action = Route(messageId: nat, reply: Reply) | Skip

  /** What the receiver task decides about one sub-frame. */
  function Classify(f: Frame): Action {
    if f.messageId == UNSOLICITED || f.status.Pending? then Skip
    else if !f.verified then Route(f.messageId, Fault(BadSignature))
    else if f.status.SessionExpired? then Route(f.messageId, Fault(Expired))
    else Route(f.messageId, Answer(f))
  }

  /** The copy of a teardown error a waiter receives. */
  function FanCopy(e: Failure): Failure {
    if e.Unresponsive? then e else Disconnected
  }

  /** The live credit budget: one permit for each unspent credit. */
  datatype Pool = Pool(permits: nat, closed: bool)

  const FRESH_POOL := Pool(1, false)

  /** Where every routed sub-frame ended up. */
  datatype Tally = Tally(ok: int, err: int, late: int, stray: int)

  /** `waiters` maps a message id to the channel its caller listens on. */
  datatype Core = Core(waiters: map<nat, nat>, disconnected: bool, next: nat, abandoned: seq<nat>,
                       pool: Pool, tally: Tally)

  const FRESH_CORE := Core(map[], false, 0, [], FRESH_POOL, Tally(0, 0, 0, 0))

  function Allocate(core: Core, charge: nat): Core {
    core.(next := core.next + charge)
  }

  /** Registration, with `disconnected` rechecked under the lock. */
  function Enrol(core: Core, id: nat, chan: nat): Core {
    if core.disconnected then core else core.(waiters := core.waiters[id := chan])
  }

  function Forget(core: Core, id: nat): Core {
    core.(waiters := core.waiters - {id})
  }

  /** The ring of departed ids, newest last. */
  function Remember(ring: seq<nat>, id: nat): seq<nat> {
    (if |ring| >= ABANDONED_ID_MEMORY then ring[1..] else ring) + [id]
  }

  /** A waiter guard going away, both its lock sections in a row. */
  function Desert(core: Core, id: nat): Core {
    if id in core.waiters
    then Forget(core, id).(abandoned := Remember(core.abandoned, id))
    else core
  }

  /** The receiver task routing one classified sub-frame. */
  function Dispatch(core: Core, id: nat, reply: Reply): Core {
    var t := core.tally;
    if id in core.waiters then
      Forget(core, id).(tally := if reply.Answer? then t.(ok := t.ok + 1) else t.(err := t.err + 1))
    else Misroute(core, id)
  }

  /** A sub-frame that found no waiter: the ring tells a departed caller from a stranger. */
  function Misroute(core: Core, id: nat): Core {
    var t := core.tally;
    core.(tally := if id in core.abandoned then t.(late := t.late + 1) else t.(stray := t.stray + 1))
  }

  /** A routed reply found its receiver gone: the count moves over to `late`. */
  function Rebalance(core: Core, reply: Reply): Core {
    var t := core.tally;
    core.(tally := if reply.Answer? then t.(ok := t.ok - 1, late := t.late + 1)
                   else t.(err := t.err - 1, late := t.late + 1))
  }

  /** Teardown under the waiters lock. */
  function Sever(core: Core): Core {
    core.(disconnected := true, waiters := map[])
  }

  function Grant(core: Core, credits: nat): Core {
    core.(pool := core.pool.(permits := core.pool.permits + credits))
  }

  function Spend(core: Core, credits: nat): Core
    requires credits <= core.pool.permits
  {
    core.(pool := core.pool.(permits := core.pool.permits - credits))
  }

  function Close(core: Core): Core {
    core.(pool := core.pool.(closed := true))
  }
}
