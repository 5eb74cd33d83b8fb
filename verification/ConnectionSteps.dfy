/**
Every atomic step of the connection protocol, and the runs they make up.

One step is one lock section or one atomic operation of the source, so a run is any
interleaving of any number of callers, the writer task, the receiver task, teardowns
and revivals. Where the source takes two locks in a row, other steps may come in between.
The server is unconstrained: any frame may arrive at any time.
*/
module ConnectionSteps {
  import opened Bytes
  import opened ConnectionState

  /** How a registered waiter left the map. */
  datatype Exit = Routed | Drained | GuardDropped | Removed | Overwritten | Evicted

  /** `Taken`: the sender is out of the map and holds the reply it is about to send. */
  datatype Phase = Allocated | Waiting | Taken(reply: Reply, drained: bool) | Gone(exit: Exit)

  /**
  One allocated id range and the oneshot channel that goes with it. `epoch` counts how often
  the id counter had been restarted when the range was taken; `closed` says the caller has
  dropped its receiver; `leaving` says its guard took an entry out of the map and has yet to
  note the id in the ring.
  */
  datatype Slot = Slot(owner: nat, epoch: nat, id: nat, charge: nat, phase: Phase,
                       inbox: Option<Reply>, closed: bool, leaving: bool)

  /** A reservation, tagged with the pool it was taken from and the pool it was returned to. */
  datatype Hold = Fresh | Parked(pool: nat) | Held(pool: nat) | Spent(pool: nat) | Refunded(pool: nat, into: nat)

  /** The caller's one transport frame, tagged with the write queue it went into. */
  datatype Wire = Unsent | Queued(queue: nat) | OnWire(queue: nat) | Lost(queue: nat)

  /** One `execute` or `execute_compound` call: one charge for each sub-request. */
  datatype Caller = Caller(charges: seq<nat>, hold: Hold, chans: seq<nat>, enrolled: nat, wire: Wire, live: bool)

  function Total(charges: seq<nat>): nat {
    if charges == [] then 0 else Total(charges[..|charges| - 1]) + charges[|charges| - 1]
  }

  /** What a caller reserves: the saturating sum of its charges. */
  function Reserve(charges: seq<nat>): nat {
    Min(Total(charges), MAX_CHARGE)
  }

  /**
  The grants of one generation: `made` by the server at the other end of its socket, `astray` of
  those banked into another generation's pool, `foreign` banked into its pool for another server.
  */
  datatype Grants = Grants(made: nat, astray: nat, foreign: nat)

  const NO_GRANTS := Grants(0, 0, 0)

  /** Credits granted over socket `from` and banked into pool `into`. */
  function Book(granted: seq<Grants>, from: nat, into: nat, credits: nat): (r: seq<Grants>)
    requires from < |granted| && into < |granted|
    ensures |r| == |granted|
  {
    var g := granted[from];
    if from == into then granted[from := g.(made := g.made + credits)]
    else
      var h := granted[into];
      granted[from := g.(made := g.made + credits, astray := g.astray + credits)]
             [into := h.(foreign := h.foreign + credits)]
  }

  /**
  `pastPools` and `pastTops` keep the budgets and id counters of earlier generations, `granted`
  the grants of each generation, `departed` every id deserted since the ring was cleared,
  `routed` the sub-frames routed so far. `install` is how far a running `install_transport` got,
  `closing` how many teardowns have yet to close the budget.
  */
  datatype State = State(core: Core, slots: seq<Slot>, callers: seq<Caller>, pastPools: seq<Pool>,
                         granted: seq<Grants>, pastTops: seq<nat>, queue: nat, install: nat,
                         departed: seq<nat>, routed: nat, closing: nat)

  const INITIAL := State(FRESH_CORE, [], [], [], [NO_GRANTS], [], 0, 0, [], 0, 0)

  function PoolIndex(s: State): nat { |s.pastPools| }

  function Epoch(s: State): nat { |s.pastTops| }

  function Pools(s: State): seq<Pool> { s.pastPools + [s.core.pool] }

  /** How far each generation's id counter got. */
  function Tops(s: State): seq<nat> { s.pastTops + [s.core.next] }

  /** A new generation gets its pool first, then its ids, then its queue and socket. */
  predicate InStep(s: State) {
    && PoolIndex(s) == s.queue + (if 3 <= s.install <= 5 then 1 else 0)
    && Epoch(s) == s.queue + (if 4 <= s.install <= 5 then 1 else 0)
    && |s.granted| == |s.pastPools| + 1
  }

  /** Every index stored in the state points at something. */
  ghost predicate Shape(s: State) {
    && InStep(s)
    && (forall id :: id in s.core.waiters ==> s.core.waiters[id] < |s.slots|)
    && (forall a :: 0 <= a < |s.slots| ==> s.slots[a].owner < |s.callers|)
    && (forall c, k :: 0 <= c < |s.callers| && 0 <= k < |s.callers[c].chans| ==> s.callers[c].chans[k] < |s.slots|)
    && (forall c :: 0 <= c < |s.callers| && s.callers[c].hold.Parked? ==> s.callers[c].hold.pool <= |s.pastPools|)
  }

  datatype Event =
    | Start(charges: seq<nat>)
    | Acquire(c: nat)
    | Park(c: nat)
    | Wake(c: nat)
    | Number(c: nat)
    | Register(c: nat)
    | Enqueue(c: nat)
    | Write(c: nat)
    | WriteFails(c: nat)
    | Commit(c: nat)
    | Abandon(c: nat)
    | Refund(c: nat)
    | DropGuard(a: nat)
    | NoteDeparture(a: nat)
    | RemoveWaiter(a: nat)
    | Bank(f: Frame)
    | RouteFrame(f: Frame)
    | RouteMiss(f: Frame)
    | Deliver(a: nat)
    | Drain(e: Failure)
    | ClosePool
    | InstallDrain
    | InstallClose
    | ResetPool
    | ResetIds
    | ClearAbandoned
    | SwapQueue
    | Reopen

  /** A caller's reservation and its frame. */
  predicate OfCaller(e: Event) {
    || e.Acquire? || e.Park? || e.Wake? || e.Enqueue? || e.Write? || e.WriteFails? || e.Commit? || e.Abandon?
    || e.Refund?
  }

  /** Ids, the waiter map and the channels. */
  predicate OfTable(e: Event) {
    || e.Number? || e.Register? || e.DropGuard? || e.NoteDeparture? || e.RemoveWaiter? || e.RouteFrame?
    || e.Deliver? || e.Drain? || e.InstallDrain?
  }

  /** `install_transport` after its teardown. */
  predicate OfInstall(e: Event) {
    e.InstallClose? || e.ResetPool? || e.ResetIds? || e.ClearAbandoned? || e.SwapQueue? || e.Reopen?
  }

  predicate Active(s: State, c: nat) {
    c < |s.callers| && s.callers[c].live
  }

  /** Callers that have reached the middle of the send path. */
  predicate Holding(s: State, c: nat) {
    Active(s, c) && s.callers[c].hold.Held?
  }

  predicate Registered(s: State, a: nat) {
    a < |s.slots| && !s.slots[a].phase.Allocated? && !s.slots[a].closed
  }

  predicate Enabled(s: State, e: Event)
    requires Shape(s)
  {
    match e
    case Start(charges) =>
      !s.core.disconnected && charges != [] && forall i :: 0 <= i < |charges| ==> 1 <= charges[i] <= MAX_CHARGE
    case Acquire(c) =>
      Active(s, c) && s.callers[c].hold.Fresh? && !s.core.pool.closed
      && Reserve(s.callers[c].charges) <= s.core.pool.permits
    case Park(c) => Active(s, c) && s.callers[c].hold.Fresh?
    case Wake(c) =>
      Active(s, c) && s.callers[c].hold.Parked?
      && var pool := Pools(s)[s.callers[c].hold.pool];
         !pool.closed && Reserve(s.callers[c].charges) <= pool.permits
    case Number(c) => Holding(s, c) && |s.callers[c].chans| < |s.callers[c].charges|
    case Register(c) =>
      Holding(s, c) && |s.callers[c].chans| == |s.callers[c].charges| && s.callers[c].enrolled < |s.callers[c].chans|
    case Enqueue(c) =>
      Holding(s, c) && s.callers[c].enrolled == |s.callers[c].charges| && s.callers[c].wire.Unsent?
    case Write(c) => c < |s.callers| && s.callers[c].wire.Queued?
    case WriteFails(c) => c < |s.callers| && s.callers[c].wire.Queued?
    case Commit(c) => Holding(s, c) && s.callers[c].wire.OnWire?
    case Abandon(c) => Active(s, c)
    case Refund(c) => c < |s.callers| && !s.callers[c].live && s.callers[c].hold.Held?
    case DropGuard(a) =>
      Registered(s, a)
      && (!s.callers[s.slots[a].owner].live || s.callers[s.slots[a].owner].hold.Spent?)
    case NoteDeparture(a) => a < |s.slots| && s.slots[a].leaving
    case RemoveWaiter(a) => Registered(s, a) && Active(s, s.slots[a].owner)
    // A receiver may still be at work on what its socket brought after a revival replaced it.
    case Bank(f) => f.socket <= s.queue
    case RouteFrame(f) => Classify(f).Route? && f.socket <= s.queue && f.messageId in s.core.waiters
    // The lookup that found nothing may be over for a while.
    case RouteMiss(f) => Classify(f).Route? && f.socket <= s.queue
    case Deliver(a) => a < |s.slots| && s.slots[a].phase.Taken?
    case Drain(e) => true
    case ClosePool => s.closing > 0
    case InstallDrain => s.install == 0
    case InstallClose => s.install == 1
    case ResetPool => s.install == 2
    case ResetIds => s.install == 3
    case ClearAbandoned => s.install == 4
    case SwapQueue => s.install == 5
    case Reopen => s.install == 6
  }

  /** Permits taken from pool `p`, whichever generation it belongs to. */
  function SpendFrom(s: State, p: nat, credits: nat): (r: State)
    requires Shape(s) && p <= |s.pastPools| && credits <= Pools(s)[p].permits
    ensures Shape(r)
  {
    if p == PoolIndex(s) then s.(core := Spend(s.core, credits))
    else s.(pastPools := s.pastPools[p := s.pastPools[p].(permits := s.pastPools[p].permits - credits)])
  }

  function WithCaller(s: State, c: nat, caller: Caller): (r: State)
    requires Shape(s) && c < |s.callers| && caller.chans == s.callers[c].chans
    requires caller.hold.Parked? ==> caller.hold.pool <= |s.pastPools|
    ensures Shape(r)
  {
    s.(callers := s.callers[c := caller])
  }

  /** The slots once `id` has been taken out of the map by channel `a`'s caller. */
  function Unhook(slots: seq<Slot>, waiters: map<nat, nat>, a: nat, own: Exit): (r: seq<Slot>)
    requires a < |slots|
    requires forall id :: id in waiters ==> waiters[id] < |slots|
    ensures |r| == |slots|
  {
    var id := slots[a].id;
    if id in waiters then
      slots[waiters[id] := slots[waiters[id]].(phase := Gone(if waiters[id] == a then own else Evicted))]
    else slots
  }

  function Doomed(slot: Slot, e: Failure): Slot {
    if slot.phase.Waiting? then slot.(phase := Taken(Fault(FanCopy(e)), true)) else slot
  }

  function DoomAll(slots: seq<Slot>, e: Failure): (r: seq<Slot>)
    ensures |r| == |slots|
    ensures forall i :: 0 <= i < |slots| ==> r[i] == Doomed(slots[i], e)
  {
    seq(|slots|, i requires 0 <= i < |slots| => Doomed(slots[i], e))
  }

  function ApplyNumber(s: State, c: nat): (r: State)
    requires Shape(s) && Enabled(s, Number(c))
    ensures Shape(r)
  {
    var caller := s.callers[c];
    var charge := caller.charges[|caller.chans|];
    s.(core := Allocate(s.core, charge),
       slots := s.slots + [Slot(c, Epoch(s), s.core.next, charge, Allocated, None, false, false)],
       callers := s.callers[c := caller.(chans := caller.chans + [|s.slots|])])
  }

  /** A refused registration ends the call; an accepted one displaces whatever held the id. */
  function ApplyRegister(s: State, c: nat): (r: State)
    requires Shape(s) && Enabled(s, Register(c))
    ensures Shape(r)
  {
    var caller := s.callers[c];
    var a := caller.chans[caller.enrolled];
    if s.core.disconnected then WithCaller(s, c, caller.(live := false))
    else
      var id := s.slots[a].id;
      var cleared := if id in s.core.waiters
                     then s.slots[s.core.waiters[id] := s.slots[s.core.waiters[id]].(phase := Gone(Overwritten))]
                     else s.slots;
      s.(core := Enrol(s.core, id, a),
         slots := cleared[a := cleared[a].(phase := Waiting)],
         callers := s.callers[c := caller.(enrolled := caller.enrolled + 1)])
  }

  function ApplyRoute(s: State, f: Frame): (r: State)
    requires Shape(s) && Enabled(s, RouteFrame(f))
    ensures Shape(r)
  {
    var Route(id, reply) := Classify(f);
    var a := s.core.waiters[id];
    s.(core := Dispatch(s.core, id, reply), slots := s.slots[a := s.slots[a].(phase := Taken(reply, false))],
       routed := s.routed + 1)
  }

  function ApplyDeliver(s: State, a: nat): (r: State)
    requires Shape(s) && Enabled(s, Deliver(a))
    ensures Shape(r)
  {
    var slot := s.slots[a];
    var done := slot.(phase := Gone(if slot.phase.drained then Drained else Routed),
                      inbox := if slot.closed then slot.inbox else Some(slot.phase.reply));
    s.(slots := s.slots[a := done],
       core := if slot.closed && !slot.phase.drained then Rebalance(s.core, slot.phase.reply) else s.core)
  }

  /** The guard's first lock section: out of the map. */
  function ApplyDropGuard(s: State, a: nat): (r: State)
    requires Shape(s) && a < |s.slots|
    ensures Shape(r)
  {
    var id := s.slots[a].id;
    var slots := Unhook(s.slots, s.core.waiters, a, GuardDropped);
    s.(core := Forget(s.core, id), slots := slots[a := slots[a].(closed := true, leaving := id in s.core.waiters)])
  }

  /** And its second, if the first found anything: into the ring. */
  function ApplyNote(s: State, a: nat): (r: State)
    requires Shape(s) && a < |s.slots|
    ensures Shape(r)
  {
    var id := s.slots[a].id;
    s.(core := s.core.(abandoned := Remember(s.core.abandoned, id)),
       slots := s.slots[a := s.slots[a].(leaving := false)],
       departed := s.departed + [id])
  }

  function ApplyRemove(s: State, a: nat): (r: State)
    requires Shape(s) && a < |s.slots|
    ensures Shape(r)
  {
    s.(core := Forget(s.core, s.slots[a].id), slots := Unhook(s.slots, s.core.waiters, a, Removed))
  }

  function ApplySever(s: State, e: Failure): (r: State)
    requires Shape(s)
    ensures Shape(r)
  {
    s.(core := Sever(s.core), slots := DoomAll(s.slots, e))
  }

  /** `install_transport` after its teardown, one field at a time. */
  function ApplyInstall(s: State, e: Event): (r: State)
    requires Shape(s) && Enabled(s, e)
    requires OfInstall(e)
    ensures Shape(r)
  {
    match e
    case InstallClose => s.(core := Close(s.core), install := 2)
    case ResetPool =>
      s.(pastPools := s.pastPools + [s.core.pool], core := s.core.(pool := FRESH_POOL),
         granted := s.granted + [NO_GRANTS], install := 3)
    case ResetIds => s.(pastTops := s.pastTops + [s.core.next], core := s.core.(next := 0), install := 4)
    case ClearAbandoned => s.(core := s.core.(abandoned := []), departed := [], install := 5)
    case SwapQueue => s.(queue := s.queue + 1, install := 6)
    case Reopen => s.(core := s.core.(disconnected := false), install := 0)
  }

  function ApplyCaller(s: State, e: Event): (r: State)
    requires Shape(s) && Enabled(s, e) && OfCaller(e)
    ensures Shape(r)
  {
    var c, caller := e.c, s.callers[e.c];
    var amount := Reserve(caller.charges);
    match e
    case Acquire(_) => WithCaller(SpendFrom(s, PoolIndex(s), amount), c, caller.(hold := Held(PoolIndex(s))))
    case Park(_) => WithCaller(s, c, caller.(hold := Parked(PoolIndex(s))))
    case Wake(_) => WithCaller(SpendFrom(s, caller.hold.pool, amount), c, caller.(hold := Held(caller.hold.pool)))
    case Enqueue(_) => WithCaller(s, c, caller.(wire := Queued(s.queue)))
    case Write(_) => WithCaller(s, c, caller.(wire := OnWire(caller.wire.queue)))
    case WriteFails(_) => WithCaller(s, c, caller.(wire := Lost(caller.wire.queue)))
    case Commit(_) => WithCaller(s, c, caller.(hold := Spent(caller.hold.pool)))
    case Abandon(_) => WithCaller(s, c, caller.(live := false))
    case Refund(_) =>
      WithCaller(s.(core := Grant(s.core, amount)), c, caller.(hold := Refunded(caller.hold.pool, PoolIndex(s))))
  }

  function ApplyTable(s: State, e: Event): (r: State)
    requires Shape(s) && Enabled(s, e) && OfTable(e)
    ensures Shape(r)
  {
    match e
    case Number(c) => ApplyNumber(s, c)
    case Register(c) => ApplyRegister(s, c)
    case DropGuard(a) => ApplyDropGuard(s, a)
    case NoteDeparture(a) => ApplyNote(s, a)
    case RemoveWaiter(a) => ApplyRemove(s, a)
    case RouteFrame(f) => ApplyRoute(s, f)
    case Deliver(a) => ApplyDeliver(s, a)
    case Drain(e) => ApplySever(s, e).(closing := s.closing + 1)
    case InstallDrain => ApplySever(s, Disconnected).(install := 1)
  }

  function Apply(s: State, e: Event): (r: State)
    requires Shape(s) && Enabled(s, e)
    ensures Shape(r)
  {
    if OfTable(e) then ApplyTable(s, e)
    else if OfCaller(e) then ApplyCaller(s, e)
    else if OfInstall(e) then ApplyInstall(s, e)
    else match e
         case Start(charges) => s.(callers := s.callers + [Caller(charges, Fresh, [], 0, Unsent, true)])
         case Bank(f) =>
           s.(core := Grant(s.core, f.credits),
              granted := Book(s.granted, f.socket, PoolIndex(s), f.credits))
         case RouteMiss(f) => s.(core := Misroute(s.core, f.messageId), routed := s.routed + 1)
         case ClosePool => s.(core := Close(s.core), closing := s.closing - 1)
  }

  /** `events` can be taken one after the other from `s`. */
  predicate Legal(s: State, events: seq<Event>)
    requires Shape(s)
    decreases |events|
  {
    events == [] || (Enabled(s, events[0]) && Legal(Apply(s, events[0]), events[1..]))
  }

  /** The state `events` lead to. */
  function After(s: State, events: seq<Event>): State
    requires Shape(s) && Legal(s, events)
    decreases |events|
  {
    if events == [] then s else After(Apply(s, events[0]), events[1..])
  }
}
