/**
The connection's credit budget (src/client/credits.rs): a semaphore behind a swappable
reference, and the reservation that gives its credits back unless it is committed.
*/
module Credits {
  import opened Bytes
  import opened ConnectionState

  /** The window the client steers the server toward. */
  const CREDIT_TARGET: nat := 512

  const U16_MAX: nat := 0xFFFF

  class Semaphore {
    var permits: nat
    var closed: bool

    constructor (initial: nat)
      ensures permits == initial && !closed
    {
      permits, closed := initial, false;
    }
  }

  class CreditPool {
    var current: Semaphore

    /** The budget as of right now. */
    ghost function View(): Pool
      reads this, current
    {
      Pool(current.permits, current.closed)
    }

    constructor ()
      ensures fresh(current) && View() == FRESH_POOL
    {
      current := new Semaphore(1);
    }

    /** Starts again from one credit. A waiter still holding the old semaphore keeps the old one, as it was. */
    method Reset()
      modifies this
      ensures fresh(current) && View() == FRESH_POOL
      ensures unchanged(old(current))
    {
      current := new Semaphore(1);
    }

    method Available() returns (n: nat)
      ensures n == Min(current.permits, U16_MAX)
    {
      n := if current.permits <= U16_MAX then current.permits else U16_MAX;
    }

    method Grant(credits: nat)
      modifies current
      ensures View() == old(View()).(permits := old(View()).permits + credits)
    {
      if credits > 0 {
        current.permits := current.permits + credits;
      }
    }

    /** All of the charge or nothing, and never from a closed budget. */
    method TryReserve(charge: nat) returns (taken: bool)
      modifies current
      ensures taken <==> !old(View()).closed && charge <= old(View()).permits
      ensures taken ==> View() == old(View()).(permits := old(View()).permits - charge)
      ensures !taken ==> View() == old(View())
    {
      taken := !current.closed && charge <= current.permits;
      if taken {
        current.permits := current.permits - charge;
      }
    }

    method Refund(charge: nat)
      modifies current
      ensures View() == old(View()).(permits := old(View()).permits + charge)
    {
      Grant(charge);
    }

    /**
    How many credits to ask for: never fewer than the charge, and enough that granting them all
    brings the window up to the target, unless the header field saturates.
    */
    method RequestFor(charge: nat) returns (n: nat)
      requires charge <= U16_MAX
      ensures charge <= n <= U16_MAX
      ensures current.permits >= CREDIT_TARGET ==> n == charge
      ensures current.permits < CREDIT_TARGET ==>
        n == U16_MAX || current.permits + n - charge == CREDIT_TARGET
    {
      var available := Available();
      var short := if available < CREDIT_TARGET then CREDIT_TARGET - available else 0;
      n := if charge + short <= U16_MAX then charge + short else U16_MAX;
    }

    method Close()
      modifies current
      ensures View() == old(View()).(closed := true)
    {
      current.closed := true;
    }
  }

  /** Credits taken for one request that has not been sent yet. */
  class CreditReservation {
    var pool: CreditPool?
    const charge: nat

    constructor (pool: CreditPool, charge: nat)
      ensures this.pool == pool && this.charge == charge
    {
      this.pool, this.charge := pool, charge;
    }

    /** The bytes are on the wire: a later drop gives nothing back. */
    method Commit()
      modifies this`pool
      ensures pool == null
    {
      pool := null;
    }

    /** Refunds into whatever budget is current by then, or does nothing once committed. */
    method Drop()
      modifies if pool == null then {} else {pool.current}
      ensures pool != null ==> pool.View() == old(pool.View()).(permits := old(pool.View()).permits + charge)
    {
      if pool != null {
        pool.Refund(charge);
      }
    }
  }

  /** Reserving and dropping without sending leaves the budget as it was, if nobody swapped it meanwhile. */
  method ReserveAndDrop(pool: CreditPool, charge: nat) returns (taken: bool)
    modifies pool.current
    ensures pool.View() == old(pool.View())
    ensures taken <==> !old(pool.View()).closed && charge <= old(pool.View()).permits
  {
    taken := pool.TryReserve(charge);
    if taken {
      var reservation := new CreditReservation(pool, charge);
      reservation.Drop();
    }
  }

  /** Reserving, sending and dropping leaves the charge with the server. */
  method ReserveAndCommit(pool: CreditPool, charge: nat) returns (taken: bool)
    modifies pool.current
    ensures taken <==> !old(pool.View()).closed && charge <= old(pool.View()).permits
    ensures taken ==> pool.View() == old(pool.View()).(permits := old(pool.View()).permits - charge)
    ensures !taken ==> pool.View() == old(pool.View())
  {
    taken := pool.TryReserve(charge);
    if taken {
      var reservation := new CreditReservation(pool, charge);
      reservation.Commit();
      reservation.Drop();
    }
  }

  /** A reservation dropped after a reset lands in the new budget, which then holds more than it was given. */
  method ReserveResetDrop(pool: CreditPool, charge: nat) returns (taken: bool)
    modifies pool, pool.current
    ensures taken ==> pool.View() == Pool(1 + charge, false)
    ensures !taken ==> pool.View() == FRESH_POOL
  {
    taken := pool.TryReserve(charge);
    pool.Close();
    pool.Reset();
    if taken {
      var reservation := new CreditReservation(pool, charge);
      reservation.Drop();
    }
  }
}
