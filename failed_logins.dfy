/**
 * The failed-login ledger (core/models.py, class FailedLogin): one record
 * per ledger key holding the time of its last write and a count of
 * consecutive failures. The database table is a map from key to record;
 * every save refreshes the record's timestamp to the current time.
 */
module FailedLogins {
  import opened Wrappers
  import opened ClientAddress

  /** One hour, in seconds: the width of the window. */
  const Hour: int := 3600
  /** More failures than this inside the window block the address. */
  const Threshold: int := 10

  datatype Record = Record(updatedAt: int, attempts: int)

  /** The three results of is_blocked: True, False and the fall-through None. */
  datatype Verdict = Blocked | NotBlocked | Undecided {
    /** Python truthiness of the verdict. */
    predicate Truthy() { this == Blocked }
  }

  type Table = map<Address, Record>

  /** A record last written more than one hour before `now` (strictly). */
  predicate Stale(r: Record, now: int) {
    r.updatedAt < now - Hour
  }

  /** The table invariant: keys are normalized and every count is at least one. */
  ghost predicate WellFormed(t: Table) {
    forall k :: k in t ==> IsKey(k) && t[k].attempts >= 1
  }

  /** The count report_failure leaves on a record it found (or created). */
  function NextCount(existing: Option<Record>, now: int): int {
    match existing
    case None => 1
    case Some(r) => if Stale(r, now) then 1 else r.attempts + 1
  }

  function Lookup(t: Table, key: Address): Option<Record> {
    if key in t then Some(t[key]) else None
  }

  /** The table after report_failure for `key` at `now`. */
  function AfterFailure(t: Table, key: Address, now: int): Table {
    t[key := Record(now, NextCount(Lookup(t, key), now))]
  }

  /** What is_blocked answers for `key` at `now`. */
  function VerdictOf(t: Table, key: Address, now: int): (v: Verdict)
    ensures v == Blocked <==> key in t && !Stale(t[key], now) && t[key].attempts > Threshold
    ensures v == NotBlocked <==> key !in t || Stale(t[key], now)
  {
    if key !in t then NotBlocked
    else if Stale(t[key], now) then NotBlocked
    else if t[key].attempts > Threshold then Blocked
    else Undecided
  }

  /** The table after is_blocked: a blocked record is bumped and refreshed. */
  function AfterCheck(t: Table, key: Address, now: int): Table {
    if VerdictOf(t, key, now) == Blocked then t[key := Record(now, t[key].attempts + 1)] else t
  }

  /** A count either stays, goes up by one, or restarts at one. */
  predicate Successor(before: int, after: int) {
    after == before || after == before + 1 || after == 1
  }

  /** How one ledger state may follow another: no record disappears, and
   * every count that changes is incremented or reset to one. */
  ghost predicate Evolves(t: Table, t': Table) {
    t.Keys <= t'.Keys && forall k :: k in t ==> Successor(t[k].attempts, t'[k].attempts)
  }

  /** report_failure keeps the invariant, touches only its key, and
   * increments or resets that key's count. */
  lemma FailureKeepsInvariant(t: Table, key: Address, now: int)
    requires WellFormed(t) && IsKey(key)
    ensures WellFormed(AfterFailure(t, key, now))
    ensures Evolves(t, AfterFailure(t, key, now))
    ensures forall k :: k != key ==> Lookup(AfterFailure(t, key, now), k) == Lookup(t, k)
    ensures AfterFailure(t, key, now)[key].updatedAt == now
  {
  }

  /** is_blocked keeps the invariant and changes the table only when blocked. */
  lemma CheckKeepsInvariant(t: Table, key: Address, now: int)
    requires WellFormed(t)
    ensures WellFormed(AfterCheck(t, key, now))
    ensures Evolves(t, AfterCheck(t, key, now))
    ensures VerdictOf(t, key, now) != Blocked <==> AfterCheck(t, key, now) == t
  {
  }

  class Ledger {
    /** The FailedLogin table, keyed by the unique `ip_address` column. */
    var records: Table

    ghost predicate Valid()
      reads this
    {
      WellFormed(records)
    }

    constructor ()
      ensures Valid() && records == map[]
    {
      records := map[];
    }

    /**
     * report_failure. `failure` stands for a record the caller already
     * fetched (identified by its key); without one the record is looked up
     * by the normalized client address. Returns the new count.
     */
    method ReportFailure(addr: Address, failure: Option<Address>, now: int) returns (attempts: int)
      requires Valid()
      requires failure.Some? ==> failure.value in records
      modifies this
      ensures Valid()
      ensures failure.None? ==> records == AfterFailure(old(records), Normalize(addr), now)
      ensures failure.Some? ==> records == AfterFailure(old(records), failure.value, now)
      ensures attempts >= 1
      ensures attempts == records[if failure.Some? then failure.value else Normalize(addr)].attempts
    {
      if failure.Some? {
        var r := records[failure.value];
        if r.updatedAt < now - Hour {
          attempts := 1;
        } else {
          attempts := r.attempts + 1;
        }
        records := records[failure.value := Record(now, attempts)];
        return;
      }
      var key := Normalize(addr);
      NormalizeIdempotent(addr);
      if key in records {
        var obj := records[key];
        if obj.updatedAt < now - Hour {
          attempts := 1;
        } else {
          attempts := obj.attempts + 1;
        }
        records := records[key := Record(now, attempts)];
      } else {
        attempts := 1;
        records := records[key := Record(now, 1)];
      }
    }

    /**
     * is_blocked. A fresh record with more than ten attempts blocks, and
     * the check itself counts as an attempt: the count goes up by one and
     * the timestamp is refreshed. A fresh record at or below the threshold
     * falls through to the undecided (None) answer.
     */
    method IsBlocked(addr: Address, now: int) returns (v: Verdict)
      requires Valid()
      modifies this
      ensures Valid()
      ensures v == VerdictOf(old(records), Normalize(addr), now)
      ensures records == AfterCheck(old(records), Normalize(addr), now)
    {
      var key := Normalize(addr);
      if key !in records {
        return NotBlocked;
      }
      var obj := records[key];
      if obj.updatedAt < now - Hour {
        return NotBlocked;
      }
      if obj.attempts > Threshold {
        records := records[key := Record(now, obj.attempts + 1)];
        return Blocked;
      }
      return Undecided;
    }
  }
}
